/**
 * The header walk of `als/bcs/ingest.py`: a BCS data file is read line by
 * line, keyword lines fill a header record, a few keywords arm a flag that
 * captures the next line as a value, the line after a `From File` pause motor
 * names the scan file whose motor table is imported, and the first line that
 * starts with a digit ends the header. Also the two file-name helpers.
 */
module Ingest {
  import opened Wrappers
  import opened PyStr
  import opened PyPath
  import Data
  import Find
  import opened Scans

  // ---------------------------------------------------------------------------
  // The header record
  // ---------------------------------------------------------------------------

  /** The two values the header walk stores under `scan_type`. */
  datatype ScanType = SingleMotor | Trajectory

  /**
   * The `header_info` dictionary. Keys the walk may never set are `None`
   * here; the four motor lists start empty and `flying` starts false.
   */
  datatype HeaderInfo = HeaderInfo(
    scanType: Option<ScanType>,
    date: Option<int>,
    motors: seq<string>,
    motorFirst: seq<real>,
    motorLast: seq<real>,
    motorStep: seq<real>,
    motorVelocity: Option<seq<real>>,
    flying: bool,
    pauseMotor: Option<string>,
    scanFilePath: Option<string>,
    motorValues: Option<seq<seq<string>>>,
    delaySec: Option<real>,
    countSec: Option<real>,
    repeatNumber: Option<int>,
    bidirect: Option<bool>,
    stayAtEnd: Option<bool>,
    memo: Option<string>,
    motorHeaderLinenum: Option<int>)

  /** The record before any line is read. */
  const InitialHeader: HeaderInfo :=
    HeaderInfo(None, None, [], [], [], [], None, false, None, None, None, None, None, None, None, None, None, None)

  /** The four capture flags: each one makes the next line a value rather than a keyword line. */
  datatype Flags = Flags(motorName: bool, pauseMotorName: bool, scanFilePath: bool, memo: bool)

  const NoFlags: Flags := Flags(false, false, false, false)

  predicate AtMostOneFlag(f: Flags) {
    (if f.motorName then 1 else 0) + (if f.pauseMotorName then 1 else 0)
    + (if f.scanFilePath then 1 else 0) + (if f.memo then 1 else 0) <= 1
  }

  /**
   * What the walk needs from outside the data file: the data file's path, the
   * subpath replacements in iteration order, the scan files by path (a path
   * that is missing is a file that cannot be opened), the table reader of
   * `pandas.read_table`, `float()` and `strptime(..., "%m/%d/%Y")` (as a
   * day number).
   */
  datatype Env = Env(
    dataFilePath: string,
    subpathReplace: seq<(string, string)>,
    scanFiles: map<string, seq<string>>,
    readTable: TableReader,
    parseFloat: string -> Option<real>,
    parseDate: string -> Option<int>)

  /** The exceptions that escape `get_data_file_header`. */
  datatype HeaderError =
    | MissingValue(lineNumber: int, separator: string)      // IndexError of `split(separator, 1)[1]`
    | NotAFloat(lineNumber: int, text: string)              // ValueError of `float`
    | NotADate(lineNumber: int, text: string)               // ValueError of `strptime`
    | NotAnInteger(lineNumber: int, text: string)           // ValueError of `int`
    | BadDataFileName(codecError: Data.CodecError)            // from `get_data_file_numbers`
    | ScanFileMissing(path: string)                         // FileNotFoundError opening the scan file
    | ScanFileUnreadable(scanError: ScanError)                // from `import_scan_file` or `is_flying_scan`
    | FlyingValueNotAFloat(text: string)                    // ValueError of `float` on a descriptor field
    | MotorsNotAList(lineNumber: int)                       // AttributeError of `append` on the imported motor array

  // ---------------------------------------------------------------------------
  // Keyword lines
  // ---------------------------------------------------------------------------

  /** The branch of the keyword chain a line selects, the first match winning. */
  datatype LineKind =
    | DateLine | FlyingScanLine | StartStopIncrementLine | FromFileLine
    | StartLine | StopLine | IncrementLine | XCenterLine | DelayLine | CountLine
    | ScanNumberLine | BidirectLine | StayLine | DescriptionLine | DataLine | OtherLine

  /** The `startswith` tests, in the order the source makes them. */
  function Classify(line: string): (k: LineKind)
    ensures k == DataLine ==> FirstIsDigit(line)
  {
    if StartsWith(line, "Date: ") then DateLine
    else if StartsWith(line, "Flying Scan") then FlyingScanLine
    else if StartsWith(line, "Start, Stop, Increment") then StartStopIncrementLine
    else if StartsWith(line, "From File") then FromFileLine
    else if StartsWith(line, "Start") then StartLine
    else if StartsWith(line, "Stop") then StopLine
    else if StartsWith(line, "Increment") then IncrementLine
    else if StartsWith(line, "X Center") then XCenterLine
    else if StartsWith(line, "Delay ") then DelayLine
    else if StartsWith(line, "Count ") then CountLine
    else if StartsWith(line, "Scan Number") then ScanNumberLine
    else if StartsWith(line, "Bi-directional") then BidirectLine
    else if StartsWith(line, "Stay ") then StayLine
    else if StartsWith(line, "Decription ") then DescriptionLine
    else if FirstIsDigit(line) then DataLine
    else OtherLine
  }

  /** Every keyword starts with a letter, so a line that starts with a digit is a data line. */
  lemma DigitLineIsData(line: string)
    requires FirstIsDigit(line)
    ensures Classify(line) == DataLine
  {
  }

  /**
   * `Description Length:` spelled correctly matches no branch: the chain tests
   * for the misspelled keyword `Decription `.
   */
  lemma DescriptionLineIgnored(line: string)
    requires StartsWith(line, "Description ")
    ensures Classify(line) == OtherLine
  {
    assert line[..12] == "Description ";
    assert line[0] == 'D' && line[1] == 'e' && line[2] == 's';
    DiffersAt(line, "Date: ", 1);
    DiffersAt(line, "Flying Scan", 0);
    DiffersAt(line, "Start, Stop, Increment", 0);
    DiffersAt(line, "From File", 0);
    DiffersAt(line, "Start", 0);
    DiffersAt(line, "Stop", 0);
    DiffersAt(line, "Increment", 0);
    DiffersAt(line, "X Center", 0);
    DiffersAt(line, "Delay ", 2);
    DiffersAt(line, "Count ", 0);
    DiffersAt(line, "Scan Number", 0);
    DiffersAt(line, "Bi-directional", 0);
    DiffersAt(line, "Stay ", 0);
    DiffersAt(line, "Decription ", 2);
  }

  /** `line.strip().split(separator, 1)[1]`. */
  function ValueAfter(i: int, line: string, separator: string): Result<string, HeaderError>
    requires |separator| > 0
  {
    match AfterFirst(Strip(line), separator)
    case None => Err(MissingValue(i, separator))
    case Some(text) => Ok(text)
  }

  /** `float(line.strip().split(separator, 1)[1])`. */
  function FloatAfter(env: Env, i: int, line: string, separator: string): Result<real, HeaderError>
    requires |separator| > 0
  {
    var text :- ValueAfter(i, line, separator);
    match env.parseFloat(text)
    case None => Err(NotAFloat(i, text))
    case Some(x) => Ok(x)
  }

  /** `int(line.strip().split(separator, 1)[1])`. */
  function IntAfter(i: int, line: string, separator: string): (r: Result<int, HeaderError>)
    requires |separator| > 0
    ensures AfterFirst(Strip(line), separator).None? ==> r == Err(MissingValue(i, separator))
    ensures AfterFirst(Strip(line), separator).Some? ==>
              var text := AfterFirst(Strip(line), separator).value;
              r == match ParseInt(text) case None => Err(NotAnInteger(i, text)) case Some(n) => Ok(n)
  {
    var text :- ValueAfter(i, line, separator);
    match ParseInt(text)
    case None => Err(NotAnInteger(i, text))
    case Some(n) => Ok(n)
  }

  /** What one line does to the walk: go on with a new record and flags, or stop with a final record. */
  datatype StepOutcome = Next(info: HeaderInfo, flags: Flags) | Done(info: HeaderInfo)

  /**
   * The keyword chain, reached only when no capture flag is set: it arms at
   * most one flag, and only a data line stops the walk and sets the boundary.
   */
  function KeywordStep(env: Env, info: HeaderInfo, i: int, line: string): (r: Result<StepOutcome, HeaderError>)
    ensures r.Ok? && r.value.Next? ==> r.value.info.motorHeaderLinenum == info.motorHeaderLinenum
    ensures r.Ok? && r.value.Next? ==> AtMostOneFlag(r.value.flags) && !r.value.flags.scanFilePath
    ensures r.Ok? && r.value.Done? <==> Classify(line) == DataLine
    ensures r.Ok? && r.value.Done? ==> r.value.info == info.(motorHeaderLinenum := Some(i - 1))
  {
    var flags := NoFlags;
    match Classify(line)
    case DateLine =>
      var text :- ValueAfter(i, line, "Date: ");
      (match env.parseDate(text)
       case None => Err(NotADate(i, text))
       case Some(d) => Ok(Next(info.(date := Some(d)), flags)))
    case FlyingScanLine =>
      Ok(Next(info.(flying := true, scanType := Some(SingleMotor)), flags.(motorName := true)))
    case StartStopIncrementLine =>
      Ok(Next(info.(scanType := Some(SingleMotor)), flags.(motorName := true)))
    case FromFileLine =>
      Ok(Next(info.(scanType := Some(Trajectory)), flags.(pauseMotorName := true)))
    case StartLine =>
      var v :- FloatAfter(env, i, line, "Start: ");
      Ok(Next(info.(motorFirst := [v]), flags))
    case StopLine =>
      var v :- FloatAfter(env, i, line, "Stop: ");
      Ok(Next(info.(motorLast := [v]), flags))
    case IncrementLine =>
      var v :- FloatAfter(env, i, line, "Increment: ");
      Ok(Next(info.(motorStep := [v]), flags))
    case XCenterLine =>
      var v :- FloatAfter(env, i, line, "X Center: ");
      Ok(Next(info.(motorVelocity := Some([v])), flags))
    case DelayLine =>
      var v :- FloatAfter(env, i, line, "Delay After Move (s): ");
      Ok(Next(info.(delaySec := Some(v)), flags))
    case CountLine =>
      var v :- FloatAfter(env, i, line, "Count Time (s): ");
      Ok(Next(info.(countSec := Some(v)), flags))
    case ScanNumberLine =>
      var n :- IntAfter(i, line, "Scan Number: ");
      Ok(Next(info.(repeatNumber := Some(n)), flags))
    case BidirectLine =>
      var text :- ValueAfter(i, line, "Bi-directional: ");
      Ok(Next(info.(bidirect := Some(text == "Yes")), flags))
    case StayLine =>
      var text :- ValueAfter(i, line, "Stay at End: ");
      Ok(Next(info.(stayAtEnd := Some(text != [])), flags))
    case DescriptionLine =>
      var text :- ValueAfter(i, line, "Description Length: ");
      Ok(Next(info, flags.(memo := text != [])))
    case DataLine =>
      Ok(Done(info.(motorHeaderLinenum := Some(i - 1))))
    case OtherLine =>
      Ok(Next(info, flags))
  }

  // ---------------------------------------------------------------------------
  // The scan-file capture
  // ---------------------------------------------------------------------------

  /** `motor_df.values.T`: one sequence per column, holding that column's cells in row order. */
  function Transpose(t: Table): (m: seq<seq<string>>)
    ensures |m| == |t.columns|
    ensures forall j :: 0 <= j < |m| ==> |m[j]| == |t.rows|
  {
    seq(|t.columns|, j requires 0 <= j < |t.columns| =>
      seq(|t.rows|, i requires 0 <= i < |t.rows| => t.rows[i][j]))
  }

  /** Cell `i` of column `j` is cell `j` of row `i`. */
  lemma TransposeCell(t: Table, j: nat, i: nat)
    requires j < |t.columns| && i < |t.rows|
    ensures Transpose(t)[j][i] == t.rows[i][j]
  {
  }

  /** The characters `lstrip('flying')` removes. */
  const FlyingChars: set<char> := {'f', 'l', 'y', 'i', 'n', 'g'}

  /** The two clean-up lines applied to a flying descriptor cell before it is split at commas. */
  function CleanDescriptor(cell: string): string {
    var s := LStripChars(Lower(Strip(cell)), FlyingChars);
    RStripChars(LStripChars(Strip(s), {'('}), {')'})
  }

  /** `Lower` works character by character, so it distributes over concatenation. */
  lemma LowerConcat(a: string, b: string)
    ensures Lower(a + b) == Lower(a) + Lower(b)
  {
    assert forall i :: 0 <= i < |a + b| ==> Lower(a + b)[i] == (Lower(a) + Lower(b))[i];
  }

  /** A string of characters `lower()` leaves alone is left alone. */
  lemma LowerFixed(s: string)
    requires forall i :: 0 <= i < |s| ==> LowerChar(s[i]) == s[i]
    ensures Lower(s) == s
  {
  }

  /** The first clean-up line turns `flying(<body>)`, the keyword in any case, into `(<body>)`. */
  lemma CleanFlyingKeyword(keyword: string, tail: string)
    requires Lower(keyword) == "flying"
    requires |tail| > 0 && tail[0] == '(' && tail[|tail| - 1] == ')'
    requires forall i :: 0 <= i < |tail| ==> LowerChar(tail[i]) == tail[i]
    ensures LStripChars(Lower(Strip(keyword + tail)), FlyingChars) == tail
  {
    FlyingCellUntrimmed(keyword, tail);
    FlyingCellLowered(keyword, tail);
    LStripCharsPrefix("flying", tail, FlyingChars);
  }

  lemma FlyingCellUntrimmed(keyword: string, tail: string)
    requires Lower(keyword) == "flying"
    requires |tail| > 0 && tail[|tail| - 1] == ')'
    ensures Strip(keyword + tail) == keyword + tail
  {
    var cell := keyword + tail;
    assert LowerChar(keyword[0]) == 'f';
    assert cell[0] == keyword[0] && cell[|cell| - 1] == ')';
    StripUntrimmed(cell);
  }

  lemma FlyingCellLowered(keyword: string, tail: string)
    requires Lower(keyword) == "flying"
    requires forall i :: 0 <= i < |tail| ==> LowerChar(tail[i]) == tail[i]
    ensures Lower(keyword + tail) == "flying" + tail
  {
    LowerConcat(keyword, tail);
    LowerFixed(tail);
  }

  /** The second clean-up line takes the parentheses off `(<body>)`. */
  lemma CleanParentheses(body: string)
    requires |body| > 0 && body[0] != '(' && body[|body| - 1] != ')'
    ensures RStripChars(LStripChars(Strip("(" + body + ")"), {'('}), {')'}) == body
  {
    var tail := "(" + body + ")";
    StripUntrimmed(tail);
    assert tail == "(" + (body + ")");
    LStripCharsPrefix("(", body + ")", {'('});
    RStripCharsSuffix(body, ")", {')'});
  }

  /**
   * A descriptor `flying(<body>)`, the keyword in any case, cleans to its
   * body when the body is already lower case and is not itself wrapped in
   * further parentheses.
   */
  lemma CleanFlyingDescriptor(keyword: string, body: string)
    requires Lower(keyword) == "flying"
    requires |body| > 0 && body[0] != '(' && body[|body| - 1] != ')'
    requires forall i :: 0 <= i < |body| ==> LowerChar(body[i]) == body[i]
    ensures CleanDescriptor(keyword + "(" + body + ")") == body
  {
    var tail := "(" + body + ")";
    assert keyword + "(" + body + ")" == keyword + tail;
    assert forall i :: 0 <= i < |tail| ==> LowerChar(tail[i]) == tail[i] by {
      forall i | 0 <= i < |tail| ensures LowerChar(tail[i]) == tail[i] {
        if 0 < i < |tail| - 1 {
          assert tail[i] == body[i - 1];
        }
      }
    }
    CleanFlyingKeyword(keyword, tail);
    CleanParentheses(body);
  }

  /** The four lists a flying descriptor fills, named after `key_names`. */
  datatype FlyingLists = FlyingLists(first: seq<real>, last: seq<real>, step: seq<real>, velocity: seq<real>)

  const NoFlyingLists: FlyingLists := FlyingLists([], [], [], [])

  /** `header_info[key_names[t]].append(value)`. */
  function AppendField(lists: FlyingLists, t: nat, value: real): FlyingLists
    requires t < 4
  {
    if t == 0 then lists.(first := lists.first + [value])
    else if t == 1 then lists.(last := lists.last + [value])
    else if t == 2 then lists.(step := lists.step + [value])
    else lists.(velocity := lists.velocity + [value])
  }

  /** Whether key `k` gets a value when the `zip` walk over `fields` starts at field `t0`. */
  function Lands(t0: nat, k: nat, fields: seq<string>): nat {
    if t0 <= k < |fields| then 1 else 0
  }

  /**
   * The inner `zip` loop from field `t` on: fields and key names are taken in
   * step, so at most four fields are read and key `k` gets one value exactly
   * when field `k` exists; the first field `float` refuses stops the walk.
   */
  function PushFields(parseFloat: string -> Option<real>, lists: FlyingLists, fields: seq<string>, t: nat)
    : (r: Result<FlyingLists, HeaderError>)
    requires t <= 4
    decreases 4 - t
    ensures r.Ok? ==> (|r.value.first| == |lists.first| + Lands(t, 0, fields)
                       && |r.value.last| == |lists.last| + Lands(t, 1, fields)
                       && |r.value.step| == |lists.step| + Lands(t, 2, fields)
                       && |r.value.velocity| == |lists.velocity| + Lands(t, 3, fields))
  {
    if t == 4 || t >= |fields| then Ok(lists)
    else
      match parseFloat(fields[t])
      case None => Err(FlyingValueNotAFloat(fields[t]))
      case Some(v) => PushFields(parseFloat, AppendField(lists, t, v), fields, t + 1)
  }

  /** With four fields or more, each key gets the value of its field, and the fields past the fourth are ignored. */
  lemma PushFourFields(parseFloat: string -> Option<real>, lists: FlyingLists, fields: seq<string>)
    requires |fields| >= 4
    requires forall t :: 0 <= t < 4 ==> parseFloat(fields[t]).Some?
    ensures PushFields(parseFloat, lists, fields, 0)
         == Ok(FlyingLists(lists.first + [parseFloat(fields[0]).value], lists.last + [parseFloat(fields[1]).value],
                           lists.step + [parseFloat(fields[2]).value], lists.velocity + [parseFloat(fields[3]).value]))
  {
    var l1 := AppendField(lists, 0, parseFloat(fields[0]).value);
    var l2 := AppendField(l1, 1, parseFloat(fields[1]).value);
    var l3 := AppendField(l2, 2, parseFloat(fields[2]).value);
    var l4 := AppendField(l3, 3, parseFloat(fields[3]).value);
    assert PushFields(parseFloat, l3, fields, 3) == Ok(l4);
    assert PushFields(parseFloat, l2, fields, 2) == Ok(l4);
    assert PushFields(parseFloat, l1, fields, 1) == Ok(l4);
  }

  /** The fields of one descriptor cell; there is always at least one. */
  function DescriptorFields(cell: string): (fields: seq<string>)
    ensures |fields| >= 1
  {
    Split(CleanDescriptor(cell), ',')
  }

  /** The fields of every cell of the flying column, in step order. */
  function DescriptorTable(cells: seq<string>): (table: seq<seq<string>>)
    ensures |table| == |cells|
    ensures forall j :: 0 <= j < |cells| ==> |table[j]| >= 1
  {
    seq(|cells|, j requires 0 <= j < |cells| => DescriptorFields(cells[j]))
  }

  /**
   * The outer loop over the flying column: the fields of every step are
   * pushed onto the lists the steps before it filled.
   */
  function FlyingDescriptors(parseFloat: string -> Option<real>, steps: seq<seq<string>>): Result<FlyingLists, HeaderError>
    decreases |steps|
  {
    if steps == [] then Ok(NoFlyingLists)
    else
      var lists :- FlyingDescriptors(parseFloat, steps[..|steps| - 1]);
      PushFields(parseFloat, lists, steps[|steps| - 1], 0)
  }

  /**
   * Each step with at least one field (every split has one) adds exactly one
   * `motor_first` value, and the four lists never grow longer from first to
   * velocity.
   */
  lemma {:induction false} FlyingDescriptorsLengths(parseFloat: string -> Option<real>, steps: seq<seq<string>>)
    requires forall j :: 0 <= j < |steps| ==> |steps[j]| >= 1
    requires FlyingDescriptors(parseFloat, steps).Ok?
    ensures var lists := FlyingDescriptors(parseFloat, steps).value;
            |lists.first| == |steps| && |lists.velocity| <= |lists.step| <= |lists.last| <= |lists.first|
    decreases |steps|
  {
    if steps != [] {
      FlyingDescriptorsLengths(parseFloat, steps[..|steps| - 1]);
    }
  }

  /** The first step that fails decides the error: the steps after it are never read. */
  lemma {:induction false} FlyingDescriptorsFailEarly(parseFloat: string -> Option<real>, steps: seq<seq<string>>, j: nat)
    requires j <= |steps|
    requires FlyingDescriptors(parseFloat, steps[..j]).Err?
    ensures FlyingDescriptors(parseFloat, steps) == FlyingDescriptors(parseFloat, steps[..j])
    decreases |steps|
  {
    if j < |steps| {
      var init := steps[..|steps| - 1];
      assert init[..j] == steps[..j];
      FlyingDescriptorsFailEarly(parseFloat, init, j);
    } else {
      assert steps[..j] == steps;
    }
  }

  /**
   * The loop that moves the flying motor's descriptors into the four motor
   * lists: for each step, the fields of its cleaned and split cell go to the
   * keys in order.
   */
  method FlyingMotorValues(parseFloat: string -> Option<real>, steps: seq<seq<string>>)
    returns (r: Result<FlyingLists, HeaderError>)
    ensures r == FlyingDescriptors(parseFloat, steps)
  {
    var lists := NoFlyingLists;
    for j := 0 to |steps|
      invariant FlyingDescriptors(parseFloat, steps[..j]) == Ok(lists)
    {
      var fields := steps[j];
      ghost var start := lists;
      assert steps[..j + 1][..j] == steps[..j];
      var t := 0;
      while t < |fields| && t < 4
        invariant 0 <= t <= 4
        invariant PushFields(parseFloat, lists, fields, t) == PushFields(parseFloat, start, fields, 0)
      {
        var motorValue := parseFloat(fields[t]);
        if motorValue.None? {
          FlyingDescriptorsFailEarly(parseFloat, steps, j + 1);
          return Err(FlyingValueNotAFloat(fields[t]));
        }
        lists := AppendField(lists, t, motorValue.value);
        t := t + 1;
      }
    }
    assert steps[..|steps|] == steps;
    return Ok(lists);
  }

  /**
   * The motor table of an opened scan file, imported for output file
   * `fileNumber`: its columns become `motors` and its transposed cells
   * `motor_values`. For a flying scan the last column's descriptors replace
   * the four motor lists and that column leaves `motor_values`.
   */
  function ImportMotors(env: Env, info: HeaderInfo, scanLines: seq<string>, fileNumber: Option<int>)
    : (r: Result<HeaderInfo, HeaderError>)
    ensures r.Ok? ==> r.value.scanFilePath == info.scanFilePath && r.value.motorHeaderLinenum == info.motorHeaderLinenum
  {
    var imported := ImportedTable(scanLines, fileNumber, env.readTable);
    if imported.Err? then Err(ScanFileUnreadable(imported.error))
    else
      var table := imported.value;
      var values := Transpose(table);
      // `is_flying_scan` repeats the read that has just succeeded, so it cannot fail here.
      var flying := IsFlyingScan(scanLines, fileNumber, env.readTable).value;
      var captured := info.(motors := table.columns, motorValues := Some(values));
      if !flying then Ok(captured)
      else
        var lists :- FlyingDescriptors(env.parseFloat, DescriptorTable(values[|values| - 1]));
        Ok(captured.(flying := true, motorFirst := lists.first, motorLast := lists.last, motorStep := lists.step,
                     motorVelocity := Some(lists.velocity), motorValues := Some(values[..|values| - 1])))
  }

  /**
   * After an import, `motors` are the imported table's columns and
   * `motor_values` its transposed cells, one row per motor; for a flying scan,
   * and only then, the last row is gone and its descriptors fill the four
   * motor lists, which hold one `motor_first` value per step and never grow
   * longer from first to velocity. No other key changes.
   */
  lemma ImportMotorsShape(env: Env, info: HeaderInfo, scanLines: seq<string>, fileNumber: Option<int>)
    requires ImportMotors(env, info, scanLines, fileNumber).Ok?
    ensures var h, t := ImportMotors(env, info, scanLines, fileNumber).value, ImportedTable(scanLines, fileNumber, env.readTable);
            && t.Ok? && h.motors == t.value.columns && |h.motors| > 0 && h.motorValues.Some?
            && (IsFlyingScan(scanLines, fileNumber, env.readTable).value <==> |h.motorValues.value| + 1 == |h.motors|)
            && (!IsFlyingScan(scanLines, fileNumber, env.readTable).value ==>
                  h.motorValues == Some(Transpose(t.value)) && h.flying == info.flying)
    ensures var h, t := ImportMotors(env, info, scanLines, fileNumber).value, ImportedTable(scanLines, fileNumber, env.readTable);
            IsFlyingScan(scanLines, fileNumber, env.readTable).value ==>
              && h.flying && h.motorVelocity.Some?
              && h.motorValues == Some(Transpose(t.value)[..|h.motors| - 1])
              && FlyingDescriptors(env.parseFloat, DescriptorTable(Transpose(t.value)[|h.motors| - 1]))
                 == Ok(FlyingLists(h.motorFirst, h.motorLast, h.motorStep, h.motorVelocity.value))
              && |h.motorVelocity.value| <= |h.motorStep| <= |h.motorLast| <= |h.motorFirst|
    ensures var h, t := ImportMotors(env, info, scanLines, fileNumber).value, ImportedTable(scanLines, fileNumber, env.readTable);
            !IsFlyingScan(scanLines, fileNumber, env.readTable).value ==>
              h == info.(motors := t.value.columns, motorValues := Some(Transpose(t.value)))
    ensures var h, t := ImportMotors(env, info, scanLines, fileNumber).value, ImportedTable(scanLines, fileNumber, env.readTable);
            IsFlyingScan(scanLines, fileNumber, env.readTable).value ==>
              var cols, values := t.value.columns, Transpose(t.value);
              var lists := FlyingDescriptors(env.parseFloat, DescriptorTable(values[|cols| - 1]));
              && lists.Ok?
              && h == info.(motors := cols, flying := true,
                            motorFirst := lists.value.first, motorLast := lists.value.last, motorStep := lists.value.step,
                            motorVelocity := Some(lists.value.velocity), motorValues := Some(values[..|cols| - 1]))
  {
    var table := ImportedTable(scanLines, fileNumber, env.readTable).value;
    var values := Transpose(table);
    if IsFlyingScan(scanLines, fileNumber, env.readTable).value {
      FlyingDescriptorsLengths(env.parseFloat, DescriptorTable(values[|values| - 1]));
    }
  }

  /**
   * The import fails exactly when the scan file's table cannot be read, or a
   * flying scan's descriptors hold a value that is not a number, and then with
   * that error.
   */
  lemma ImportMotorsOutcome(env: Env, info: HeaderInfo, scanLines: seq<string>, fileNumber: Option<int>)
    ensures var r, t := ImportMotors(env, info, scanLines, fileNumber), ImportedTable(scanLines, fileNumber, env.readTable);
            t.Err? ==> r == Err(ScanFileUnreadable(t.error))
    ensures var r, t := ImportMotors(env, info, scanLines, fileNumber), ImportedTable(scanLines, fileNumber, env.readTable);
            t.Ok? && IsFlyingScan(scanLines, fileNumber, env.readTable).value ==>
              var lists := FlyingDescriptors(env.parseFloat, DescriptorTable(Transpose(t.value)[|t.value.columns| - 1]));
              (r.Ok? <==> lists.Ok?) && (lists.Err? ==> r == Err(lists.error))
    ensures var r, t := ImportMotors(env, info, scanLines, fileNumber), ImportedTable(scanLines, fileNumber, env.readTable);
            t.Ok? && !IsFlyingScan(scanLines, fileNumber, env.readTable).value ==> r.Ok?
  {
    var t := ImportedTable(scanLines, fileNumber, env.readTable);
    if t.Ok? {
      var values := Transpose(t.value);
      assert |values| == |t.value.columns| > 0;
      if IsFlyingScan(scanLines, fileNumber, env.readTable).value {
        var lists := FlyingDescriptors(env.parseFloat, DescriptorTable(values[|values| - 1]));
        if lists.Err? {
          assert ImportMotors(env, info, scanLines, fileNumber) == Err(lists.error);
        }
      }
    }
  }

  /**
   * The line after a `From File` pause motor: the scan-file path is stored as
   * read (trailing whitespace dropped, `\` made `/`), the data file's output
   * number decoded from its name, the path remapped, and the motor table
   * imported from the scan file found there.
   */
  function CaptureScanFile(env: Env, info: HeaderInfo, line: string): (r: Result<HeaderInfo, HeaderError>)
    ensures r.Ok? ==> r.value.scanFilePath == Some(CleanScanPath(line)) && '\\' !in r.value.scanFilePath.value
    ensures r.Ok? ==> r.value.motorHeaderLinenum == info.motorHeaderLinenum
  {
    var path := CleanScanPath(line);
    var numbers :- match Data.GetDataFileNumbers(env.dataFilePath)
                   case Err(e) => Err(BadDataFileName(e))
                   case Ok(n) => Ok(n);
    var scanPath := Find.ReplaceAll(path, env.subpathReplace);
    if scanPath !in env.scanFiles then Err(ScanFileMissing(scanPath))
    else ImportMotors(env, info.(scanFilePath := Some(path)), env.scanFiles[scanPath], numbers.file)
  }

  /**
   * The capture fails on a data-file name that does not decode, then on a
   * remapped path with no scan file behind it; otherwise it is the import of
   * that scan file for the decoded output number, with the cleaned path stored.
   */
  lemma CaptureScanFileOutcome(env: Env, info: HeaderInfo, line: string)
    ensures var numbers, r := Data.GetDataFileNumbers(env.dataFilePath), CaptureScanFile(env, info, line);
            numbers.Err? ==> r == Err(BadDataFileName(numbers.error))
    ensures var numbers, r := Data.GetDataFileNumbers(env.dataFilePath), CaptureScanFile(env, info, line);
            var path := CleanScanPath(line);
            var scanPath := Find.ReplaceAll(path, env.subpathReplace);
            numbers.Ok? ==>
              && (scanPath !in env.scanFiles ==> r == Err(ScanFileMissing(scanPath)))
              && (scanPath in env.scanFiles ==>
                    r == ImportMotors(env, info.(scanFilePath := Some(path)), env.scanFiles[scanPath], numbers.value.file))
    ensures var numbers, r := Data.GetDataFileNumbers(env.dataFilePath), CaptureScanFile(env, info, line);
            r.Ok? ==> numbers.Ok? && Find.ReplaceAll(CleanScanPath(line), env.subpathReplace) in env.scanFiles
  {
    var numbers := Data.GetDataFileNumbers(env.dataFilePath);
    if numbers.Ok? {
      assert CaptureScanFile(env, info, line)
             == (var scanPath := Find.ReplaceAll(CleanScanPath(line), env.subpathReplace);
                 if scanPath !in env.scanFiles then Err(ScanFileMissing(scanPath))
                 else ImportMotors(env, info.(scanFilePath := Some(CleanScanPath(line))), env.scanFiles[scanPath], numbers.value.file));
    }
  }

  /** The imperative form of the capture, as the source writes it inline in the walk. */
  method CaptureScanFileLines(env: Env, info: HeaderInfo, fileLine: string) returns (r: Result<HeaderInfo, HeaderError>)
    ensures r == CaptureScanFile(env, info, fileLine)
  {
    var scanFilePathRaw := RStrip(fileLine);
    var scanFilePath := Replace(scanFilePathRaw, "\\", "/");
    var headerInfo := info.(scanFilePath := Some(scanFilePath));
    var numbers := Data.GetDataFileNumbers(env.dataFilePath);
    if numbers.Err? {
      return Err(BadDataFileName(numbers.error));
    }
    var fileNumber := numbers.value.file;
    scanFilePath := Find.ReplaceSubpath(scanFilePath, env.subpathReplace);
    if scanFilePath !in env.scanFiles {
      return Err(ScanFileMissing(scanFilePath));
    }
    r := ImportMotorFrame(env, headerInfo, env.scanFiles[scanFilePath], fileNumber);
  }

  /** `import_scan_file`, the transposition, and for a flying scan the descriptor loop. */
  method ImportMotorFrame(env: Env, info: HeaderInfo, scanLines: seq<string>, fileNumber: Option<int>)
    returns (r: Result<HeaderInfo, HeaderError>)
    ensures r == ImportMotors(env, info, scanLines, fileNumber)
  {
    var motorDf := ImportScanFile(scanLines, fileNumber, env.readTable);
    if motorDf.Err? {
      return Err(ScanFileUnreadable(motorDf.error));
    }
    var df := motorDf.value;
    var table: Table := RawTable(df.columns, df.rows);
    var values := Transpose(table);
    var headerInfo := info.(motors := df.columns, motorValues := Some(values));
    var flying := IsFlyingScan(scanLines, fileNumber, env.readTable);
    if flying.value {
      var lists := FlyingMotorValues(env.parseFloat, DescriptorTable(values[|values| - 1]));
      if lists.Err? {
        return Err(lists.error);
      }
      headerInfo := headerInfo.(flying := true, motorFirst := lists.value.first, motorLast := lists.value.last,
                                motorStep := lists.value.step, motorVelocity := Some(lists.value.velocity),
                                motorValues := Some(values[..|values| - 1]));
    }
    return Ok(headerInfo);
  }

  // ---------------------------------------------------------------------------
  // The walk
  // ---------------------------------------------------------------------------

  /**
   * Whether `motors` holds the column array of an imported scan file rather
   * than the list the walk started with: `motor_values` is set by the import
   * and by nothing else.
   */
  predicate MotorsImported(info: HeaderInfo) {
    info.motorValues.Some?
  }

  /**
   * One line of the data file: an armed flag captures it, motor name first,
   * then pause motor, scan-file path and memo; otherwise the keyword chain
   * decides. The walk stops exactly at an unclaimed line that starts with a
   * digit, recording the line before it; no other line touches that key, and
   * at most one flag is ever armed.
   */
  function Step(env: Env, info: HeaderInfo, flags: Flags, i: int, line: string): (r: Result<StepOutcome, HeaderError>)
    ensures r.Ok? && r.value.Next? ==> r.value.info.motorHeaderLinenum == info.motorHeaderLinenum
    ensures r.Ok? && r.value.Done? ==> flags == NoFlags && FirstIsDigit(line)
    ensures r.Ok? && r.value.Done? ==> r.value.info == info.(motorHeaderLinenum := Some(i - 1))
    ensures AtMostOneFlag(flags) && r.Ok? && r.value.Next? ==> AtMostOneFlag(r.value.flags)
  {
    if flags.motorName then
      if MotorsImported(info) then Err(MotorsNotAList(i))
      else Ok(Next(info.(motors := info.motors + [Strip(line)]), flags.(motorName := false)))
    else if flags.pauseMotorName then
      Ok(Next(info.(pauseMotor := Some(Strip(line))), flags.(pauseMotorName := false, scanFilePath := true)))
    else if flags.scanFilePath then
      var captured :- CaptureScanFile(env, info, line);
      Ok(Next(captured, flags.(scanFilePath := false)))
    else if flags.memo then
      Ok(Next(info.(memo := Some(RStrip(line))), flags.(memo := false)))
    else
      KeywordStep(env, info, i, line)
  }

  /** What a step does with one line, at its index, given the record and the flags so far. */
  type StepFn = (HeaderInfo, Flags, int, string) -> Result<StepOutcome, HeaderError>

  /** The step of `get_data_file_header`, with the outside world fixed. */
  function StepOf(env: Env): StepFn {
    (info, flags, i, line) => Step(env, info, flags, i, line)
  }

  /**
   * What the walk's lemmas rely on of a step: going on keeps the boundary,
   * and stopping happens only at a digit line, recording the line before it.
   */
  predicate BoundaryStep(info: HeaderInfo, i: int, line: string, r: Result<StepOutcome, HeaderError>) {
    && (r.Ok? && r.value.Next? ==> r.value.info.motorHeaderLinenum == info.motorHeaderLinenum)
    && (r.Ok? && r.value.Done? ==> FirstIsDigit(line) && r.value.info.motorHeaderLinenum == Some(i - 1))
  }

  ghost predicate KeepsBoundary(step: StepFn) {
    forall info, flags, i, line :: BoundaryStep(info, i, line, step(info, flags, i, line))
  }

  /** The data file's step keeps the boundary. */
  lemma StepKeepsBoundary(env: Env)
    ensures KeepsBoundary(StepOf(env))
  {
    forall info, flags, i, line ensures BoundaryStep(info, i, line, StepOf(env)(info, flags, i, line)) {
      var r := Step(env, info, flags, i, line);
    }
  }

  /** The walk from line `i` on, with the record and flags the earlier lines left. */
  function Walk(step: StepFn, lines: seq<string>, i: nat, info: HeaderInfo, flags: Flags): Result<HeaderInfo, HeaderError>
    requires i <= |lines|
    decreases |lines| - i, 1
  {
    if i == |lines| then Ok(info)
    else Resume(step, lines, i, step(info, flags, i, lines[i]))
  }

  /** The walk after the step at line `i`: it stops on an error or at the boundary, and goes on otherwise. */
  function Resume(step: StepFn, lines: seq<string>, i: nat, r: Result<StepOutcome, HeaderError>): Result<HeaderInfo, HeaderError>
    requires i < |lines|
    decreases |lines| - i, 0
  {
    var outcome :- r;
    match outcome
    case Done(h) => Ok(h)
    case Next(h, f) => Walk(step, lines, i + 1, h, f)
  }

  /** The walk of the data file at line `i` is its step on that line, then the rest of the walk. */
  lemma WalkAtLine(env: Env, lines: seq<string>, i: nat, info: HeaderInfo, flags: Flags)
    requires i < |lines|
    ensures Walk(StepOf(env), lines, i, info, flags) == Resume(StepOf(env), lines, i, Step(env, info, flags, i, lines[i]))
  {
  }

  /** `get_data_file_header` on the lines of the data file. */
  function ParseHeader(env: Env, lines: seq<string>): Result<HeaderInfo, HeaderError> {
    Walk(StepOf(env), lines, 0, InitialHeader, NoFlags)
  }

  /**
   * `get_data_file_header`: the loop over the data file's lines, with the four
   * capture flags as its state.
   */
  method GetDataFileHeader(env: Env, lines: seq<string>) returns (r: Result<HeaderInfo, HeaderError>)
    ensures r == ParseHeader(env, lines)
  {
    var headerInfo := InitialHeader;
    var getMotorName, getPauseMotorName, getScanFilePath, getMemo := false, false, false, false;
    for headerLinenum := 0 to |lines|
      invariant Walk(StepOf(env), lines, headerLinenum, headerInfo, Flags(getMotorName, getPauseMotorName, getScanFilePath, getMemo))
             == ParseHeader(env, lines)
    {
      var fileLine := lines[headerLinenum];
      WalkAtLine(env, lines, headerLinenum, headerInfo, Flags(getMotorName, getPauseMotorName, getScanFilePath, getMemo));
      if getMotorName {
        var motorName := Strip(fileLine);
        if headerInfo.motorValues.Some? {
          return Err(MotorsNotAList(headerLinenum));
        }
        headerInfo := headerInfo.(motors := headerInfo.motors + [motorName]);
        getMotorName := false;
        continue;
      }
      if getPauseMotorName {
        var motorName := Strip(fileLine);
        headerInfo := headerInfo.(pauseMotor := Some(motorName));
        getPauseMotorName := false;
        getScanFilePath := true;
        continue;
      }
      if getScanFilePath {
        getScanFilePath := false;
        var captured := CaptureScanFileLines(env, headerInfo, fileLine);
        if captured.Err? {
          return Err(captured.error);
        }
        headerInfo := captured.value;
        continue;
      }
      if getMemo {
        headerInfo := headerInfo.(memo := Some(RStrip(fileLine)));
        getMemo := false;
        continue;
      }
      var outcome := KeywordStep(env, headerInfo, headerLinenum, fileLine);
      if outcome.Err? {
        return Err(outcome.error);
      }
      if outcome.value.Done? {
        return Ok(outcome.value.info);
      }
      headerInfo := outcome.value.info;
      getMotorName, getPauseMotorName, getMemo := outcome.value.flags.motorName, outcome.value.flags.pauseMotorName, outcome.value.flags.memo;
      getScanFilePath := outcome.value.flags.scanFilePath;
    }
    return Ok(headerInfo);
  }

  // ---------------------------------------------------------------------------
  // Properties of the walk
  // ---------------------------------------------------------------------------

  /** A data file with no lines gives the initial record: no scan type, no date, empty lists, not flying. */
  lemma EmptyFileHeader(env: Env)
    ensures ParseHeader(env, []) == Ok(InitialHeader)
    ensures InitialHeader.scanType.None? && InitialHeader.date.None? && !InitialHeader.flying
    ensures InitialHeader.motors == [] && InitialHeader.motorFirst == [] && InitialHeader.motorLast == []
    ensures InitialHeader.motorStep == [] && InitialHeader.motorVelocity.None?
  {
  }

  /**
   * An armed motor-name flag takes the next line as a name whatever it says,
   * even a keyword or a digit line, and disarms; nothing else changes. This
   * holds while `motors` is still the walk's own list.
   */
  lemma MotorNameLineCaptured(env: Env, info: HeaderInfo, flags: Flags, i: int, line: string)
    requires flags.motorName && !MotorsImported(info)
    ensures Step(env, info, flags, i, line)
         == Ok(Next(info.(motors := info.motors + [Strip(line)]), flags.(motorName := false)))
  {
  }

  /**
   * After a scan file has been imported, `motors` is the table's column array,
   * which has no `append`: a motor name armed later, by `Flying Scan` or
   * `Start, Stop, Increment`, stops the walk at the next line.
   */
  lemma MotorNameAfterImportFails(env: Env, info: HeaderInfo, scanLines: seq<string>, fileNumber: Option<int>,
                                  flags: Flags, i: int, line: string)
    requires ImportMotors(env, info, scanLines, fileNumber).Ok? && flags.motorName
    ensures Step(env, ImportMotors(env, info, scanLines, fileNumber).value, flags, i, line) == Err(MotorsNotAList(i))
  {
    ImportMotorsShape(env, info, scanLines, fileNumber);
  }

  /** The pause-motor line is stored stripped and arms the scan-file path for the line after it. */
  lemma PauseMotorArmsScanFile(env: Env, info: HeaderInfo, i: int, line: string)
    ensures Step(env, info, NoFlags.(pauseMotorName := true), i, line)
         == Ok(Next(info.(pauseMotor := Some(Strip(line))), NoFlags.(scanFilePath := true)))
  {
  }

  /**
   * The line after the pause motor is the scan-file path: the capture and
   * import either stop the walk with their error or give the new record, and
   * the flag is disarmed.
   */
  lemma ScanFilePathLineCaptured(env: Env, info: HeaderInfo, i: int, line: string)
    ensures Step(env, info, NoFlags.(scanFilePath := true), i, line)
         == match CaptureScanFile(env, info, line)
            case Err(e) => Err(e)
            case Ok(h) => Ok(Next(h, NoFlags))
  {
  }

  /** The memo line is stored with only its trailing whitespace removed. */
  lemma MemoLineCaptured(env: Env, info: HeaderInfo, i: int, line: string)
    ensures Step(env, info, NoFlags.(memo := true), i, line)
         == Ok(Next(info.(memo := Some(RStrip(line))), NoFlags))
  {
  }

  /**
   * `Start, Stop, Increment` only names the scan type and arms the motor
   * name: the `Start` branch after it is not taken, so `motor_first` keeps
   * its value.
   */
  lemma StartStopIncrementKeepsValues(env: Env, info: HeaderInfo, i: int, line: string)
    requires StartsWith(line, "Start, Stop, Increment")
    ensures KeywordStep(env, info, i, line)
         == Ok(Next(info.(scanType := Some(SingleMotor)), NoFlags.(motorName := true)))
  {
    ClassifyStartStopIncrement(line);
  }

  lemma ClassifyFlyingScan(line: string)
    requires StartsWith(line, "Flying Scan")
    ensures Classify(line) == FlyingScanLine
  {
    assert line[0] == 'F';
    DiffersAt(line, "Date: ", 0);
  }

  /**
   * `Flying Scan` marks the scan as flying and single-motor and arms the motor
   * name; the motor lists and every other key keep their values.
   */
  lemma FlyingScanArmsMotorName(env: Env, info: HeaderInfo, i: int, line: string)
    requires StartsWith(line, "Flying Scan")
    ensures KeywordStep(env, info, i, line)
         == Ok(Next(info.(flying := true, scanType := Some(SingleMotor)), NoFlags.(motorName := true)))
  {
    ClassifyFlyingScan(line);
  }

  lemma ClassifyStartStopIncrement(line: string)
    requires StartsWith(line, "Start, Stop, Increment")
    ensures Classify(line) == StartStopIncrementLine
  {
    assert line[0] == 'S';
    DiffersAt(line, "Date: ", 0);
    DiffersAt(line, "Flying Scan", 0);
  }

  lemma ClassifyStart(line: string)
    requires StartsWith(line, "Start") && !StartsWith(line, "Start, Stop, Increment")
    ensures Classify(line) == StartLine
  {
    assert line[0] == 'S';
    DiffersAt(line, "Date: ", 0);
    DiffersAt(line, "Flying Scan", 0);
    DiffersAt(line, "From File", 0);
  }

  lemma ClassifyMisspelledDescription(line: string)
    requires StartsWith(line, "Decription ")
    ensures Classify(line) == DescriptionLine
  {
    assert line[0] == 'D' && line[1] == 'e' && line[2] == 'c';
    DiffersAt(line, "Date: ", 1);
    DiffersAt(line, "Flying Scan", 0);
    DiffersAt(line, "Start, Stop, Increment", 0);
    DiffersAt(line, "From File", 0);
    DiffersAt(line, "Start", 0);
    DiffersAt(line, "Stop", 0);
    DiffersAt(line, "Increment", 0);
    DiffersAt(line, "X Center", 0);
    DiffersAt(line, "Delay ", 2);
    DiffersAt(line, "Count ", 0);
    DiffersAt(line, "Scan Number", 0);
    DiffersAt(line, "Bi-directional", 0);
    DiffersAt(line, "Stay ", 0);
  }

  /**
   * A `Start: <x>` line replaces `motor_first` by the one-element list
   * `[float(x)]`; every other key and every flag stays as it was.
   */
  lemma StartLineSetsFirst(env: Env, info: HeaderInfo, i: int, line: string, x: string, v: real)
    requires StartsWith(line, "Start") && !StartsWith(line, "Start, Stop, Increment")
    requires AfterFirst(Strip(line), "Start: ") == Some(x) && env.parseFloat(x) == Some(v)
    ensures KeywordStep(env, info, i, line) == Ok(Next(info.(motorFirst := [v]), NoFlags))
  {
    ClassifyStart(line);
    assert FloatAfter(env, i, line, "Start: ") == Ok(v);
  }

  lemma ClassifyFromFile(line: string)
    requires StartsWith(line, "From File")
    ensures Classify(line) == FromFileLine
  {
    assert line[0] == 'F' && line[1] == 'r';
    DiffersAt(line, "Date: ", 0);
    DiffersAt(line, "Flying Scan", 1);
    DiffersAt(line, "Start, Stop, Increment", 0);
  }

  /**
   * `From File` sets the scan type whatever it was before, so a scan type
   * set by an earlier `Start, Stop, Increment` line is overwritten.
   */
  lemma FromFileOverwritesScanType(env: Env, info: HeaderInfo, i: int, line: string)
    requires StartsWith(line, "From File")
    ensures KeywordStep(env, info, i, line)
         == Ok(Next(info.(scanType := Some(Trajectory)), NoFlags.(pauseMotorName := true)))
  {
    ClassifyFromFile(line);
  }

  /** A `Scan Number:` value `int()` refuses, such as `Avg`, stops the walk; it is not kept as text. */
  lemma ScanNumberMustBeInteger(env: Env, info: HeaderInfo, i: int, line: string, text: string)
    requires Classify(line) == ScanNumberLine
    requires AfterFirst(Strip(line), "Scan Number: ") == Some(text) && ParseInt(text).None?
    ensures KeywordStep(env, info, i, line) == Err(NotAnInteger(i, text))
  {
    assert IntAfter(i, line, "Scan Number: ") == Err(NotAnInteger(i, text));
  }

  /** `Bi-directional:` is true exactly for the text `Yes`. */
  lemma BidirectIffYes(env: Env, info: HeaderInfo, i: int, line: string, text: string)
    requires Classify(line) == BidirectLine
    requires AfterFirst(Strip(line), "Bi-directional: ") == Some(text)
    ensures KeywordStep(env, info, i, line).Ok?
    ensures KeywordStep(env, info, i, line).value.info.bidirect == Some(text == "Yes")
  {
  }

  /** `Stay at End:` is true exactly for a non-empty value, as `bool(value_str)`. */
  lemma StayAtEndIffNonEmpty(env: Env, info: HeaderInfo, i: int, line: string, text: string)
    requires Classify(line) == StayLine
    requires AfterFirst(Strip(line), "Stay at End: ") == Some(text)
    ensures KeywordStep(env, info, i, line).Ok?
    ensures KeywordStep(env, info, i, line).value.info.stayAtEnd == Some(|text| > 0)
  {
  }

  /**
   * Only the misspelled `Decription ` line arms the memo, and the value
   * is then looked for after the correctly spelled `Description Length: `: a
   * line that lacks it stops the walk with IndexError.
   */
  lemma MisspelledDescriptionNeedsCorrectSeparator(env: Env, info: HeaderInfo, i: int, line: string)
    requires StartsWith(line, "Decription ") && !Contains(Strip(line), "Description Length: ")
    ensures Classify(line) == DescriptionLine
    ensures KeywordStep(env, info, i, line) == Err(MissingValue(i, "Description Length: "))
  {
    ClassifyMisspelledDescription(line);
    DescriptionKeyword(env, info, i, line);
  }

  /** The `Decription ` branch: the value after `Description Length: ` arms the memo when it is not empty. */
  lemma DescriptionKeyword(env: Env, info: HeaderInfo, i: int, line: string)
    requires Classify(line) == DescriptionLine
    ensures KeywordStep(env, info, i, line)
         == match AfterFirst(Strip(line), "Description Length: ")
            case None => Err(MissingValue(i, "Description Length: "))
            case Some(text) => Ok(Next(info, NoFlags.(memo := text != [])))
  {
  }

  /** With no flag armed, a line goes to the keyword chain. */
  lemma StepWithoutFlags(env: Env, info: HeaderInfo, i: int, line: string)
    ensures Step(env, info, NoFlags, i, line) == KeywordStep(env, info, i, line)
  {
  }

  /** A correctly spelled `Description Length:` line changes nothing at all. */
  lemma DescriptionLengthIgnored(env: Env, info: HeaderInfo, i: int, line: string)
    requires StartsWith(line, "Description Length: ")
    ensures KeywordStep(env, info, i, line) == Ok(Next(info, NoFlags))
  {
    DescriptionLengthPrefix(line);
    DescriptionLineIgnored(line);
  }

  lemma DescriptionLengthPrefix(line: string)
    requires StartsWith(line, "Description Length: ")
    ensures StartsWith(line, "Description ")
  {
    assert line[..12] == line[..20][..12];
  }

  /**
   * The header boundary sits one line before a line that starts with a digit:
   * when the walk changes `motor_header_linenum`, to `b`, line `b + 1` exists,
   * lies in the part walked, and starts with a digit.
   */
  lemma {:induction false} WalkBoundaryIsDigitLine(step: StepFn, lines: seq<string>, i: nat, info: HeaderInfo, flags: Flags)
    requires KeepsBoundary(step)
    requires i <= |lines|
    requires Walk(step, lines, i, info, flags).Ok?
    requires Walk(step, lines, i, info, flags).value.motorHeaderLinenum != info.motorHeaderLinenum
    ensures var b := Walk(step, lines, i, info, flags).value.motorHeaderLinenum;
            b.Some? && i <= b.value + 1 < |lines| && FirstIsDigit(lines[b.value + 1])
    decreases |lines| - i
  {
    var r := step(info, flags, i, lines[i]);
    assert BoundaryStep(info, i, lines[i], r);
    if r.value.Next? {
      WalkBoundaryIsDigitLine(step, lines, i + 1, r.value.info, r.value.flags);
    }
  }

  /** Without a line that starts with a digit `get_data_file_header` never sets `motor_header_linenum`. */
  lemma NoDigitLineNoBoundary(env: Env, lines: seq<string>)
    requires forall k :: 0 <= k < |lines| ==> !FirstIsDigit(lines[k])
    requires ParseHeader(env, lines).Ok?
    ensures ParseHeader(env, lines).value.motorHeaderLinenum.None?
  {
    if ParseHeader(env, lines).value.motorHeaderLinenum != InitialHeader.motorHeaderLinenum {
      StepKeepsBoundary(env);
      WalkBoundaryIsDigitLine(StepOf(env), lines, 0, InitialHeader, NoFlags);
    }
  }

  /** Once the walk has found the boundary, the lines after it are never read. */
  lemma {:induction false} WalkStopsAtBoundary(step: StepFn, lines: seq<string>, more: seq<string>, i: nat, info: HeaderInfo, flags: Flags)
    requires KeepsBoundary(step)
    requires i <= |lines|
    requires Walk(step, lines, i, info, flags).Ok?
    requires Walk(step, lines, i, info, flags).value.motorHeaderLinenum != info.motorHeaderLinenum
    ensures Walk(step, lines + more, i, info, flags) == Walk(step, lines, i, info, flags)
    decreases |lines| - i
  {
    assert (lines + more)[i] == lines[i];
    var r := step(info, flags, i, lines[i]);
    assert BoundaryStep(info, i, lines[i], r);
    if r.value.Next? {
      WalkStopsAtBoundary(step, lines, more, i + 1, r.value.info, r.value.flags);
    }
  }

  /** Once `get_data_file_header` has found the boundary, lines appended to the data file change nothing. */
  lemma HeaderIgnoresLinesAfterBoundary(env: Env, lines: seq<string>, more: seq<string>)
    requires ParseHeader(env, lines).Ok? && ParseHeader(env, lines).value.motorHeaderLinenum.Some?
    ensures ParseHeader(env, lines + more) == ParseHeader(env, lines)
  {
    StepKeepsBoundary(env);
    WalkStopsAtBoundary(StepOf(env), lines, more, 0, InitialHeader, NoFlags);
  }

  // ---------------------------------------------------------------------------
  // get_filename and get_filename_base
  // ---------------------------------------------------------------------------

  /** `get_filename`: the path's basename, which holds no `/`. */
  function GetFilename(filePath: string): (name: string)
    ensures '/' !in name
  {
    Basename(filePath)
  }

  /** The file name is the path's last component: all of it, or what follows its last `/`. */
  lemma FilenameIsLastComponent(filePath: string)
    ensures var name := GetFilename(filePath);
            |name| <= |filePath| && name == filePath[|filePath| - |name|..]
            && (|name| < |filePath| ==> filePath[|filePath| - |name| - 1] == '/')
  {
    BasenameIsLastComponent(filePath);
  }

  /**
   * `get_filename_base`: the file name up to its last `.`, or the whole name
   * when it has none.
   */
  function GetFilenameBase(filePath: string): (base: string)
    ensures !Contains(GetFilename(filePath), ".") ==> base == GetFilename(filePath)
    ensures StartsWith(GetFilename(filePath), base)
  {
    var parts := RSplit1(GetFilename(filePath), ".");
    assert |parts| == 2 ==> GetFilename(filePath)[..|parts[0]|] == parts[0];
    parts[0]
  }

  /** A file `<stem>.<ext>` in any directory has base `stem` when `ext` has no `.`, even if `stem` has. */
  lemma FilenameBaseOfJoin(dir: string, stem: string, ext: string)
    requires dir == [] || dir[|dir| - 1] == '/'
    requires '/' !in stem && '/' !in ext && '.' !in ext
    ensures GetFilenameBase(dir + stem + "." + ext) == stem
  {
    var name := stem + "." + ext;
    assert forall j :: 0 <= j < |name| ==> name[j] != '/';
    assert dir + stem + "." + ext == dir + name;
    BasenameOfJoin(dir, name);
    RSplitAtLast(stem, ".", ext);
  }

  /**
   * Unlike `os.path.splitext`, which `get_data_file_numbers` uses, the base of
   * a leading-dot name such as `.profile` is empty.
   */
  lemma LeadingDotName()
    ensures GetFilenameBase("/data/.profile") == ""
    ensures SplitExtRoot(".profile") == ".profile"
  {
    FilenameBaseOfJoin("/data/", "", "profile");
    assert "/data/" + "" + "." + "profile" == "/data/.profile";
    var d := LastDotBefore(".profile", 8);
    assert d == 0;
  }
}
