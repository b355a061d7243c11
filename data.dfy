/**
 * The data-file inspection of `als/bcs/data.py`: decoding the (scan, file,
 * repeat) numbers from a data file's name, and locating the data table's
 * header row inside the data file.
 */
module Data {
  import opened Wrappers
  import opened PyStr
  import opened PyPath

  /** The numbers a data-file name carries; each is None when the name does not carry it. */
  datatype FileNumbers = FileNumbers(scan: Option<int>, file: Option<int>, repeat: Option<int>)

  /** `int()` refused a piece of the file name (Python's ValueError). */
  datatype CodecError = NotAnInteger(text: string)

  /** The name with its directory and extension removed (`splitext(basename(path))[0]`). */
  function FileStem(path: string): string {
    SplitExtRoot(Basename(path))
  }

  /** `int(text)`, with the failure as an error value. */
  function IntegerField(text: string): (r: Result<int, CodecError>)
    ensures r.Ok? <==> ParseInt(text).Some?
    ensures r.Ok? ==> Some(r.value) == ParseInt(text)
  {
    match ParseInt(text)
    case Some(n) => Ok(n)
    case None => Err(NotAnInteger(text))
  }

  /** The integer after the separator of an `rsplit(sep, 1)`, when the separator was found. */
  function OptionalField(parts: seq<string>): (r: Result<Option<int>, CodecError>)
    requires 1 <= |parts| <= 2
    ensures |parts| == 1 ==> r == Ok(None)
    ensures |parts| == 2 ==> (r.Ok? <==> ParseInt(parts[1]).Some?)
    ensures |parts| == 2 && r.Ok? ==> r.value == ParseInt(parts[1])
  {
    if |parts| > 1 then
      match ParseInt(parts[1])
      case Some(n) => Ok(Some(n))
      case None => Err(NotAnInteger(parts[1]))
    else Ok(None)
  }

  /**
   * `get_data_file_numbers`: peel `_<file>`, then `-<repeat>`, then `Scan<scan>`
   * from the right of the extension-less name.
   */
  function GetDataFileNumbers(path: string): Result<FileNumbers, CodecError> {
    DecodeStem(FileStem(path))
  }

  /** The file number is the integer after the rightmost `_`, if there is one. */
  function DecodeStem(stem: string): Result<FileNumbers, CodecError> {
    var byUnderscore := RSplit1(stem, "_");
    var file :- OptionalField(byUnderscore);
    DecodeRepeat(byUnderscore[0], file)
  }

  /** The repeat number is the integer after the rightmost `-` of what is left. */
  function DecodeRepeat(rest: string, file: Option<int>): Result<FileNumbers, CodecError> {
    var byDash := RSplit1(rest, "-");
    var repeat :- OptionalField(byDash);
    DecodeScan(byDash[0], file, repeat)
  }

  /** The scan number comes from the text after the rightmost `Scan` of what is left. */
  function DecodeScan(rest: string, file: Option<int>, repeat: Option<int>): (r: Result<FileNumbers, CodecError>)
    ensures r.Ok? ==> r.value.repeat == repeat
    ensures r.Ok? ==> (r.value.scan.Some? <==> Contains(rest, "Scan"))
    ensures !Contains(rest, "Scan") ==> r == Ok(FileNumbers(None, file, repeat))
  {
    var byScan := RSplit1(rest, "Scan");
    if |byScan| == 1 then Ok(FileNumbers(None, file, repeat))
    else DecodeScanText(byScan[1], file, repeat)
  }

  /**
   * The text after `Scan` is the scan number; when it is not an integer (the
   * space-separated naming convention) it is split at its last space: the left
   * part is the scan number and the right part, when present, replaces the
   * file number.
   */
  function DecodeScanText(text: string, file: Option<int>, repeat: Option<int>): (r: Result<FileNumbers, CodecError>)
    ensures r.Ok? ==> r.value.repeat == repeat && r.value.scan.Some?
    ensures ParseInt(text).Some? ==> r == Ok(FileNumbers(ParseInt(text), file, repeat))
    ensures r.Ok? && r.value.file != file ==> ParseInt(text).None? && Contains(text, " ")
    ensures ParseInt(text).None? ==>
              var parts := RSplit1(text, " ");
              && (r.Ok? <==> ParseInt(parts[0]).Some? && (|parts| == 2 ==> ParseInt(parts[1]).Some?))
              && (r.Ok? ==> r.value == FileNumbers(ParseInt(parts[0]), if |parts| == 2 then ParseInt(parts[1]) else file, repeat))
  {
    match ParseInt(text)
    case Some(scan) => Ok(FileNumbers(Some(scan), file, repeat))
    case None =>
      var bySpace := RSplit1(text, " ");
      var scan :- IntegerField(bySpace[0]);
      if |bySpace| > 1 then
        var newFile :- IntegerField(bySpace[1]);
        Ok(FileNumbers(Some(scan), Some(newFile), repeat))
      else Ok(FileNumbers(Some(scan), file, repeat))
  }

  // ---------------------------------------------------------------------------
  // Properties of the decoder
  // ---------------------------------------------------------------------------

  /** A string of digits holds no character other than digits. */
  lemma NumeralHasNo(n: string, c: char)
    requires IsNumeral(n) && !IsDigit(c)
    ensures c !in n
  {
  }

  /** The stem of `dir + stem + "." + ext` is `stem` when neither part holds a `/` and `ext` no `.`. */
  lemma FileStemOfJoin(dir: string, stem: string, ext: string)
    requires dir == [] || dir[|dir| - 1] == '/'
    requires '/' !in stem && '/' !in ext && '.' !in ext
    requires exists i :: 0 <= i < |stem| && stem[i] != '.'
    ensures FileStem(dir + stem + "." + ext) == stem
  {
    var name := stem + "." + ext;
    SplitExtOfJoin(stem, ext);
    assert forall j :: 0 <= j < |name| ==> name[j] != '/' by {
      forall j | 0 <= j < |name| ensures name[j] != '/' {
        if j < |stem| { assert name[j] == stem[j]; }
        else if j > |stem| { assert name[j] == ext[j - |stem| - 1]; }
      }
    }
    BasenameOfJoin(dir, name);
    assert dir + stem + "." + ext == dir + name;
  }

  /** Peeling `_<F>` from a stem ending in digits `F` (leading zeros allowed) yields the file number `F`. */
  lemma PeelFileNumber(rest: string, f: string)
    requires IsNumeral(f)
    ensures DecodeStem(rest + "_" + f) == DecodeRepeat(rest, Some(DigitsValue(f)))
  {
    NumeralHasNo(f, '_');
    RSplitAtLast(rest, "_", f);
    ParseIntOfNumeral(f);
  }

  /** Peeling `-<R>` from a remainder ending in digits `R` yields the repeat number `R`. */
  lemma PeelRepeatNumber(rest: string, r: string, file: Option<int>)
    requires IsNumeral(r)
    ensures DecodeRepeat(rest + "-" + r, file) == DecodeScan(rest, file, Some(DigitsValue(r)))
  {
    NumeralHasNo(r, '-');
    RSplitAtLast(rest, "-", r);
    ParseIntOfNumeral(r);
  }

  /** Splitting `<prefix>Scan<text>` at its last `Scan` leaves `text` when `text` has no `n`. */
  lemma PeelScanToken(prefix: string, text: string, file: Option<int>, repeat: Option<int>)
    requires 'n' !in text
    ensures DecodeScan(prefix + "Scan" + text, file, repeat) == DecodeScanText(text, file, repeat)
  {
    RSplitAtLast(prefix, "Scan", text);
  }

  /**
   * The naming convention `<prefix>Scan<S>-<R>_<F>.<ext>`, with `S`, `R` and
   * `F` strings of digits (zero-padded or not), decodes to `(S, F, R)`,
   * whatever directory the file is in.
   */
  lemma DecodeStandardName(dir: string, prefix: string, s: string, r: string, f: string, ext: string)
    requires dir == [] || dir[|dir| - 1] == '/'
    requires '/' !in prefix && '/' !in ext && '.' !in ext
    requires IsNumeral(s) && IsNumeral(r) && IsNumeral(f)
    ensures GetDataFileNumbers(dir + (prefix + "Scan" + s + "-" + r + "_" + f) + "." + ext)
            == Ok(FileNumbers(Some(DigitsValue(s)), Some(DigitsValue(f)), Some(DigitsValue(r))))
  {
    var scanPart := prefix + "Scan" + s;
    var repeatPart := scanPart + "-" + r;
    var stem := repeatPart + "_" + f;
    assert stem[|prefix|] == 'S';
    assert '/' !in stem by {
      NumeralHasNo(s, '/'); NumeralHasNo(r, '/'); NumeralHasNo(f, '/');
      assert stem == prefix + "Scan" + s + "-" + r + "_" + f;
    }
    FileStemOfJoin(dir, stem, ext);
    PeelFileNumber(repeatPart, f);
    PeelRepeatNumber(scanPart, r, Some(DigitsValue(f)));
    NumeralHasNo(s, 'n');
    PeelScanToken(prefix, s, Some(DigitsValue(f)), Some(DigitsValue(r)));
    ParseIntOfNumeral(s);
  }

  /** Digits, a space and digits are not an integer: the space is neither a digit nor `_`. */
  lemma SpacedNotInteger(s: string, f: string)
    requires IsNumeral(s) && IsNumeral(f)
    ensures ParseInt(s + " " + f).None?
  {
    var text := s + " " + f;
    assert text[0] == s[0] && text[|text| - 1] == f[|f| - 1];
    StripUntrimmed(text);
    assert text[|s|] == ' ';
  }

  /** Digits, a space and digits split at the space into the two numbers. */
  lemma SpacedScanText(s: string, f: string, file: Option<int>, repeat: Option<int>)
    requires IsNumeral(s) && IsNumeral(f)
    ensures DecodeScanText(s + " " + f, file, repeat)
            == Ok(FileNumbers(Some(DigitsValue(s)), Some(DigitsValue(f)), repeat))
  {
    SpacedNotInteger(s, f);
    NumeralHasNo(f, ' ');
    RSplitAtLast(s, " ", f);
    ParseIntOfNumeral(s);
    ParseIntOfNumeral(f);
  }

  /**
   * The space-separated convention `<prefix>Scan<S> <F>.<ext>`, with no `_`
   * or `-` in the prefix and `S`, `F` strings of digits, decodes to `(S, F, None)`.
   */
  lemma DecodeSpacedName(dir: string, prefix: string, s: string, f: string, ext: string)
    requires dir == [] || dir[|dir| - 1] == '/'
    requires '/' !in prefix && '_' !in prefix && '-' !in prefix
    requires '/' !in ext && '.' !in ext
    requires IsNumeral(s) && IsNumeral(f)
    ensures GetDataFileNumbers(dir + (prefix + "Scan" + (s + " " + f)) + "." + ext)
            == Ok(FileNumbers(Some(DigitsValue(s)), Some(DigitsValue(f)), None))
  {
    var text := s + " " + f;
    var stem := prefix + "Scan" + text;
    assert stem[|prefix|] == 'S';
    NumeralHasNo(s, '/'); NumeralHasNo(f, '/');
    NumeralHasNo(s, '_'); NumeralHasNo(f, '_');
    NumeralHasNo(s, '-'); NumeralHasNo(f, '-');
    NumeralHasNo(s, 'n'); NumeralHasNo(f, 'n');
    assert '/' !in stem && '_' !in stem && '-' !in stem;
    FileStemOfJoin(dir, stem, ext);
    ContainsChar(stem, '_');
    ContainsChar(stem, '-');
    assert DecodeStem(stem) == DecodeRepeat(stem, None);
    assert DecodeRepeat(stem, None) == DecodeScan(stem, None, None);
    assert 'n' !in text;
    PeelScanToken(prefix, text, None, None);
    SpacedScanText(s, f, None, None);
  }

  /** The extension never reaches the splitting: two names that differ only in it decode alike. */
  lemma ExtensionIgnored(dir: string, stem: string, ext1: string, ext2: string)
    requires dir == [] || dir[|dir| - 1] == '/'
    requires '/' !in stem && '.' !in stem && |stem| > 0
    requires '/' !in ext1 && '.' !in ext1 && '/' !in ext2 && '.' !in ext2
    ensures GetDataFileNumbers(dir + stem + "." + ext1) == GetDataFileNumbers(dir + stem + "." + ext2)
    ensures GetDataFileNumbers(dir + stem + "." + ext1) == GetDataFileNumbers(dir + stem)
  {
    assert stem[0] != '.';
    FileStemOfJoin(dir, stem, ext1);
    FileStemOfJoin(dir, stem, ext2);
    SplitExtNoDot(stem);
    BasenameOfJoin(dir, stem);
  }

  /** Without `_` and without a space in the stem, no file number is decoded. */
  lemma NoUnderscoreNoFileNumber(stem: string)
    requires '_' !in stem && ' ' !in stem
    requires DecodeStem(stem).Ok?
    ensures DecodeStem(stem).value.file.None?
  {
    ContainsChar(stem, '_');
    var byDash := RSplit1(stem, "-");
    assert ' ' !in byDash[0] by {
      if |byDash| == 2 { assert stem == byDash[0] + "-" + byDash[1]; }
    }
    var byScan := RSplit1(byDash[0], "Scan");
    if |byScan| == 2 {
      assert byDash[0] == byScan[0] + "Scan" + byScan[1];
      assert ' ' !in byScan[1];
      ContainsChar(byScan[1], ' ');
    }
  }

  /** With a `_` and no space in the stem, the file number is the integer after the rightmost `_`. */
  lemma FileNumberFromUnderscore(stem: string)
    requires '_' in stem && ' ' !in stem
    requires DecodeStem(stem).Ok?
    ensures var parts := RSplit1(stem, "_"); |parts| == 2 && DecodeStem(stem).value.file == ParseInt(parts[1])
  {
    ContainsChar(stem, '_');
    var byUnderscore := RSplit1(stem, "_");
    assert ' ' !in byUnderscore[0] by {
      assert stem == byUnderscore[0] + "_" + byUnderscore[1];
    }
    var byDash := RSplit1(byUnderscore[0], "-");
    assert ' ' !in byDash[0] by {
      if |byDash| == 2 { assert byUnderscore[0] == byDash[0] + "-" + byDash[1]; }
    }
    var byScan := RSplit1(byDash[0], "Scan");
    if |byScan| == 2 {
      assert byDash[0] == byScan[0] + "Scan" + byScan[1];
      assert ' ' !in byScan[1];
      ContainsChar(byScan[1], ' ');
    }
  }

  /** The repeat number is decoded exactly when a `-` is left once the file number is peeled off. */
  lemma RepeatNumberFromDash(stem: string)
    requires DecodeStem(stem).Ok?
    ensures DecodeStem(stem).value.repeat.Some? <==> '-' in RSplit1(stem, "_")[0]
    ensures var byDash := RSplit1(RSplit1(stem, "_")[0], "-");
            |byDash| == 2 ==> DecodeStem(stem).value.repeat == ParseInt(byDash[1])
  {
    var byUnderscore := RSplit1(stem, "_");
    var file := OptionalField(byUnderscore).value;
    assert DecodeStem(stem) == DecodeRepeat(byUnderscore[0], file);
    var byDash := RSplit1(byUnderscore[0], "-");
    var repeat := OptionalField(byDash).value;
    assert DecodeRepeat(byUnderscore[0], file) == DecodeScan(byDash[0], file, repeat);
    ContainsChar(byUnderscore[0], '-');
  }

  // ---------------------------------------------------------------------------
  // The header-row search of read_data_file
  // ---------------------------------------------------------------------------

  /** A line at which the header-row search stops. */
  predicate StopsHeaderSearch(line: string, isTimeScan: bool) {
    StartsWith(line, "Time") || (FirstIsDigit(line) && !isTimeScan)
  }

  /** The first index at or after `from` where the search stops, or `|lines|`. */
  function FirstHeaderStop(lines: seq<string>, isTimeScan: bool, from: nat): (k: nat)
    requires from <= |lines|
    decreases |lines| - from
    ensures from <= k <= |lines|
    ensures k < |lines| ==> StopsHeaderSearch(lines[k], isTimeScan)
    ensures forall j :: from <= j < k ==> !StopsHeaderSearch(lines[j], isTimeScan)
  {
    if from == |lines| then from
    else if StopsHeaderSearch(lines[from], isTimeScan) then from
    else FirstHeaderStop(lines, isTimeScan, from + 1)
  }

  /**
   * The loop of `read_data_file` that picks the `header=` row for the table
   * reader. It stops at the first line starting with `Time` (that index is the
   * header row) or, unless the file name starts with `Time`, at the first
   * digit-leading line (the header row is the line before it); when it never
   * stops, the last index is kept. An empty file leaves the row unbound, which
   * the source reports by raising; the model returns None.
   */
  method HeaderRow(dataFilePath: string, lines: seq<string>) returns (row: Option<int>)
    ensures row.None? <==> |lines| == 0
    ensures row.Some? ==>
      var isTimeScan := StartsWith(Basename(dataFilePath), "Time");
      var k := FirstHeaderStop(lines, isTimeScan, 0);
      row.value == if k == |lines| then |lines| - 1
                   else if StartsWith(lines[k], "Time") then k
                   else k - 1
  {
    var isTimeScan := false;
    var fileName := Basename(dataFilePath);
    if StartsWith(fileName, "Time") {
      isTimeScan := true;
    }
    row := None;
    var i := 0;
    while i < |lines|
      invariant 0 <= i <= |lines|
      invariant isTimeScan == StartsWith(fileName, "Time")
      invariant forall j :: 0 <= j < i ==> !StopsHeaderSearch(lines[j], isTimeScan)
      invariant row == if i == 0 then None else Some(i - 1)
    {
      row := Some(i);
      if StartsWith(lines[i], "Time") {
        break;
      }
      if FirstIsDigit(lines[i]) && !isTimeScan {
        row := Some(i - 1);
        break;
      }
      i := i + 1;
    }
  }

  /** For a file name not starting with `Time`, with no `Time` line first, the header row is one before the first digit-leading line. */
  lemma HeaderRowBeforeFirstDigitLine(lines: seq<string>, k: nat)
    requires k < |lines| && FirstIsDigit(lines[k])
    requires forall j :: 0 <= j < k ==> !FirstIsDigit(lines[j]) && !StartsWith(lines[j], "Time")
    ensures FirstHeaderStop(lines, false, 0) == k && !StartsWith(lines[k], "Time")
  {
    assert !StartsWith(lines[k], "Time") by {
      if |lines[k]| >= 4 { assert lines[k][..4][0] == lines[k][0]; }
    }
  }
}
