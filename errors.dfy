/**
 * The messages of the exceptions in `als/bcs/errors.py`, and the switch that
 * either raises a warning or only reports it.
 */
module Errors {
  import opened PyStr

  /** `''.join(messages)`. */
  function Join(messages: seq<string>): (r: string)
    ensures messages == [] ==> r == []
  {
    if messages == [] then [] else Join(messages[..|messages| - 1]) + messages[|messages| - 1]
  }

  /** Appending a piece to the list appends it to the joined text. */
  lemma JoinSnoc(messages: seq<string>, m: string)
    ensures Join(messages + [m]) == Join(messages) + m
  {
    assert (messages + [m])[..|messages|] == messages;
  }

  // ---------------------------------------------------------------------------
  // ScanFileNotFoundError and ScanFileHeaderNotFoundError
  // ---------------------------------------------------------------------------

  const NotFoundPrefix: string := "Could not find the input scan file '"
  const NotFoundMiddle: string := "' for data file '"
  const NotFoundSuffix: string := "'; verify that it has not been moved or deleted."
  const HeaderNotFoundPrefix: string := "Could not find the header information within input scan file: '"
  const HeaderNotFoundSuffix: string := "'."

  /** The message of `ScanFileNotFoundError`: it quotes the scan-file path and then the data-file path. */
  function NotFoundMessage(scanFilePath: string, dataFilePath: string): (message: string)
    ensures OccursAt(message, scanFilePath, |NotFoundPrefix|)
    ensures OccursAt(message, dataFilePath, |NotFoundPrefix| + |scanFilePath| + |NotFoundMiddle|)
    ensures StartsWith(message, NotFoundPrefix)
    ensures |message| == |NotFoundPrefix| + |scanFilePath| + |NotFoundMiddle| + |dataFilePath| + |NotFoundSuffix|
  {
    var message := NotFoundPrefix + scanFilePath + NotFoundMiddle + dataFilePath + NotFoundSuffix;
    assert message[|NotFoundPrefix|..|NotFoundPrefix| + |scanFilePath|] == scanFilePath;
    var at := |NotFoundPrefix| + |scanFilePath| + |NotFoundMiddle|;
    assert message[at..at + |dataFilePath|] == dataFilePath;
    assert message[..|NotFoundPrefix|] == NotFoundPrefix;
    message
  }

  /** For a given scan-file path, the not-found message tells the data-file paths apart. */
  lemma NotFoundMessageDeterminesDataFile(scanFilePath: string, d1: string, d2: string)
    requires NotFoundMessage(scanFilePath, d1) == NotFoundMessage(scanFilePath, d2)
    ensures d1 == d2
  {
    var at := |NotFoundPrefix| + |scanFilePath| + |NotFoundMiddle|;
    var m := NotFoundMessage(scanFilePath, d1);
    assert |d1| == |d2|;
    assert d1 == m[at..at + |d1|];
  }

  /** The message of `ScanFileHeaderNotFoundError`: it quotes the scan-file path and ends in `.`. */
  function HeaderNotFoundMessage(scanFilePath: string): (message: string)
    ensures OccursAt(message, scanFilePath, |HeaderNotFoundPrefix|)
    ensures StartsWith(message, HeaderNotFoundPrefix)
    ensures |message| == |HeaderNotFoundPrefix| + |scanFilePath| + 2 && message[|message| - 1] == '.'
  {
    var message := HeaderNotFoundPrefix + scanFilePath + HeaderNotFoundSuffix;
    assert message[|HeaderNotFoundPrefix|..|HeaderNotFoundPrefix| + |scanFilePath|] == scanFilePath;
    assert message[..|HeaderNotFoundPrefix|] == HeaderNotFoundPrefix;
    message
  }

  /** Different scan-file paths give different header-not-found messages. */
  lemma HeaderNotFoundMessageInjective(p1: string, p2: string)
    requires HeaderNotFoundMessage(p1) == HeaderNotFoundMessage(p2)
    ensures p1 == p2
  {
    var m := HeaderNotFoundMessage(p1);
    assert |p1| == |p2|;
    assert p1 == m[|HeaderNotFoundPrefix|..|HeaderNotFoundPrefix| + |p1|];
  }

  // ---------------------------------------------------------------------------
  // ScanFileRowException
  // ---------------------------------------------------------------------------

  const RowPrefix: string := "Invalid value or format found in input scan file: "
  const RowHint: string := " Check for missing values, spaces instead of tabs, or extra header rows."

  /** The opening of every row message: the fixed text, then the quoted scan-file path. */
  function RowHead(scanFilePath: string): (head: string)
    ensures StartsWith(head, RowPrefix) && OccursAt(head, scanFilePath, |RowPrefix| + 1)
    ensures |head| == |RowPrefix| + |scanFilePath| + 2
  {
    var head := RowPrefix + ("'" + scanFilePath + "'");
    assert head[..|RowPrefix|] == RowPrefix;
    assert head[|RowPrefix| + 1..|RowPrefix| + 1 + |scanFilePath|] == scanFilePath;
    head
  }

  const FileLabel := "; file output number: "
  const StepLabel := "; step number "

  /**
   * A numbered clause (the file output number or the step): present exactly
   * when the number is not 0, so a default of -1 shows.
   */
  function NumberClause(caption: string, n: int): (clause: string)
    ensures clause == [] <==> n == 0
    ensures clause != [] ==> clause == caption + IntToString(n)
  {
    if n != 0 then caption + IntToString(n) else ""
  }

  /**
   * The description clause: nothing for an empty description, otherwise a space,
   * the description, and a `.` unless the description already ends in one.
   */
  function DescriptionClause(description: string): (clause: string)
    ensures description == [] ==> clause == []
    ensures description != [] ==> StartsWith(clause, " " + description) && clause[|clause| - 1] == '.'
    ensures description != [] ==> |clause| == |description| + (if description[|description| - 1] == '.' then 1 else 2)
  {
    if description == [] then ""
    else
      var clause := " " + description + (if description[|description| - 1] != '.' then "." else "");
      assert clause[..|description| + 1] == " " + description;
      clause
  }

  /** The text `_error_message` assembles, clause by clause. */
  function RowErrorText(scanFilePath: string, fileNumber: int, stepNumber: int, description: string): (text: string)
    ensures StartsWith(text, RowHead(scanFilePath))
    ensures |text| > 0 && text[|text| - 1] == '.'
  {
    var head := RowHead(scanFilePath);
    var opening := head + NumberClause(FileLabel, fileNumber) + NumberClause(StepLabel, stepNumber) + ".";
    assert StartsWith(opening, head) by {
      assert opening[..|head|] == head;
    }
    var text := opening + DescriptionClause(description);
    StartsWithExtend(opening, head, DescriptionClause(description));
    assert description == [] ==> text == opening;
    text
  }

  /** The first two pieces of a row message join to its opening. */
  lemma JoinRowHead(scanFilePath: string)
    ensures Join([RowPrefix, "'" + scanFilePath + "'"]) == RowHead(scanFilePath)
  {
    JoinSnoc([RowPrefix], "'" + scanFilePath + "'");
    assert [RowPrefix] + ["'" + scanFilePath + "'"] == [RowPrefix, "'" + scanFilePath + "'"];
    JoinSnoc([], RowPrefix);
    assert [] + [RowPrefix] == [RowPrefix];
  }

  /**
   * `ScanFileRowException._error_message`: the pieces are appended to a list
   * one at a time and then joined.
   */
  method ErrorMessage(scanFilePath: string, fileNumber: int, stepNumber: int, description: string)
    returns (message: string)
    ensures message == RowErrorText(scanFilePath, fileNumber, stepNumber, description)
  {
    var messages := [RowPrefix, "'" + scanFilePath + "'"];
    JoinRowHead(scanFilePath);
    if fileNumber != 0 {
      JoinSnoc(messages, FileLabel + IntToString(fileNumber));
      messages := messages + [FileLabel + IntToString(fileNumber)];
    }
    assert Join(messages) == RowHead(scanFilePath) + NumberClause(FileLabel, fileNumber);
    if stepNumber != 0 {
      JoinSnoc(messages, StepLabel + IntToString(stepNumber));
      messages := messages + [StepLabel + IntToString(stepNumber)];
    }
    assert Join(messages) == RowHead(scanFilePath) + NumberClause(FileLabel, fileNumber) + NumberClause(StepLabel, stepNumber);
    JoinSnoc(messages, ".");
    messages := messages + ["."];
    ghost var opening := Join(messages);
    if description != [] {
      JoinSnoc(messages, " " + description);
      messages := messages + [" " + description];
      if description[|description| - 1] != '.' {
        JoinSnoc(messages, ".");
        messages := messages + ["."];
        AppendAssoc(opening, " " + description, ".");
      }
    }
    assert Join(messages) == opening + DescriptionClause(description);
    message := Join(messages);
  }

  /** The message a `ScanFileRowException` carries: the assembled text followed by the fixed hint. */
  function RowExceptionMessage(scanFilePath: string, fileNumber: int, stepNumber: int, description: string)
    : (message: string)
    ensures var text := RowErrorText(scanFilePath, fileNumber, stepNumber, description);
            |message| == |text| + |RowHint| && message[..|text|] == text && message[|text|..] == RowHint
    ensures StartsWith(message, RowHead(scanFilePath))
  {
    var text := RowErrorText(scanFilePath, fileNumber, stepNumber, description);
    var message := text + RowHint;
    assert message[..|text|] == text;
    var head := RowHead(scanFilePath);
    assert message[..|head|] == text[..|head|];
    message
  }

  /** With the defaults (-1, -1, no description), both numeric clauses are present. */
  lemma RowErrorTextDefaults(scanFilePath: string)
    ensures RowErrorText(scanFilePath, -1, -1, "")
         == RowHead(scanFilePath) + "; file output number: -1" + "; step number -1" + "."
  {
    assert IntToString(-1) == "-1" by {
      assert NatToString(1) == "1";
    }
  }

  /** A description that already ends in `.` gets no second one. */
  lemma DescriptionKeepsSingleDot(description: string)
    requires description != [] && description[|description| - 1] == '.'
    ensures DescriptionClause(description) == " " + description
  {
  }

  // ---------------------------------------------------------------------------
  // warn_or_raise
  // ---------------------------------------------------------------------------

  /** What `warn_or_raise` does with its warning: raise it, or only report it. */
  datatype Outcome<W> = Raised(warning: W) | Reported(warning: W)

  /** `warn_or_raise`: the warning is raised exactly when `raiseWarning` holds, and reported otherwise. */
  function WarnOrRaise<W>(warning: W, raiseWarning: bool): (outcome: Outcome<W>)
    ensures outcome.Raised? <==> raiseWarning
    ensures outcome.Reported? <==> !raiseWarning
    ensures outcome.warning == warning
  {
    if raiseWarning then Raised(warning) else Reported(warning)
  }
}
