# BCS beamline file ingest, modelled in Dafny

`als.bcs` reads the text files that the Beamline Control System (BCS) writes
at the Advanced Light Source and turns them into structured metadata. This
project models the line-scanning and string-handling core of that package and
proves properties of it:

- **The data-file header walk** (`get_data_file_header`). The data file is
  walked line by line. A keyword picks the scan type or fills a field of the
  header record. Four capture flags each take the next line: the motor name
  and the pause motor stripped, the memo with trailing whitespace removed, and
  the scan-file path with trailing whitespace removed and `\` made `/`. After a
  `From File` pause motor, the scan-file path line makes the walk import the
  scan file's motor table.
  If that table is a flying scan, its last column of `flying(a,b,c,d)`
  descriptors becomes the four motor lists. The walk ends at the first
  unclaimed line that starts with a digit and records the line before it as
  `motor_header_linenum`.
- **The scan-file indexer** (`scans.py`). It covers:
  - where a data file names its scan file;
  - where a scan file's motor header row is;
  - which lines make up sub-scan (output file) `k`, wrapping modulo the number
    of sub-scans;
  - the table request given to the table reader;
  - the comment-row drop;
  - the flying-motor rename of the last column, and `is_flying_scan`.
- **The data-file name codec** (`get_data_file_numbers`). It peels `_F`,
  `-R` and `Scan<S>` from the right, including the space-separated
  `Scan<S> <F>` variant. The same file's header-row search of
  `read_data_file` is modelled too.
- **The subpath remapper and day range** (`replace_subpath`, `daterange`).
- **The error messages and the strictness switch** (`errors.py`).

How the source becomes Dafny:

- Files are `seq<string>`, one element per line as Python iterates them.
- A table is column names plus rows of text cells.
- Python's `str` operations become functions of module `PyStr`: `startswith`,
  the `strip` family, one-split `rsplit`/`split`, `replace` (including an
  empty pattern), ASCII `lower` and `isdigit`, and `int()`/`str()` of
  integers.
- `os.path.basename` and `os.path.splitext` become functions of module
  `PyPath`.
- Loops in the source are `method`s with loop invariants. Each one is proved
  equal to a recursive specification function, and the properties are lemmas
  about those functions.
- The pandas frame that `import_scan_file` changes in place is class
  `Scans.Frame`.

The modules follow the source files:

| module | file |
|---|---|
| `Data` | `data.dfy` |
| `Find` | `find.dfy` |
| `Errors` | `errors.dfy` |
| `Scans` | `scans.dfy` |
| `Ingest` | `ingest.dfy` |
| `PyStr` | `pystr.dfy` |
| `PyPath` | `pypath.dfy` |
| `Wrappers` (Option/Result) | `wrappers.dfy` |

Some outside pieces become parameters of type `Ingest.Env`:

- the scan files by path;
- `pandas.read_table`, as `Scans.TableReader`;
- `float()`;
- `strptime(..., "%m/%d/%Y")`, as a day number;
- the ordered subpath replacements.

The exceptions the walk lets escape become `Ingest.HeaderError` values:

- `IndexError` of `split(sep, 1)[1]`;
- `ValueError` of `float`, `int` or `strptime`;
- a scan file that cannot be opened;
- a failed table read;
- `AttributeError` of `append` on the imported motor array.

Where the documentation and the code disagree, the model follows the code:

- `Scan Number:` has no string fallback. A value `int()` refuses stops the
  walk with an error (`ScanNumberMustBeInteger`).
- The memo trigger tests the misspelled prefix `Decription `. Its value is
  then looked for after the correctly spelled `Description Length: `, and the
  memo is armed for any non-empty value, not only for a positive length
  (`DescriptionKeyword`, `MisspelledDescriptionNeedsCorrectSeparator`). A
  correctly spelled `Description Length:` line changes nothing
  (`DescriptionLengthIgnored`).
- A later `From File` overwrites the scan type set by an earlier
  `Start, Stop, Increment` (`FromFileOverwritesScanType`).
- For a flying scan, and only for one, `motor_values` has one row fewer than
  `motors` (`ImportMotorsShape`), not one row per motor.
- After a scan-file import, `motors` is the table's column array, which has no
  `append`, so a motor name armed later (by `Flying Scan` or
  `Start, Stop, Increment`) stops the walk with `MotorsNotAList`
  (`MotorNameAfterImportFails`).
- A flying descriptor field that `float()` refuses aborts the whole header.
  It is not reported as a row warning.
- There is no column-shift repair and no empty-sub-scan guard.
- `get_scan_header_line_number` returns -1 both when no line qualifies and
  when line 0 qualifies (`Scans.ScanHeaderLine`).

## Model

| member | source | states |
|---|---|---|
| Data.IntegerField | als/bcs/data.py:47 | a field decodes exactly when `int()` accepts it, to the value `int()` gives |
| Data.GetDataFileNumbers | als/bcs/data.py:31-64 | specification function without an ensures of its own: basename, splitext, then the three right splits; the Data lemmas below state what it decodes |
| Data.FileStem | als/bcs/data.py:42-43 | specification function without an ensures: `splitext(basename(path))[0]`; `FileStemOfJoin` states its value |
| Data.DecodeStem | als/bcs/data.py:45-47 | specification function without an ensures: the file number from the part after the last `_`, then the repeat number from the part before it; `FileNumberFromUnderscore` and `PeelFileNumber` state it |
| Data.DecodeRepeat | als/bcs/data.py:49-51 | specification function without an ensures: the repeat number from the part after the last `-`, then the scan number from the part before it; `RepeatNumberFromDash` and `PeelRepeatNumber` state it |
| Data.OptionalField | als/bcs/data.py:45-51 | a split with one part leaves the number None; with two parts the number is `int()` of the right part, and the decode fails exactly when `int()` refuses it |
| Data.DecodeScan | als/bcs/data.py:53-62 | the scan number is set exactly when the remainder contains `Scan`; the repeat number passes through; with no `Scan` token the result is (None, file, repeat) |
| Data.DecodeScanText | als/bcs/data.py:55-62 | an integer text is the scan number and leaves the file number alone; otherwise the text is split at its last space, the decode succeeds exactly when `int()` accepts the left part and, when present, the right part, and gives scan = left part and file = right part (or the old file number) |
| Data.FileStemOfJoin | als/bcs/data.py:42-43 | basename then splitext of `dir/stem.ext` is `stem` |
| Data.PeelFileNumber | als/bcs/data.py:45-47 | `rest_F`, F any string of digits (leading zeros allowed), decodes as `rest` with file number the value of F |
| Data.PeelRepeatNumber | als/bcs/data.py:49-51 | `rest-R`, R any string of digits, decodes as `rest` with repeat number the value of R |
| Data.PeelScanToken | als/bcs/data.py:53-56 | the text after the last `Scan` decides the scan number |
| Data.DecodeStandardName | als/bcs/data.py:37-56 | `dir/<prefix>Scan<S>-<R>_<F>.<ext>`, with S, R, F strings of digits (zero-padded or not), gives the values of (S, F, R) in that order |
| Data.SpacedNotInteger | als/bcs/data.py:55-57 | the text `S F` of two digit strings is not an integer, so the spaced branch is taken |
| Data.SpacedScanText | als/bcs/data.py:57-62 | the text `S F` of two digit strings gives scan number S and overrides the file number with F |
| Data.DecodeSpacedName | als/bcs/data.py:53-62 | `dir/<prefix>Scan<S> <F>.<ext>`, with S, F strings of digits, gives (S, F, None) |
| Data.ExtensionIgnored | als/bcs/data.py:42-43 | the extension is removed before any split: two extensions, or none, give the same numbers |
| Data.NoUnderscoreNoFileNumber | als/bcs/data.py:40-47 | a stem without `_` (and without the spaced variant) leaves the file number None |
| Data.FileNumberFromUnderscore | als/bcs/data.py:45-47 | with a `_`, the file number is `int()` of the text after the rightmost `_` |
| Data.RepeatNumberFromDash | als/bcs/data.py:49-51 | a repeat number is found exactly when the part before the last `_` contains `-`, and it is `int()` of the text after the last `-` of that part |
| Data.FirstHeaderStop | als/bcs/data.py:94-101 | the first index at which the search stops: every line before it passes, and the line there starts with `Time` or, for a non-`Time` file name, with a digit |
| Data.HeaderRow | als/bcs/data.py:89-101 | the header row is the first `Time` line's index, or one before the first digit line when the file name does not start with `Time`, or the last index when nothing stops the loop; an empty file gives no row |
| Data.HeaderRowBeforeFirstDigitLine | als/bcs/data.py:97-101 | with no `Time` line first, the search stops at the first digit-leading line |
| Find.ReplaceAllConcat | als/bcs/find.py:40-42 | remapping with `m1 + m2` is remapping with `m1` and then with `m2`: each step works on the previous step's output |
| Find.ReplaceAll | als/bcs/find.py:40-42 | specification function without an ensures: `replace` folded over the mapping's items in order; `ReplaceAllConcat`, `ReplaceAllAbsent` and `ReplaceSubpath` state it |
| Find.ReplaceAllAbsent | als/bcs/find.py:38-42 | old subpaths that do not occur leave the path unchanged |
| Find.ReplaceSubpath | als/bcs/find.py:27-52 | the loop's result is the ordered fold of `replace` over the mapping; an empty mapping returns the path unchanged |
| Find.DateRange | als/bcs/find.py:55-62 | `end-start+1` days with the endpoint and `end-start` without it (none when the count is not positive); day k is `start + k`, never past the end |
| PyStr.RSplit1 | als/bcs/data.py:45 | `rsplit(sep, 1)`: one part exactly when `sep` does not occur; otherwise the parts rejoin to the input around the last occurrence |
| PyStr.RSplitAtLast | als/bcs/data.py:45-53 | splitting `a + sep + b` at its last separator gives `[a, b]` when `b` cannot hold one |
| PyStr.AfterFirst | als/bcs/ingest.py:211 | `split(sep, 1)[1]`: absent exactly when `sep` does not occur, otherwise the text after the first occurrence |
| PyStr.Split | als/bcs/ingest.py:177 | `split(',')` gives at least one field, no field holds the separator, and the fields joined by the separator give the input back |
| PyStr.LStripChars | als/bcs/ingest.py:174-175 | `lstrip(chars)` removes the longest prefix made of `chars` |
| PyStr.RStripChars | als/bcs/ingest.py:175 | `rstrip(chars)` removes the longest suffix made of `chars` |
| PyStr.RStrip | als/bcs/scans.py:47-48 | `rstrip()` removes exactly the trailing whitespace |
| PyStr.Strip | als/bcs/ingest.py:131 | `strip()` leaves no whitespace at either end and is no longer than its input |
| PyStr.StripCutsSpace | als/bcs/ingest.py:131 | `strip()` is the slice of the input that starts after all its leading whitespace and is followed only by whitespace; the slice neither starts nor ends with whitespace |
| PyStr.Lower | als/bcs/ingest.py:174 | `lower()` lowers each character in place and keeps the length |
| PyStr.ReplaceAfterClean | als/bcs/find.py:42 | text in front of which no occurrence starts is kept as it is, and replacement continues with what follows |
| PyStr.Replace | als/bcs/find.py:42 | specification function without an ensures: `str.replace` scanning left to right, an empty pattern inserting the replacement around every character; the Replace lemmas state it |
| PyStr.ReplaceFirst | als/bcs/find.py:42 | `replace` rewrites the leftmost occurrence and continues after it, so occurrences are replaced left to right without overlap |
| PyStr.ReplaceAbsent | als/bcs/find.py:42 | `replace` of a pattern that does not occur changes nothing |
| PyStr.ReplaceCharRemoves | als/bcs/ingest.py:144 | after `replace("\\", "/")` no backslash is left |
| PyStr.ParseIntOfString | als/bcs/data.py:47 | `int(str(i)) == i` for every integer |
| PyStr.ParseIntOfNumeral | als/bcs/data.py:47 | `int()` of a string of digits, leading zeros included, is its decimal value |
| PyStr.ParseInt | als/bcs/data.py:47 | `int()` of text, None where Python raises ValueError; its ensures says only that accepted text is not blank, and `ParseIntOfString` and `ParseIntOfNumeral` state its values |
| PyStr.IntToString | als/bcs/errors.py:86-89 | `str(i)` as the f-strings render it; its ensures says only that the text is not empty, and `ParseIntOfString` states that `int()` reads it back |
| PyPath.Basename | als/bcs/ingest.py:67-69 | `os.path.basename` holds no `/` and is no longer than the path |
| PyPath.BasenameIsLastComponent | als/bcs/ingest.py:67-69 | the basename is a suffix of the path that is either the whole path or comes right after a `/` |
| PyPath.BasenameOfJoin | als/bcs/data.py:42 | the basename of `dir/name` is `name` |
| PyPath.SplitExtRoot | als/bcs/data.py:43 | `splitext` cuts at the last dot, only when a non-dot character comes before it |
| PyPath.SplitExtOfJoin | als/bcs/data.py:43 | the root of `stem.ext` is `stem` |
| PyPath.SplitExtNoDot | als/bcs/data.py:43 | a name without a dot is its own root |
| Errors.JoinSnoc | als/bcs/errors.py:95 | `''.join` of a list with one more message is the old join followed by that message |
| Errors.NotFoundMessage | als/bcs/errors.py:32-36 | the not-found message holds the scan-file path and the data-file path at fixed places after its fixed prefix |
| Errors.NotFoundMessageDeterminesDataFile | als/bcs/errors.py:32-36 | for one scan file, the message determines the data file |
| Errors.HeaderNotFoundMessage | als/bcs/errors.py:43-46 | the header-not-found message holds the scan-file path after its prefix and ends in `'.` |
| Errors.HeaderNotFoundMessageInjective | als/bcs/errors.py:43-46 | different scan files give different messages |
| Errors.RowHead | als/bcs/errors.py:82-85 | the row message starts with `Invalid value or format found in input scan file: '` + path + `'` |
| Errors.JoinRowHead | als/bcs/errors.py:82-85 | joining the two opening parts gives that head |
| Errors.NumberClause | als/bcs/errors.py:86-89 | the file-number and step clauses are present iff the number is not 0, so the default -1 is included, and then read caption + `str(n)` |
| Errors.DescriptionClause | als/bcs/errors.py:91-94 | an empty description adds nothing; otherwise ` description` is added, plus a `.` only when it lacks a final one |
| Errors.RowErrorText | als/bcs/errors.py:74-97 | the message starts with the row head and always ends in `.` |
| Errors.ErrorMessage | als/bcs/errors.py:74-97 | the step-by-step append of `_error_message` builds exactly the message specified by the clauses |
| Errors.RowExceptionMessage | als/bcs/errors.py:60-71 | the row exception's message is `_error_message` followed by the fixed hint |
| Errors.RowErrorTextDefaults | als/bcs/errors.py:56-58 | with the defaults (-1, -1, "") both number clauses appear |
| Errors.DescriptionKeepsSingleDot | als/bcs/errors.py:93-94 | a description already ending in `.` gets no second one |
| Errors.WarnOrRaise | als/bcs/errors.py:107-117 | the warning is raised iff `raise_warning`, and only reported otherwise; it is the same warning either way |
| Scans.CleanScanPath | als/bcs/scans.py:48-49 | the stored path has no backslash |
| Scans.ScanFilePathFrom | als/bcs/scans.py:44-60 | the path returned never contains a backslash and is never `All Magnets` |
| Scans.GetScanFilePath | als/bcs/scans.py:28-60 | the loop returns what the scan-file path function specifies |
| Scans.NoScanFileBeforeData | als/bcs/scans.py:56-58 | a digit-leading line before any `From File` line gives "" |
| Scans.NoScanFileAtEnd | als/bcs/scans.py:60 | a file with no `From File` line gives "" |
| Scans.ScanFileAfterBlankLines | als/bcs/scans.py:47-54 | after `From File`, blank and `All Magnets` lines are passed over and the first other line is returned, cleaned |
| Scans.PathAfterFromFile | als/bcs/scans.py:47-54 | after `From File`, a non-blank line other than `All Magnets` is the result |
| Scans.PassOverAfterFromFile | als/bcs/scans.py:47-52 | after `From File`, a blank or `All Magnets` line is passed over |
| Scans.BlankLineNotDigit | als/bcs/scans.py:47-56 | a line blank after rstrip never ends the search as a digit line |
| Scans.IsHeaderStop | als/bcs/scans.py:78-81 | predicate without an ensures: a leading digit, a leading `file` in any case, or `-` and a digit; `Scans.FirstHeaderStop` states the search built on it |
| Scans.FirstHeaderStop | als/bcs/scans.py:73-84 | the first line that starts with a digit, with `file` in any case, or with `-` and a digit |
| Scans.ScanHeaderLine | als/bcs/scans.py:72-86 | -1, or one before the first qualifying line, so the result lies in [-1, n-1); -1 exactly when the file is empty, line 0 qualifies or no line does |
| Scans.GetScanHeaderLineNumber | als/bcs/scans.py:63-86 | the loop returns what the header-line function specifies |
| Scans.IsMarker | als/bcs/scans.py:121 | predicate without an ensures: the lowered line starts with `file`; the Markers lemmas state the search built on it |
| Scans.MarkersIn | als/bcs/scans.py:121 | the `file` marker lines found lie in the range searched |
| Scans.MarkersInSound | als/bcs/scans.py:121 | the markers found are exactly the marker lines of the range, in increasing order |
| Scans.MarkersAreMarkers | als/bcs/scans.py:121 | every index found is a marker line |
| Scans.MarkersIncrease | als/bcs/scans.py:121 | the indices found increase |
| Scans.MarkersComplete | als/bcs/scans.py:121 | every marker line of the range is found |
| Scans.MarkersPrefix | als/bcs/scans.py:113-127 | the markers of a shorter range are a prefix of those of a longer one |
| Scans.NoMarkerBetween | als/bcs/scans.py:121-130 | no marker line lies between two consecutive markers found |
| Scans.SubScanCount | als/bcs/scans.py:131-133 | there is at least one sub-scan |
| Scans.Wrap | als/bcs/scans.py:134-137 | the wrapped number lies in [1, m] and is `((k-1) mod m) + 1`, so recursion happens at most once |
| Scans.SubScanFirst | als/bcs/scans.py:107-125 | specification function without an ensures: just below the header for sub-scan 1, just below marker k-1 otherwise; `SubScanRange` and `SubScanRangeShape` state it |
| Scans.SubScanEnd | als/bcs/scans.py:116-130 | specification function without an ensures: the k-th marker, or the end of the file; `SubScanEndsAtMarker` and `SubScanHasNoMarker` state it |
| Scans.SubScanRange | als/bcs/scans.py:107-130 | the range of sub-scan k starts at or after the header's next line, and `first <= last` |
| Scans.SubScanRangeShape | als/bcs/scans.py:107-130 | `first` is header+1 or the line after the (k-1)-th marker; the range runs to the next marker or the end, with no marker inside |
| Scans.SubScanEndsAtMarker | als/bcs/scans.py:121-127 | the range of sub-scan k ends at the next marker or the end of the file |
| Scans.SubScanHasNoMarker | als/bcs/scans.py:128-130 | no line inside the range is a marker |
| Scans.LineNumbersOf | als/bcs/scans.py:100-141 | (-1, -1) exactly when there is no header or the request is below 1; otherwise a range after the header with `first <= last` |
| Scans.WrapPeriodic | als/bcs/scans.py:134-137 | wrapping is periodic in the sub-scan count |
| Scans.LineNumbersPeriodic | als/bcs/scans.py:131-140 | asking for sub-scan `k + m` gives the same lines as asking for `k` |
| Scans.RequestedSubScan | als/bcs/scans.py:106 | function without an ensures: `file_number or 1`, so None and 0 ask for sub-scan 1; `DefaultSubScan` states the consequence |
| Scans.DefaultSubScan | als/bcs/scans.py:106 | a file number of None or 0 is treated as 1 |
| Scans.TrackedStep | als/bcs/scans.py:113-130 | one loop iteration keeps the tracked counter and range in step with the markers seen |
| Scans.RangeAtNextMarker | als/bcs/scans.py:121-127 | reaching the marker after sub-scan k, the tracked range is that sub-scan's range |
| Scans.RangeAtEnd | als/bcs/scans.py:128-131 | at the end of the file, the tracked range of the last sub-scan is its range |
| Scans.LineNumbersCases | als/bcs/scans.py:107-140 | a request within the count gets its own range; a larger one gets the range of its wrapped number |
| Scans.WrappedRequestMeetsSpec | als/bcs/scans.py:131-140 | the recursive call with the wrapped number asks for a sub-scan that exists and gives the answer for the original request |
| Scans.ScanForSubScan | als/bcs/scans.py:107-130 | the marker loop returns early with sub-scan k's range, or counts all sub-scans and holds the range when k is the last one |
| Scans.ReturnAtMarker | als/bcs/scans.py:121-127 | the early return at the marker after sub-scan k holds k's range, and (-1, -1) for a request below 1 |
| Scans.LoopEndMeetsSpec | als/bcs/scans.py:128-133 | at the end of the file the loop has counted every sub-scan and, in the last one, holds its range |
| Scans.GetScanLineNumbers | als/bcs/scans.py:89-141 | the function with its loop and one recursive call returns the range its specification gives |
| Scans.FlyingMotorName | als/bcs/scans.py:180-199 | a name is found only when the rstripped first line, with `flying ` made `Flying `, contains `Flying `; the name has no surrounding whitespace |
| Scans.FlyingMotorNameOfHeader | als/bcs/scans.py:182-195 | a first line `<prefix>Flying <name>(<args>` with trailing whitespace gives `strip(name)` |
| Scans.KeywordLineOfRStripped | als/bcs/scans.py:182-187 | trailing whitespace of the first line is ignored |
| Scans.AnnouncedRest | als/bcs/scans.py:186-190 | the text after the last `Flying ` is taken |
| Scans.FlyingKeywordEitherCase | als/bcs/scans.py:186-187 | `flying ` and `Flying ` announce the same motor |
| Scans.FirstLine | als/bcs/scans.py:182 | function without an ensures: `readline()` of the scan file, "" for an empty file |
| Scans.IntRange | als/bcs/scans.py:158 | `np.arange(lo, hi)` counts up from `lo` and is empty when `hi <= lo` |
| Scans.TableRequestOf | als/bcs/scans.py:154-171 | the header row is the header line; the rows skipped are exactly `header+1, …, first-1` in order (none when `first <= header+1`); `nrows = 1 + last - first` |
| Scans.IsCommentRow | als/bcs/scans.py:173-175 | predicate without an ensures: the first cell, stripped, starts with `#`; the NonCommentRows lemmas state the drop built on it |
| Scans.NonCommentRows | als/bcs/scans.py:172-177 | no kept row is a comment row, and no rows are added |
| Scans.NonCommentRowsFrom | als/bcs/scans.py:175-177 | every kept row is a row of the table read |
| Scans.NonCommentRowsWidth | als/bcs/scans.py:177 | dropping rows keeps every row's width |
| Scans.NonCommentRowsAppend | als/bcs/scans.py:175-177 | rows are kept in order: the drop distributes over concatenation |
| Scans.NonCommentRowsKeepsAll | als/bcs/scans.py:175-177 | a table without comment rows is unchanged |
| Scans.NonCommentRowsIdempotent | als/bcs/scans.py:175-177 | dropping twice is dropping once |
| Scans.NonCommentRowsCount | als/bcs/scans.py:175-177 | exactly the comment rows are dropped |
| Scans.Frame.constructor | als/bcs/scans.py:164-171 | the frame holds the table read |
| Scans.Frame.DropCommentRows | als/bcs/scans.py:172-177 | the in-place drop leaves the columns and keeps the non-comment rows in order; a rectangular frame stays rectangular |
| Scans.Frame.RenameLastColumn | als/bcs/scans.py:199 | only the last column name changes and the rows stay |
| Scans.FlyingColumns | als/bcs/scans.py:180-199 | the column count is unchanged, every column but the last keeps its name, and the last one takes the flying name exactly when the header row is past line 0 and a name is found |
| Scans.ImportedTable | als/bcs/scans.py:144-201 | a failed read or a table without columns is an error; otherwise the table keeps its column count and its columns except the last, and holds the non-comment rows read |
| Scans.ScanTableRequest | als/bcs/scans.py:154-161 | the header line and the request `import_scan_file` builds |
| Scans.ImportScanFile | als/bcs/scans.py:144-201 | the imperative import gives the table the import specification describes, in a fresh rectangular frame |
| Scans.CleanedFrame | als/bcs/scans.py:172-199 | after the drop and the rename the frame holds the renamed columns and the non-comment rows |
| Scans.IsFlyingScan | als/bcs/scans.py:205-257 | fails exactly when the read fails; otherwise true iff the header row is past line 0 and the first line announces a flying motor |
| Scans.FlyingScanIffRenamed | als/bcs/scans.py:189-199 | when the import succeeds, `is_flying_scan` succeeds, and it is true exactly when the last column was renamed |
| Ingest.Classify | als/bcs/ingest.py:188-256 | a line is classed as a data line only when it starts with a digit |
| Ingest.DigitLineIsData | als/bcs/ingest.py:252 | every line that starts with a digit is a data line: no keyword starts with a digit |
| Ingest.DescriptionLineIgnored | als/bcs/ingest.py:188-251 | a correctly spelled `Description ` line matches no keyword |
| Ingest.ClassifyStartStopIncrement | als/bcs/ingest.py:198 | `Start, Stop, Increment` is caught before `Start` |
| Ingest.ClassifyStart | als/bcs/ingest.py:210 | a `Start` line that is not `Start, Stop, Increment` is a `Start` line |
| Ingest.ClassifyFromFile | als/bcs/ingest.py:202 | a `From File` line is one |
| Ingest.ClassifyFlyingScan | als/bcs/ingest.py:193 | a `Flying Scan` line is caught by its own branch, before the others that follow |
| Ingest.ClassifyMisspelledDescription | als/bcs/ingest.py:247 | a `Decription ` line reaches the memo branch |
| Ingest.KeywordStep | als/bcs/ingest.py:188-256 | a keyword line never touches `motor_header_linenum` and arms at most one flag, never the scan-path flag; the walk stops exactly at a data line and records its index minus one |
| Ingest.ValueAfter | als/bcs/ingest.py:189 | function without an ensures: `strip().split(sep, 1)[1]`, with the IndexError as `MissingValue` |
| Ingest.FloatAfter | als/bcs/ingest.py:211-232 | function without an ensures: `float()` of that value, with the ValueError as `NotAFloat` |
| Ingest.IntAfter | als/bcs/ingest.py:235-236 | a missing value gives `MissingValue`; otherwise `int()` of the value, or `NotAnInteger` with that text when `int()` refuses it |
| Ingest.Transpose | als/bcs/ingest.py:160 | `values.T` has one row per column and one cell per table row |
| Ingest.TransposeCell | als/bcs/ingest.py:160 | cell (j, i) of the transpose is cell (i, j) of the table |
| Ingest.LowerConcat | als/bcs/ingest.py:174 | `lower()` distributes over concatenation |
| Ingest.CleanFlyingKeyword | als/bcs/ingest.py:174 | `flying(...)`, in any case, loses exactly its keyword |
| Ingest.CleanParentheses | als/bcs/ingest.py:175 | `(body)` loses exactly its parentheses |
| Ingest.CleanFlyingDescriptor | als/bcs/ingest.py:174-175 | the descriptor `flying(body)` cleans to `body` |
| Ingest.PushFields | als/bcs/ingest.py:176-180 | `zip` with the four key names gives key k one value exactly when field k exists |
| Ingest.PushFourFields | als/bcs/ingest.py:176-180 | with four or more fields, each key gets its field's value and the fields past the fourth are ignored |
| Ingest.DescriptorFields | als/bcs/ingest.py:177 | every cell gives at least one field |
| Ingest.DescriptorTable | als/bcs/ingest.py:173-177 | one field list per cell, none empty |
| Ingest.CleanDescriptor | als/bcs/ingest.py:174-175 | function without an ensures: strip, lower, `lstrip('flying')`, strip, then the parentheses; `CleanFlyingDescriptor` states its value |
| Ingest.FlyingDescriptors | als/bcs/ingest.py:171-180 | specification function without an ensures: the four lists folded over the steps, stopping at the first `float()` failure; `FlyingDescriptorsLengths`, `FlyingDescriptorsFailEarly` and `FlyingMotorValues` state it |
| Ingest.FlyingDescriptorsLengths | als/bcs/ingest.py:171-180 | each step adds exactly one `motor_first` value, and the lists never grow longer from first to velocity |
| Ingest.FlyingDescriptorsFailEarly | als/bcs/ingest.py:173-180 | the first step whose `float()` fails decides the error |
| Ingest.FlyingMotorValues | als/bcs/ingest.py:164-180 | the nested descriptor loops compute what the descriptor fold specifies |
| Ingest.ImportMotors | als/bcs/ingest.py:157-181 | the import keeps the scan-file path and the header boundary |
| Ingest.ImportMotorsShape | als/bcs/ingest.py:157-181 | `motors` are the imported table's columns; `motor_values` is its transpose, one row per motor, except for a flying scan, which is exactly when it has one row fewer: then it is the transpose without its last row, `flying` is set and the four lists are the descriptor fold of that last row, with the lengths ordered; no other key of the record changes |
| Ingest.ImportMotorsOutcome | als/bcs/ingest.py:157-181 | the import fails with the read error when the table cannot be read, and for a flying scan exactly when the descriptor fold fails, with its error; otherwise it succeeds |
| Ingest.CaptureScanFile | als/bcs/ingest.py:141-160 | the stored scan-file path is the line rstripped with `\` made `/`; the boundary is untouched |
| Ingest.CaptureScanFileOutcome | als/bcs/ingest.py:141-160 | an undecodable data-file name fails first; then a remapped path with no scan file fails naming that path; otherwise the result is the import of that scan file for the decoded output number, with the cleaned path stored |
| Ingest.CaptureScanFileLines | als/bcs/ingest.py:141-182 | the inline capture computes what the capture function specifies |
| Ingest.ImportMotorFrame | als/bcs/ingest.py:157-181 | the import, transposition and flying loop compute what the import function specifies |
| Ingest.Step | als/bcs/ingest.py:130-256 | a line never touches the boundary unless it stops the walk; the walk stops only with no flag armed, at a digit line, recording its index minus one; at most one flag stays armed |
| Ingest.StepKeepsBoundary | als/bcs/ingest.py:252-256 | every step keeps the boundary rule the walk lemmas rely on |
| Ingest.WalkAtLine | als/bcs/ingest.py:125 | the walk at a line is that line's step followed by the rest of the walk |
| Ingest.Walk | als/bcs/ingest.py:125-256 | specification function without an ensures: the step on each line in turn, stopping at an error or at the boundary; the walk lemmas state it |
| Ingest.Resume | als/bcs/ingest.py:125-256 | specification function without an ensures: what the walk does after one step; `WalkAtLine` states it |
| Ingest.ParseHeader | als/bcs/ingest.py:90-258 | specification function without an ensures: the walk from line 0 with the initial record and no flag; `GetDataFileHeader` is proved equal to it |
| Ingest.GetDataFileHeader | als/bcs/ingest.py:90-258 | the loop with its four flags builds the record the walk specifies |
| Ingest.EmptyFileHeader | als/bcs/ingest.py:109-118 | the record starts with no scan type, no date, `flying` false and empty motor lists; an empty file gives that record |
| Ingest.MotorNameLineCaptured | als/bcs/ingest.py:130-134 | while `motors` is still the walk's own list, an armed motor-name flag takes the line, stripped, as the next motor and disarms; nothing else changes |
| Ingest.PauseMotorArmsScanFile | als/bcs/ingest.py:135-140 | the pause-motor line is stored stripped and arms the scan-file capture |
| Ingest.MemoLineCaptured | als/bcs/ingest.py:183-187 | the memo line is stored rstripped and the flag is cleared |
| Ingest.StartStopIncrementKeepsValues | als/bcs/ingest.py:198-201 | `Start, Stop, Increment` sets "Single Motor" and arms the motor name; `motor_first` is untouched |
| Ingest.FlyingScanArmsMotorName | als/bcs/ingest.py:193-197 | `Flying Scan` sets `flying` true and "Single Motor" and arms the motor name; every other key stays as it was |
| Ingest.StartLineSetsFirst | als/bcs/ingest.py:210-213 | a `Start:` line replaces `motor_first` with one value; nothing else changes |
| Ingest.FromFileOverwritesScanType | als/bcs/ingest.py:202-206 | `From File` sets "Trajectory" whatever came before and arms the pause motor |
| Ingest.ScanNumberMustBeInteger | als/bcs/ingest.py:234-237 | a scan number `int()` refuses stops the walk with an error |
| Ingest.BidirectIffYes | als/bcs/ingest.py:238-242 | `bidirect` is true iff the value is exactly `Yes` |
| Ingest.StayAtEndIffNonEmpty | als/bcs/ingest.py:243-246 | `stay_at_end` is true iff the value is non-empty |
| Ingest.MisspelledDescriptionNeedsCorrectSeparator | als/bcs/ingest.py:247-248 | a `Decription ` line without `Description Length: ` stops the walk with IndexError |
| Ingest.DescriptionKeyword | als/bcs/ingest.py:247-251 | the `Decription ` branch arms the memo iff the value after `Description Length: ` is non-empty |
| Ingest.StepWithoutFlags | als/bcs/ingest.py:130-188 | with no flag armed, the line goes to the keyword chain |
| Ingest.ScanFilePathLineCaptured | als/bcs/ingest.py:141-182 | the line after the pause motor is captured and imported: the walk stops with the capture's error, or goes on with its record and the flag cleared |
| Ingest.MotorNameAfterImportFails | als/bcs/ingest.py:130-160 | once a scan file has been imported, a motor-name capture raises the AttributeError of `append` on the column array |
| Ingest.DescriptionLengthIgnored | als/bcs/ingest.py:247-251 | a correctly spelled `Description Length:` line changes nothing |
| Ingest.DescriptionLengthPrefix | als/bcs/ingest.py:247 | a `Description Length: ` line is a `Description ` line |
| Ingest.WalkBoundaryIsDigitLine | als/bcs/ingest.py:252-256 | when the walk sets `motor_header_linenum` to b, line b+1 exists and starts with a digit |
| Ingest.NoDigitLineNoBoundary | als/bcs/ingest.py:252-256 | without a digit-leading line, the key is never set |
| Ingest.WalkStopsAtBoundary | als/bcs/ingest.py:256 | once the boundary is found, the lines after it are never read |
| Ingest.HeaderIgnoresLinesAfterBoundary | als/bcs/ingest.py:252-258 | appending lines to a file whose header ends gives the same header |
| Ingest.GetFilename | als/bcs/ingest.py:67-69 | the file name has no `/` |
| Ingest.FilenameIsLastComponent | als/bcs/ingest.py:67-69 | the file name is the whole path or the text after its last `/` |
| Ingest.GetFilenameBase | als/bcs/ingest.py:72-76 | the base is a prefix of the file name, and the whole name when it has no dot |
| Ingest.FilenameBaseOfJoin | als/bcs/ingest.py:72-76 | the base of `dir/stem.ext` is `stem`: only the text after the last dot is removed |
| Ingest.LeadingDotName | als/bcs/ingest.py:75 | `rsplit('.', 1)` differs from `splitext`: `.profile` has base "" here and root `.profile` there |

## Left out

- File I/O is left out: `open`, reading lines, `os.stat`, platform checks and logging. Files are given as lists of lines, and the scan files as a map from path to lines. A path missing from the map is a file that cannot be opened.
- `pandas.read_table` (tab-delimited parsing, header row, `skiprows`, `nrows`) is the parameter `Scans.TableReader`. Its result is taken as text cells, and a table with no first column is an error (`NoColumns`). Non-string cells and the `astype(str)` rendering are not modelled.
- `float()` and `strptime(..., "%m/%d/%Y")` are partial parameters of `Ingest.Env`, because they are floating point and library parsing. Dates are day numbers.
- `int()` is modelled for ASCII digits, an optional sign, surrounding whitespace and single underscores. Unicode digits are not modelled.
- `str.lower` and `str.isdigit` are ASCII-only. `str.strip` and `str.isspace` use Python's full set of whitespace characters.
- Paths are POSIX only, for `basename` and `splitext`.
- numpy arrays: `motor_values` is a sequence of text rows rather than an array.
- `get_file_timestamps`, `timestamp_to_string` and the `main()` functions are clock, time-zone or I/O code.
- `find_data_files_in_date_range` is `glob`, `os.path.exists` and `date.today()` around the two modelled helpers.
- `read_data_file`: only the header-row search loop is modelled. The table read and the added filename column are pandas.
- `Find.ReplaceSubpath`: the dictionary is given as its items in iteration order. The `None` default of `get_data_file_header` becomes the empty mapping, as the source does before the walk. Duplicate keys, which a dictionary cannot hold, are not excluded.
- `Errors`: the exception classes, the `warnings.warn` machinery and the `Generic[...]` aliases are modelled only as their message text and the raised-or-reported outcome.
- `Errors.WarnOrRaise`: does not model warning filters or where the report goes.
- `if DEBUG` logging in the walk is left out.
- Empty lines: `file_line[0]` on an empty line, which Python's file iteration never yields, counts as "no digit" instead of raising IndexError.
- In the same way, a line that is just `-` counts as not qualifying in the scan header search, instead of raising IndexError at `file_line[1]`.
- `Ingest.WalkBoundaryIsDigitLine` and `Ingest.WalkStopsAtBoundary` are stated for any step function that keeps the boundary rule (`Ingest.KeepsBoundary`). `Ingest.StepKeepsBoundary` shows that the header step is one. They say where the boundary lies. They do not say that it is the first unclaimed digit line; that follows from `Ingest.Step` line by line.
- Keyword lines that read a value are all modelled in `Ingest.KeywordStep`, but only `Start:` has a lemma of its own (`StartLineSetsFirst`). The five other float keywords, `Stop:`, `Increment:`, `X Center:`, `Delay After Move (s):` and `Count Time (s):`, follow its shape through `FloatAfter`. `Date:` has a different shape: its value goes through `strptime`, and a refusal is `NotADate`.
