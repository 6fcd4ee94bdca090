# WaSetup telemetry report — verified model

This project models the telemetry-normalisation and aggregation logic of
`wasetup_report_os.py`, a script that reads the Windows image-setup timing
telemetry of each machine (the `WaSetup.xml` log and the companion
`PASetup.log`) and builds one summary row per machine with the duration of
each setup phase and a total.

The model covers:

- **Case-insensitive lookup over an element tree** (module `Xml`): an element is
  a datatype with a tag, attributes as ordered pairs, optional text and children.
  `GetChildCaseInsensitive` is the loop with early return of the source.
  `GetTextOrAttr` reads a field from a child element first and falls back to an
  attribute. `FindSections` walks the tree in document order and fills an
  insertion-ordered dict of the eight phase names.
- **Per-section records** (module `Records`): `BuildRecord` is the record that
  both the JSON branch and `extract_section_record` build. Timestamps are
  integer epoch milliseconds, parsed by an abstract `string -> Option<int>`, and
  tick counts go through an abstract partial parser. The duration is present
  exactly when both timestamps parse. The tick fields depend only on the tick
  value. The PST time is the instant less a fixed eight hours.
- **Per-file decision procedure** (module `Telemetry`): `WaSetupRecords` is
  `parse_wasetup_xml` over parsed inputs, and `ParseWaSetup` is its imperative
  form. Its inputs are the telemetry object (empty when no `TelemetryData`
  block was found or it did not parse), the XML tree or its parse failure, and
  the companion timing. JSON wins over XML. The XML path runs only when JSON
  gave no record. The two paths normalise names through different tables. A
  companion timing adds one `PaSetup` record. The result is never empty.
- **Companion-log tail scan** (module `Companion`): `ExtractPaSetupTiming`
  walks the last ten lines newest first and stops at the first line that
  reports the timing.
- **Summary aggregation** (module `Summary`): `BuildMachineSummary` groups
  records by machine in first-seen order. Each cell takes the duration, else
  the tick count, and the last write wins. The total is taken over seven fixed
  columns.

Helper modules: `Options` (the `None`/`Some` datatype), `Seqs` (first-match
search), `Text` (`strip`, ASCII `lower`/`capitalize`, namespace stripping,
substring test) and `Dicts` (a Python dict with insertion order and
last-write-wins assignment).

Behaviour of the code worth noting:

- JSON keys are matched by exact spelling against the 14-entry table at
  wasetup_report_os.py:124-139. They are not matched case-insensitively, so
  `"OOBESYSTEM"` is dropped.
- `Total` is empty whenever the sum of the present cells is not positive
  (wasetup_report_os.py:333). This is not only the case when no cell is present.
- Attribute names are compared ignoring case but without removing a namespace
  prefix (wasetup_report_os.py:45). Child tags do have the prefix removed.
- On the JSON path, a phase key whose value is not an object makes `.get`
  raise. The `ERROR` record is then appended after the records already built,
  and the companion record is not added (wasetup_report_os.py:145, 230-242).
- XML-path names other than the four fixed spellings go through
  `capitalize()`. So `specialize`, `provisioning` and `pasetup` become
  `Specialize`, `Provisioning` and `Pasetup`. None of these is a summary
  column, so their values never reach the summary
  (`Telemetry.XmlSectionNameSpellings`, `Summary.XmlNamesInColumns`,
  `Summary.IgnoredSection`). `WinDeploy` is never a column either.

## Model

| member | source | states |
|---|---|---|
| `Text.Strip` | wasetup_report_os.py:42-46 | the result is an infix of the input with only whitespace removed around it, and it neither starts nor ends with whitespace |
| `Text.StripBlankIffAllSpace` | wasetup_report_os.py:42 | `not s.strip()` holds exactly when every character of `s` is whitespace |
| `Text.StripIdempotent` | wasetup_report_os.py:43 | stripping an already stripped value changes nothing |
| `Text.SameIgnoringCaseIffLower` | wasetup_report_os.py:36 | the character-by-character case-blind comparison is the comparison of the lower-cased strings |
| `Text.Lower` | wasetup_report_os.py:34 | `s.lower()` keeps the length and lower-cases each character |
| `Text.Capitalize` | wasetup_report_os.py:195 | `s.capitalize()` keeps the length, upper-cases the first character and lower-cases the rest |
| `Text.CapitalizeRecases` | wasetup_report_os.py:195 | capitalising a lower-case string and lower-casing the result gives the string back |
| `Text.ContainsIffOccurs` | wasetup_report_os.py:253 | `pat in s` holds exactly when `pat` occurs at some position of `s` |
| `Text.LocalNameSpec` | wasetup_report_os.py:87 | `tag.split("}")[-1]` is the suffix after the last `}`, holds no `}`, and is the whole tag when there is no `}` |
| `Xml.GetChildCaseInsensitive` | wasetup_report_os.py:33-38 | returns the first child whose local tag matches ignoring case, and nothing exactly when no child matches |
| `Xml.GetTextOrAttr` | wasetup_report_os.py:40-47 | the stripped, non-blank text of the first matching child wins; otherwise the first matching attribute with a non-blank value; otherwise nothing exactly when no attribute matches |
| `Xml.Iter` | wasetup_report_os.py:86 | the walk starts at the root element itself |
| `Xml.IterAllAppend` | wasetup_report_os.py:86 | the walk over siblings visits each sibling's whole subtree before the next sibling's |
| `Xml.FindSections` | wasetup_report_os.py:84-91 | the loop leaves the dict built by assigning every visited phase-named element under its lower-cased local tag |
| `Xml.FindSectionsKeys` | wasetup_report_os.py:87-90 | a name is a key exactly when it is one of the eight phase names and some visited element carries it |
| `Xml.FindSectionsLastWins` | wasetup_report_os.py:90 | when several elements share a phase name, the dict holds the last one visited |
| `Xml.FindSectionsOrder` | wasetup_report_os.py:85-91 | keys are listed in the order their names first appear in the walk |
| `Records.ParseIso` | wasetup_report_os.py:18-25 | an empty or non-string value gives nothing; a non-empty string gives what the timestamp parser gives |
| `Records.ParseTick` | wasetup_report_os.py:158-164 | `float(tick_raw)`: strings go to the number parser, numbers are kept, booleans are 1 or 0, null and composites give nothing |
| `Records.ToPst` | wasetup_report_os.py:27-31 | the PST instant is present exactly when the UTC one is, and is eight hours earlier |
| `Records.Seconds` | wasetup_report_os.py:60-61 | seconds are present exactly when milliseconds are, and are a thousandth of them |
| `Records.BuildRecord` | wasetup_report_os.py:149-177 | the duration is present exactly when both timestamps parse and is end minus start; the tick fields depend only on the tick value; seconds agree with milliseconds |
| `Records.Raw` | wasetup_report_os.py:80-81 | a missing field is kept as null and a found one as its text |
| `Records.ExtractSectionRecord` | wasetup_report_os.py:49-82 | the XML record reads its fields through `GetTextOrAttr`; duration exactly when both fields are found and parse, and then end minus start; tick exactly the tick parser's value on the found tick field, and none when the field is missing |
| `Records.PaSetupRecord` | wasetup_report_os.py:200-213 | the companion record carries only the duration; timestamps, raw values and tick are empty |
| `Records.NoDataRecord` | wasetup_report_os.py:215-228 | the placeholder record has no duration or tick and says that no telemetry was found |
| `Records.ErrorRecord` | wasetup_report_os.py:230-242 | the failure record has no duration or tick and carries the failure's message |
| `Telemetry.JsonRecord` | wasetup_report_os.py:148-177 | a JSON record is for the machine and phase, well formed, and built from the object's own `StartTime`, `EndTime` and `TickCount` fields, a missing one read as null; the duration, present exactly when both timestamps parse, is end minus start, and the tick is the converted `TickCount` |
| `Telemetry.JsonStep` | wasetup_report_os.py:141-178 | after a failure or at a key outside the table nothing changes; otherwise the walk either fails exactly when the value is not an object, with the `.get` message and the records kept, or appends one record for the machine under the table's name |
| `Telemetry.JsonScan` | wasetup_report_os.py:122-178 | every JSON record is for the machine, well formed, and named by a value of the mapping table |
| `Telemetry.JsonScanSections` | wasetup_report_os.py:141-142 | without a failure, the records are exactly one per key in the table, with the mapped name, in key order; other keys are dropped |
| `Telemetry.JsonScanRecords` | wasetup_report_os.py:141-178 | without a failure, the records are exactly `MappedRecords`: in key order, one per table key, each built from that key's own object |
| `Telemetry.JsonScanFailure` | wasetup_report_os.py:145-147 | the walk fails only at a table key whose value is not an object, with the message `.get` raises on it |
| `Telemetry.JsonScanFailsIff` | wasetup_report_os.py:141-147 | the walk fails exactly when some table key has a value that is not an object |
| `Telemetry.JsonScanFirstFailure` | wasetup_report_os.py:141-178 | the first table key with a non-object value gives the failure's message, and the records kept are exactly `MappedRecords` of the keys before it |
| `Telemetry.JsonScanSticky` | wasetup_report_os.py:230 | once the walk has failed, later keys change nothing |
| `Telemetry.XmlSectionName` | wasetup_report_os.py:186-195 | the XML-path name of a tag has the tag's length and, for a lower-case tag, reads as the tag when case is ignored |
| `Telemetry.XmlSectionNameCapitalises` | wasetup_report_os.py:194-195 | a tag other than the four with fixed spellings is capitalised |
| `Telemetry.XmlSectionNameSpellings` | wasetup_report_os.py:195 | the XML path spells `specialize`, `setup`, `provisioning` and `pasetup` exactly as `Specialize`, `Setup`, `Provisioning` and `Pasetup` |
| `Telemetry.JsonSpellingsDiffer` | wasetup_report_os.py:124-139 | the JSON table names those phases `specialize`, `provisioning` and `PaSetup`, unlike the XML path |
| `Telemetry.XmlSectionNameNotReserved` | wasetup_report_os.py:186-195 | the XML path never yields `NO_DATA` or `ERROR` as a phase name |
| `Telemetry.XmlRecords` | wasetup_report_os.py:185-197 | one record per phase found, in the dict's order, each built by `extract_section_record` under the XML-path name |
| `Telemetry.Finish` | wasetup_report_os.py:199-228 | a companion timing appends exactly one `PaSetup` record; an empty list becomes exactly one `NO_DATA` record; otherwise nothing changes |
| `Telemetry.WaSetupRecords` | wasetup_report_os.py:114-243 | a file never yields an empty list, and every record is for the machine and well formed |
| `Telemetry.XmlOnlyAsFallback` | wasetup_report_os.py:181 | when the JSON walk produced a record or failed, the XML tree does not affect the outcome |
| `Telemetry.WaSetupOutcome` | wasetup_report_os.py:114-243 | the outcome case by case: failure gives the records so far plus `ERROR`; JSON records win; a malformed tree gives one `ERROR`; otherwise the XML records; the companion and `NO_DATA` rules follow |
| `Telemetry.FailureReported` | wasetup_report_os.py:230-242 | a failed JSON walk ends the list with an `ERROR` record carrying the message of a non-object phase value |
| `Telemetry.FailureReportedFirst` | wasetup_report_os.py:141-242 | with a first phase key whose value is not an object, the outcome is the records of the keys before it followed by the `ERROR` record of that value, whatever the tree and the companion timing |
| `Telemetry.JsonNamesNotReserved` | wasetup_report_os.py:124-139 | the JSON table never yields `NO_DATA` or `ERROR` |
| `Telemetry.FinishNoData` | wasetup_report_os.py:199-228 | the closing steps add a `NO_DATA` record exactly when the list is empty and there is no companion timing |
| `Telemetry.NoDataExactly` | wasetup_report_os.py:215-228 | a `NO_DATA` record appears exactly when JSON gave nothing and did not fail, the tree parsed with no phase element, and there is no companion timing |
| `Telemetry.ScanTelemetry` | wasetup_report_os.py:120-178 | the loop over the telemetry keys computes the JSON walk, up to the first failure |
| `Telemetry.ScanXml` | wasetup_report_os.py:181-197 | the XML loop computes the XML records of the tree's phase elements |
| `Telemetry.ParseWaSetup` | wasetup_report_os.py:114-243 | the imperative procedure computes `WaSetupRecords` |
| `Companion.Tail` | wasetup_report_os.py:252 | `lines[-10:]` is the last ten lines, or all lines when there are fewer |
| `Companion.ScanNewestFirst` | wasetup_report_os.py:252-257 | a reported timing is the converted number of some matching line |
| `Companion.CompanionTiming` | wasetup_report_os.py:252-259 | a reported timing is the converted number of a matching line among the last ten; when the newest matching line lies among them, the timing is its converted number; there is none when none of those lines matches |
| `Companion.NewestHitDecides` | wasetup_report_os.py:252-257 | the newest matching line decides the timing, whatever older lines say |
| `Companion.NoHitNoTiming` | wasetup_report_os.py:252-259 | without a matching line the timing is absent |
| `Companion.TimingFromNewestHit` | wasetup_report_os.py:252-257 | a reported timing always comes from the newest matching line |
| `Companion.OnlyTailMatters` | wasetup_report_os.py:252 | lines before the last ten never change the timing |
| `Companion.ExtractPaSetupTiming` | wasetup_report_os.py:245-262 | the newest-first loop with early return computes the tail scan |
| `Summary.CellValue` | wasetup_report_os.py:306-312 | a record contributes its duration when it has one, else its tick count |
| `Summary.CellsOf` | wasetup_report_os.py:327-329 | one cell per column, in column order, holding the machine's value for that phase if any |
| `Summary.GroupStep` | wasetup_report_os.py:299-315 | a new machine is registered after those already seen, a known one keeps its place, and no other machine's values change |
| `Summary.LookupStep` | wasetup_report_os.py:307-315 | one grouping step overwrites the machine's value for the record's phase exactly when the record has a duration or tick, and changes no other value |
| `Summary.SumPresentAppend` | wasetup_report_os.py:326-331 | the running total over two runs of columns is the sum of their totals |
| `Summary.RowOf` | wasetup_report_os.py:323-333 | the total is present exactly when the sum of present cells is positive, and then equals that sum |
| `Summary.SummaryRows` | wasetup_report_os.py:323-334 | one row per grouped machine, in the grouping's order |
| `Summary.GroupedKeys` | wasetup_report_os.py:299-304 | machines are registered in first-seen order, as dict assignment registers them |
| `Summary.RowsOfMachines` | wasetup_report_os.py:323-334 | the rows list a machine exactly when the grouping has it |
| `Summary.SummaryCoversMachines` | wasetup_report_os.py:299-304 | there is a row for a machine exactly when some record is for it |
| `Summary.SummaryMachineOrder` | wasetup_report_os.py:323 | one row per distinct machine, in first-seen order |
| `Summary.GroupedLastWins` | wasetup_report_os.py:307-315 | the grouped value of a machine and phase is that of the last record carrying a duration or tick for them |
| `Summary.SummaryCells` | wasetup_report_os.py:307-329 | every cell is the last value recorded for its machine and column |
| `Summary.EmptyCellsNoTotal` | wasetup_report_os.py:326-333 | a row with no present cell sums to zero, so it has no total |
| `Summary.IgnoredSection` | wasetup_report_os.py:314-329 | a record of a known machine whose phase is not a column leaves the summary unchanged |
| `Summary.UncountedNames` | wasetup_report_os.py:321 | `WinDeploy` and the capitalised XML names are not columns |
| `Summary.XmlNamesInColumns` | wasetup_report_os.py:186-195 | of the XML-path names of the eight phase tags, exactly those of `oobesystem`, `setupcl`, `setup` and `oobeldr` are columns; `Specialize`, `Provisioning`, `Pasetup` and `WinDeploy` are not |
| `Summary.OnlySpecializeRow` | wasetup_report_os.py:321-333 | a machine with only `specialize` = 100 ms gets that cell, six empty cells and a total of 100 |
| `Summary.SpecializeAndSetupRow` | wasetup_report_os.py:321-333 | a machine with `specialize` = 100 ms and `Setup` = 200 ms gets them in columns one and four and a total of 300 |
| `Summary.GroupByMachine` | wasetup_report_os.py:297-315 | the grouping loop computes the grouping |
| `Summary.MachineRow` | wasetup_report_os.py:324-333 | the column loop computes the row and its total |
| `Summary.BuildMachineSummary` | wasetup_report_os.py:294-336 | the procedure computes the summary rows |

## Left out

- Directory discovery and the command line (`discover_wasetup_files_os`, `main`) are file-system and console plumbing.
- Spreadsheet writing, removing a locked output file, and building and sorting the pandas `DataFrame` are output through foreign libraries.
- The regular-expression search for the `TelemetryData` block, `json.loads` and `ET.parse` are not modelled. Their results are inputs: an ordered dict of phase values (empty when there is no block or it does not parse), and an element tree or its failure message.
- `datetime.fromisoformat` and `float()` are abstract parsers passed as parameters. Timestamps are integer epoch milliseconds, and tick counts and the companion timing are integer milliseconds.
- `round(x, 6)` and `round(x, 3)` are the identity. Seconds are the exact quotient of milliseconds by 1000.
- Records.ToPst: keeps the PST instant instead of the `strftime` text, so it does not model the date formatting or the truncation to milliseconds.
- Text.Lower: Python's `lower()` and `capitalize()` are Unicode-aware; the model changes only the ASCII letters.
- Companion.ExtractPaSetupTiming: the regular expression `took\s+([\d.]+)\s+ms` is an abstract function from a line to the matched text. Reading the file and a failing read (which gives no timing) are not modelled.
- Records.ParseTick: a JSON integer `TickCount` too large for a float (about 2^1024 and above) makes `float(tick_raw)` raise `OverflowError` (wasetup_report_os.py:161), which `except (ValueError, TypeError)` does not catch. The source then appends an `ERROR` record after the records built so far and adds no companion record (wasetup_report_os.py:230-242). The model takes every integer as a tick count, so it yields a record there instead.
- Records.ToPst: `astimezone(PST_TZ)` (wasetup_report_os.py:30) raises `OverflowError` for an instant in the first eight hours of year 1, which leads to the same `ERROR` outcome. The model subtracts eight hours from any instant and never fails there.
- Of the exceptions that can end `parse_wasetup_xml` with an `ERROR` record, the model has a non-object phase value and an XML parse or read failure; the two overflows above are the ones it leaves out.
