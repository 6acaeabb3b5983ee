# THOR operations map: KML assembly and date cleaning in Dafny

This project models the logic the Vietnam War THOR scripts use to build a
Google Earth map:

- `KMLOutputParser` (kml.py) assembles a KML document as a list of text
  fragments. It has one method per kind of fragment: the header, an opening
  folder, a closing folder, a placemark and the end tags. The file it writes is
  those fragments joined in order.
- `format_kml_placemark_description` turns one mission record into the CDATA
  block that Google Earth shows when a placemark is clicked.
- `remove_invalid_chars` escapes the characters that may not appear inside a
  KML element's text.
- `clean_date` (a copy in operationsmap.py and another in timeseries.py) turns
  `yyyymmdd` into `yyyy-mm-dd`. It returns `INVALID` when `datetime.date`
  refuses the numbers.
- `create_map` (operationsmap.py) drives the parser. The order of its calls is
  modelled, and the model proves that this order opens and closes folders in
  balance.

Modules, one per file:

- `Wrappers`: `Option`.
- `Text`: joining fragments, substring containment, ASCII upper case and
  generic sequence lemmas.
- `Sanitizer`: `remove_invalid_chars`.
- `KmlDescription`: `format_kml_placemark_description`.
- `Kml`: the parser class, its templates, and the calls it accepts seen as
  values.
- `PythonDate`: slicing, `int()` on text, and the range checks of
  `datetime.date`.
- `OperationsMap`: `clean_date` and `create_map`.
- `TimeSeries`: the second `clean_date`.

How the model is built:

- The parser is a class with a `kmldoc: seq<string>` field. Every method
  appends exactly one fragment.
- A ghost `depth` counts folders that are open. The parser itself never checks
  this count: `close_folder` runs happily at depth 0. So balance is stated as a
  property of call sequences (`Kml.Call`, `Kml.Balanced`), not as a
  precondition.
- A record of the description is a sequence of `Scalar(key, value)` and
  `Group(key, items)` entries in insertion order.

Three facts about the code that the model keeps:

- a folder opening is `<Folder>`, a line break, then `<name>…</name>` (kml.py:120);
- the placemark's `<TimeStamp>` element spans three lines (kml.py:30-32);
- nothing checks the order of calls (kml.py:83-137).

`clean_date` keeps the code's day slice `datestr[6:9]`:

- A ninth digit joins the day and stays in the output (`201001031` is checked
  as day 031 and yields `2010-01-031`).
- A ninth whitespace character that `int()` skips (ASCII tab, LF, VT, FF, CR
  and space, or a non-ASCII Unicode space) is kept in the output. The separators
  U+001C to U+001F are not skipped by `int()`, so they make the date `INVALID`.
- Any other ninth character makes the date `INVALID`; the model counts a non-ASCII digit among these (see "## Left out").

## Model

| member | source | states |
|---|---|---|
| Sanitizer.RemoveInvalidChars | kml.py:148-164 | the loop of `str.replace` calls (`&` first, then the dictionary in insertion order) returns the per-character escape `Escaped` of its input |
| Sanitizer.ReplaceAll | kml.py:160 | `str.replace` of a character that does not occur, or by itself, leaves the text unchanged |
| Sanitizer.SequentialIsPerCharacter | kml.py:158-164 | the series of six whole-string replacements equals replacing each character independently: `&`→`&amp;`, `<`→`&lt;`, `>`→`&gt;`, `"`→`&quot;`, tab→four spaces, newline→nothing, anything else kept |
| Sanitizer.SequentialChar | kml.py:158-164 | on one character the series of replacements gives exactly that character's escape |
| Sanitizer.DictChar | kml.py:161-163 | the five dictionary replacements map a character other than `&` to its escape |
| Sanitizer.SequentialUnrolled | kml.py:158-164 | the replacement loop unrolled into its six calls, in order |
| Sanitizer.ReplaceAllAppend | kml.py:160 | `str.replace` of one character acts on the two halves of a text independently |
| Sanitizer.ReplaceEachAppend | kml.py:161-163 | the series of replacements acts on the two halves of a text independently |
| Sanitizer.EscapedAppend | kml.py:148-164 | escaping a concatenation is concatenating the escapes |
| Sanitizer.EscapedHasNoInvalidChars | kml.py:158-164 | the output never holds a raw `<`, `>`, `"`, tab or newline |
| Sanitizer.EscapedIdentity | kml.py:158-164 | a text with none of `& < > " \t \n` is returned unchanged |
| Sanitizer.EscapedNotIdempotent | kml.py:160 | not idempotent: `&` becomes `&amp;`, then `&amp;amp;` |
| Sanitizer.EscapedAmpersandsStartEntities | kml.py:158-164 | every `&` in the output begins `&amp;`, `&lt;`, `&gt;` or `&quot;` |
| KmlDescription.FormatKmlPlacemarkDescription | kml.py:48-81 | the nested loops over the record and its nested mappings return `Description(record)`: the start tag, each entry's text in insertion order, then the end tag |
| KmlDescription.AppendField | kml.py:64-78 | one pass of the outer loop appends exactly that entry's pieces, scalar or nested |
| KmlDescription.AppendItems | kml.py:69-73 | the inner loop appends `SUBKEY`, ` - `, value, line break for each item, in order |
| KmlDescription.JoinedPieces | kml.py:79-80 | `''.join` of the piece list is the description |
| KmlDescription.JoinedFieldPieces | kml.py:64-78 | the pieces of one entry join to that entry's text |
| KmlDescription.JoinedGroupPieces | kml.py:65-73 | a nested entry's pieces (line break, key, line break, then each item's pieces) join to its text |
| KmlDescription.DescriptionIsCData | kml.py:59-80 | every description starts with `<![CDATA[` and ends with `]]>`; an empty record gives exactly `<![CDATA[]]>` |
| KmlDescription.FieldsTextAppend | kml.py:64-78 | the text of two runs of entries is the two texts one after the other |
| KmlDescription.FieldsInOrder | kml.py:64-78 | entry `i` is written after every earlier entry and before every later one |
| KmlDescription.FieldShown | kml.py:64-78 | every entry's text appears in the description |
| KmlDescription.ScalarShown | kml.py:75-78 | a scalar entry appears as `KEY - value<br  />\n`, with the key upper-cased and the value verbatim |
| KmlDescription.GroupHeadShown | kml.py:65-68 | a nested entry appears as a line break, `KEY`, a line break |
| KmlDescription.ItemLinesAppend | kml.py:69-73 | the lines of two runs of sub-entries are the two runs one after the other |
| KmlDescription.ItemsInOrder | kml.py:69-73 | sub-entries are written in their insertion order |
| KmlDescription.GroupItemShown | kml.py:69-73 | each sub-entry appears as `SUBKEY - value<br  />\n`, with its value verbatim |
| KmlDescription.WorkedExample | kml.py:48-81 | a record with one scalar and one two-item mapping gives the exact expected text |
| Text.Upper | kml.py:67 | upper-casing keeps the length and maps each character to its ASCII upper case, position by position |
| Text.ConcatAppend | kml.py:143-145 | joining two lists of fragments is joining each and concatenating |
| Text.ConcatContains | kml.py:143-145 | every fragment of a list appears in the joined text |
| Kml.KmlOutputParser.constructor | kml.py:18-20 | a new parser has no fragments, the given file path, and no open folder |
| Kml.KmlOutputParser.CreateKmlHeader | kml.py:83-88 | appends the fixed header as one fragment and leaves the earlier ones and the depth unchanged |
| Kml.KmlOutputParser.AddKmlPlacemark | kml.py:90-110 | appends one placemark fragment; altitude defaults to `0` and timestamp to the empty text |
| Kml.KmlOutputParser.OpenFolder | kml.py:112-121 | appends `<Folder>`, a line break and the escaped name in `<name>`; the depth goes up by one |
| Kml.KmlOutputParser.CloseFolder | kml.py:123-128 | appends `</Folder>` unconditionally; the depth goes down by one, possibly below zero |
| Kml.KmlOutputParser.CloseKmlFile | kml.py:130-137 | appends the end tags `\n</Document></kml>` |
| Kml.KmlOutputParser.WriteKmlDocFile | kml.py:139-145 | the text written is every fragment, in list order |
| Kml.PlacemarkFields | kml.py:105-110 | in the placemark the name is the escaped name; description, timestamp, longitude, latitude and altitude are verbatim; the coordinates are `lon,lat,altitude` |
| Kml.HeadShown | kml.py:26-32 | the template's name, description and `<when>` lines carry their slot values |
| Kml.LookAtShown | kml.py:33-36 | the template's longitude, latitude and altitude lines carry their slot values |
| Kml.CoordinatesShown | kml.py:41-43 | the template's `<coordinates>` line carries its slot value |
| Kml.LineShown | kml.py:26-45 | each line of the template appears in the filled-in placemark |
| Kml.PlacemarkNameIsText | kml.py:105 | the escaped name holds no `<`, `>`, `"` or line break, so it cannot break the element |
| Kml.AmpersandNameExample | kml.py:105-110 | a placemark named `A&B` shows `<name>A&amp;B</name>` |
| Kml.EscapedAmpersandName | kml.py:105 | `A&B` escapes to `A&amp;B` |
| Kml.FragmentsAppend | kml.py:83-137 | one fragment per call in call order; the depth counts opens minus closes |
| Kml.FragmentsAround | kml.py:83-137 | fragments and depth of one call, a run of calls, then one more call |
| Kml.BalancedAppend | kml.py:112-128 | two balanced call sequences one after the other are balanced |
| Kml.Nested | kml.py:112-128 | a balanced sequence between an `open_folder` and a `close_folder` is balanced |
| Kml.FlatBalanced | kml.py:83-110 | calls that open or close no folder are balanced |
| Kml.CloseWithoutOpen | kml.py:123-128 | a `close_folder` with nothing open drives the depth to -1 and is not balanced |
| OperationsMap.CleanDate | operationsmap.py:16-38 | text that does not start with eight digits comes back unchanged; otherwise the result is `INVALID` or a dashed date with `-` at 4 and 7 |
| OperationsMap.DateNumbers | operationsmap.py:32-33 | the numbers given to `datetime.date` are the year and month digits; the day is the two digits, plus a ninth digit, minus a ninth whitespace that `int()` skips (ASCII tab to CR and space, non-ASCII Unicode spaces); any other ninth character, U+001C to U+001F included, makes `int()` fail |
| OperationsMap.CleanDateEightDigits | operationsmap.py:29-36 | for exactly eight digits: `s[0:4]-s[4:6]-s[6:8]` when they name a real Gregorian date, `INVALID` otherwise |
| OperationsMap.CleanDateNinthDigit | operationsmap.py:30-35 | a ninth digit joins the day, both in the `int()`/`datetime.date` check and in the output |
| OperationsMap.CleanDateNinthSpace | operationsmap.py:30-35 | a ninth whitespace character that `int()` skips (ASCII tab to CR and space, non-ASCII Unicode spaces; not U+001C to U+001F) is ignored by the `int()`/`datetime.date` check and kept in the output |
| OperationsMap.CleanDateBadNinth | operationsmap.py:30-35 | any other ninth character gives `INVALID` |
| OperationsMap.CleanDateShape | operationsmap.py:30 | a valid eight-digit date becomes ten characters, with dashes at 4 and 7 and the digits in order around them |
| OperationsMap.CleanDateIdempotent | operationsmap.py:24-38 | no output starts with eight digits, so cleaning twice is cleaning once |
| OperationsMap.CleanDateParts | operationsmap.py:29-36 | the eight-digit rule with year, month and day given separately |
| OperationsMap.ImpossibleDayExample | operationsmap.py:31-35 | 1972-02-30 is `INVALID` |
| OperationsMap.CenturyExample | operationsmap.py:31-35 | 1900-02-29 is `INVALID` (a century year not divisible by 400) |
| OperationsMap.LeapDayExample | operationsmap.py:30-36 | 2000-02-29 is kept |
| OperationsMap.YearZeroExample | operationsmap.py:31-35 | year 0 is `INVALID` |
| OperationsMap.MonthThirteenExample | operationsmap.py:31-35 | month 13 is `INVALID` |
| OperationsMap.NinthDigitExample | operationsmap.py:30-36 | `201001031` becomes `2010-01-031` |
| OperationsMap.NinthDotExample | operationsmap.py:30-35 | `20100103.` is `INVALID` although 2010-01-03 exists |
| OperationsMap.NinthSeparatorExample | operationsmap.py:30-35 | `20100101` followed by U+001C is `INVALID`: `int()` does not skip that separator |
| OperationsMap.DashedExample | operationsmap.py:29-38 | an already dashed date passes through |
| OperationsMap.PointName | operationsmap.py:72-76 | the placemark name starts with the aircraft; it is the aircraft alone exactly when there is no callsign; with a callsign, the aircraft is followed by two spaces and the callsign |
| OperationsMap.CreateMap | operationsmap.py:62-85 | the parser ends holding the fragments of header, outer folder, one folder per mission type with its placemarks, outer close and end tags; the depth is 0; the written text is the joined list |
| OperationsMap.AddMissionTypes | operationsmap.py:65-82 | the loop over mission types appends each type's folder, in order |
| OperationsMap.AddMissionType | operationsmap.py:66-82 | one mission type: open its folder, one placemark per mission, close it |
| OperationsMap.AddMissionPlacemarks | operationsmap.py:69-81 | the loop over missions appends one placemark per mission, in table order, and leaves the depth unchanged |
| OperationsMap.AddMission | operationsmap.py:70-81 | one mission's placemark: its description, name, coordinates, altitude `0` and mission date |
| OperationsMap.MissionCallsFlat | operationsmap.py:69-81 | placemark calls neither open nor close folders |
| OperationsMap.AllTypeCallsBalanced | operationsmap.py:65-82 | the per-type folders are balanced at every prefix |
| OperationsMap.CreateMapBalanced | operationsmap.py:63-84 | the whole call sequence is balanced at every prefix and ends at depth 0 |
| OperationsMap.CreateMapFragments | operationsmap.py:63-84 | the fragments are the header, the outer folder's fragments, then the end tags |
| OperationsMap.CreateMapDocument | operationsmap.py:63-85 | the written map starts with the KML header and ends with the end tags |
| OperationsMap.TypeFragments | operationsmap.py:66-82 | a mission type's fragments are its folder opening, its placemarks and `</Folder>` |
| PythonDate.Slice | operationsmap.py:30 | Python slicing cuts bounds past the end back to the length and keeps characters in order |
| PythonDate.PyIntOfDigits | operationsmap.py:33 | `int()` reads a run of digits as its decimal value |
| PythonDate.PyIntTrailingSpace | operationsmap.py:33 | `int()` ignores trailing whitespace: ASCII tab, LF, VT, FF, CR and space, or a non-ASCII Unicode space; the separators U+001C to U+001F are not among them |
| PythonDate.PyIntRejectsTrailing | operationsmap.py:33 | `int()` rejects ASCII digits followed by any character that is neither an ASCII digit nor whitespace it skips, an underscore or U+001C to U+001F included |
| PythonDate.LeapDay | operationsmap.py:32-33 | February 29 exists exactly in leap years |
| TimeSeries.CleanDate | timeseries.py:14-28 | the time-series copy agrees with the operations-map `clean_date` on every input |

## Left out

- `write_kml_doc_file` does not open or write a file here. `WriteKmlDocFile` returns the text the file would receive, and `kmlfilepath` is only stored.
- All pandas code is left out, and so are `str()` coercion, plotting and CSV input:
  - the column drop in `create_map` and its `iterrows` over a DataFrame;
  - `split_by_mission_type`, `linebacker2_map` and `main`;
  - everything else in timeseries.py besides `clean_date`.
- `create_map` receives its missions as a sequence of `MissionType` values. Each `Mission` is a record already rendered as text, plus the columns that `create_map` reads from it. A callsign that is not text is `None`.
- `str()` of arbitrary values is not modelled: keys, values, longitude and latitude are text already.
- `Text.Upper`: upper-cases ASCII letters only, character by character. Python's `str.upper` covers all of Unicode.
- `OperationsMap.StartsWithEightDigits` accepts ASCII digits only. Python's `\d` and `int()` also accept other Unicode decimal digits.
- `PythonDate.PyInt` reads ASCII digits only. Python's `int("01٣")` is 13, where the model gives `None`.
- `OperationsMap.CleanDate` treats a ninth character that is a non-ASCII decimal digit as a bad character. For `20100101٣` Python returns `2010-01-01٣`, where the model gives `INVALID`. The same holds for `TimeSeries.CleanDate`.
- The `lineplacemarktemplate` and `styletemplate` attributes named in the class docstring do not exist in the code, so nothing models them.
- The header and placemark templates are constants of the module, not attributes of each parser.
- The parser has no runtime check of call order (a second header, a `close_folder` with nothing open), because the code has none. The ghost depth records balance without enforcing it.
- `create_map`'s two loops are split into the methods `AddMissionTypes`, `AddMissionType`, `AddMissionPlacemarks` and `AddMission`. `format_kml_placemark_description`'s loops are split into `AppendField` and `AppendItems`. Each loop body and each loop keeps its own contract.
