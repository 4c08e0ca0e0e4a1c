# Cross-source reconciliation and record flattening, in Dafny

This project models two scripts of an antibiotic-concentration pipeline and
proves properties of the models.

**Cross-validation** (`Merge-Cross/Merge-Cross.py`) reads several tables
("sources") of measurements and produces one table with a row per
(chemical name, water type) key. The model covers every step after the files
are read:
- the name is normalised and the first record per key is kept in each source;
- a number is pulled out of each free-text concentration with a regular
  expression;
- the key universe is built from all sources;
- each source is left-joined onto the universe in turn;
- each row gets a `_merge` provenance string naming the sources that hold a
  concentration text for it;
- each row gets an `ALL MATCH` verdict saying whether the extracted numbers
  agree;
- the output columns are selected.

**Flattening** (`DS/json2excel_new4.py`, `json_to_excel`) walks one decoded
JSON document:
- its first paper;
- under it, four fixed iteration types;
- under each, two speech acts, 话术一 and 话术二;
- under each, a list or a dict of records.

It emits tagged copies of the records, splits the combined "Value and Unit"
and "Location & Date" fields, and reindexes the records to ten standard
columns.

Files:
- `wrappers.dfy`: `Option` and `Result`.
- `text.dfy`: the Python `str` operations the scripts use (`strip`, `lower`,
  `in`, `find`, `split`/`rsplit` with a limit of one, `replace`, `lstrip`,
  `join`, and `str` of a natural number).
- `numeric.dfy`: the regex
  `[+-]?(\d+(\.\d*)?([eE][+-]?\d+)?|[<>]\s*\d+(\.\d*)?)` as a scanner proved
  to return the leftmost-longest match, `float()` of the cleaned match, and
  `np.isclose`. `numeric_examples.dfy` works through typical cells.
- `dedup.dfy`: `drop_duplicates(keep='first')` on a key.
- `merge.dfy`: key normalisation, the loading loop, the key universe, the
  left joins.
- `report.dfy`: `_merge`, `ALL MATCH`, the output columns, and the whole
  pipeline as a method.
- `json.dfy`: decoded JSON. Objects are association lists in insertion order.
  Python's `d.get`, `d[k]`, `k in x`, `d.pop`, `d[k] = v`, iteration, `.copy()`
  and truth testing are modelled, including the exception each raises on a
  value of the wrong type.
- `flatten.dfy`: the flattener as specification functions, plus the
  imperative walk (`JsonToExcel` and its step methods) proved equal to them.
  `flatten_properties.dfy` proves what the output promises, and
  `flatten_examples.dfy` works through two concrete cases.

Every imperative loop of the sources is a `method` with loop invariants,
proved equal to a specification function. Those methods are `LoadSources`,
`MergeSources`, `MergeColumn`, `CheckAllMatch`, `OutputColumns`, `Summarise`,
`AppendRecords`, `FindWs2List` and `AppendPaper`. The properties are lemmas
about those functions.

Where the code and the design description of the system differ, the model
follows the code:
- `ALL MATCH` uses `np.isclose(c, first, atol=1e-9)`, which keeps numpy's
  default `rtol=1e-5`. Closeness is therefore `|c - first| <= 1e-9 + 1e-5·|first|`,
  not a purely absolute 1e-9, and it depends on the order of the sources.
- A source is listed in `_merge` when its concentration text is present. A
  key whose record in a source has no text does not list that source.
- The labels `df1, df2, …` count the sources that were loaded, not the file
  positions. A skipped file shifts the labels of the files after it.
- The regex's optional sign applies to both alternatives. The `<`/`>`
  alternative never takes an exponent. `\d+(\.\d*)?` accepts a trailing point.

The flattener's unit split follows the code too. The text is split at its last
space, so `"5.0 ng L−1"` gives Value `"5.0 ng"` and Unit `"L−1"` (see
`SplitValueUnitAtLastSpace`).

## Model

| member | source | states |
|---|---|---|
| Numeric.ScanSound | Merge-Cross/Merge-Cross.py:74 | what the scanner reports at a position is a match of the pattern starting there |
| Numeric.ScanLongest | Merge-Cross/Merge-Cross.py:74 | the scanner finds a match wherever one starts; no match starting there is longer, and one as long is the scanner's (the greedy engine's choice) |
| Numeric.SearchLeftmostLongest | Merge-Cross/Merge-Cross.py:74 | `re.search` reports nothing only when the text holds no match; otherwise its match starts no later than any other and is the longest at that start |
| Numeric.ConvertMatch | Merge-Cross/Merge-Cross.py:78-79 | `float` of the match with `<`/`>` removed and stripped is the match's number, except for a sign followed by a marker and whitespace (`-< 3`), which it refuses |
| Numeric.NumericPartShape | Merge-Cross/Merge-Cross.py:78 | the cleaned text is the match from its digits on, preceded by the sign and the whitespace after the marker when there is a sign |
| Numeric.ExtractFound | Merge-Cross/Merge-Cross.py:61-82 | the extraction of a cell is the number of the leftmost match of its stripped text, or absent when `float` refuses it |
| Numeric.ExtractNoDigit | Merge-Cross/Merge-Cross.py:74-82 | a text without an ASCII digit extracts to nothing |
| NumericExamples.PlainExtract | Merge-Cross/Merge-Cross.py:74-79 | `12.5 mg/L` extracts to 12.5 |
| NumericExamples.BoundExtract | Merge-Cross/Merge-Cross.py:74-79 | `< 0.1 ng/L` extracts to 0.1 |
| NumericExamples.RangeExtract | Merge-Cross/Merge-Cross.py:74-79 | `1.2-3.4 μg/L` extracts to its first number, 1.2 |
| NumericExamples.BoundExpExtract | Merge-Cross/Merge-Cross.py:74-79 | `<1.5e3` extracts to 1.5: the bounded alternative takes no exponent |
| NumericExamples.ScientificExtract | Merge-Cross/Merge-Cross.py:74-79 | `1.5E-3 μg/L` extracts to 0.0015 |
| NumericExamples.SignedBoundExtract | Merge-Cross/Merge-Cross.py:74-81 | `-< 3` extracts to nothing, since `- 3` is not a float |
| Merge.CleanName | Merge-Cross/Merge-Cross.py:57 | the key name has no upper-case ASCII letter and no surrounding whitespace; a missing name is the text `nan` |
| Merge.CleanNameIdempotent | Merge-Cross/Merge-Cross.py:57 | cleaning a cleaned name changes nothing |
| Merge.CleanNameIgnoresCase | Merge-Cross/Merge-Cross.py:57 | names equal up to ASCII case get the same key |
| Merge.CleanNameIgnoresSpace | Merge-Cross/Merge-Cross.py:57 | whitespace added before and after any name does not change its key |
| Merge.Prepare | Merge-Cross/Merge-Cross.py:57-84 | a prepared row keys on (cleaned name, raw water type), keeps the concentration text, and has no number without a text |
| Dedup.DropDuplicatesKeepsFirsts | Merge-Cross/Merge-Cross.py:87 | `drop_duplicates(keep='first')` keeps exactly the records that are first with their key, in their order |
| Dedup.DropDuplicatesShape | Merge-Cross/Merge-Cross.py:87 | the result has one record per key and the same keys as the input |
| Dedup.DropDuplicatesIdempotent | Merge-Cross/Merge-Cross.py:87 | dropping duplicates twice is dropping them once |
| Dedup.DistinctUnchanged | Merge-Cross/Merge-Cross.py:87 | a sequence with distinct keys is left as it is |
| Merge.LoadedShape | Merge-Cross/Merge-Cross.py:34-95 | one source per readable file, each with distinct keys; none at all exactly when no file is readable |
| Merge.LoadSources | Merge-Cross/Merge-Cross.py:34-89 | the loading loop appends exactly the prepared, deduplicated sources of the readable files, in order |
| Merge.UniverseFirstSeen | Merge-Cross/Merge-Cross.py:99-100 | the key universe is the keys of all sources with duplicates dropped, first-seen order |
| Merge.UniverseKeys | Merge-Cross/Merge-Cross.py:99-100 | the universe holds each key of each source exactly once and nothing else |
| Merge.MatchesDistinct | Merge-Cross/Merge-Cross.py:115-117 | a right side with distinct keys matches a key with at most one row, the one holding it |
| Merge.LeftJoinDistinct | Merge-Cross/Merge-Cross.py:115-117 | a left join onto a source with distinct keys keeps one row per left row, in order, and adds that key's cell |
| Merge.JoinedShape | Merge-Cross/Merge-Cross.py:105-117 | after all joins: one row per universe key, in order, with one cell per source, cell i being source i's record for the key |
| Merge.MergeSources | Merge-Cross/Merge-Cross.py:105-117 | the loop of left joins computes the joined table |
| Merge.LookupFound | Merge-Cross/Merge-Cross.py:115-117 | a source holding a key gives that record's text and number as the cell |
| Merge.LookupMissing | Merge-Cross/Merge-Cross.py:115-117 | a source without the key gives an empty cell |
| Report.Label | Merge-Cross/Merge-Cross.py:106 | a label is `df` followed by digits and holds no comma |
| Report.LabelInjective | Merge-Cross/Merge-Cross.py:106 | different sources get different labels |
| Report.TaggedJoin | Merge-Cross/Merge-Cross.py:121-129 | `_merge_list` is empty, or a comma followed by the labels joined with commas |
| Report.StripTagged | Merge-Cross/Merge-Cross.py:131 | `lstrip(',')` removes exactly the one leading comma |
| Report.ProvenanceEmpty | Merge-Cross/Merge-Cross.py:121-131 | no label is listed exactly when no source has a concentration text for the row |
| Report.ProvenanceMembers | Merge-Cross/Merge-Cross.py:121-131 | source i's label is listed exactly when its concentration text is present |
| Report.ProvenanceRoundTrip | Merge-Cross/Merge-Cross.py:121-131 | `_merge` is empty exactly when no text is present, and splitting it at commas gives back the labels |
| Report.MergeColumn | Merge-Cross/Merge-Cross.py:121-131 | the loop over sources and rows builds, for every row, the comma-joined labels of the sources with a text |
| Report.AllMatch | Merge-Cross/Merge-Cross.py:136-151 | the verdict is blank iff fewer than two numbers are present, and `T` iff at least two are and all are close to the first |
| Report.CheckAllMatch | Merge-Cross/Merge-Cross.py:136-155 | the collecting loop and the early-exit comparison loop compute that verdict from the present numbers in source order |
| Report.SameValuesMatch | Merge-Cross/Merge-Cross.py:151 | sources that give the same number agree |
| Report.RelativeToleranceExample | Merge-Cross/Merge-Cross.py:151 | 100000 and 100000.5 agree: the tolerance is relative as well as absolute |
| Report.DisagreementExample | Merge-Cross/Merge-Cross.py:151 | 5 and 7 disagree |
| Report.OrderMattersExample | Merge-Cross/Merge-Cross.py:151 | 1000000 then 999990.00005 agree, the reverse order does not: the tolerance scales with the first value, so the test is not symmetric |
| Report.WantedColumns | Merge-Cross/Merge-Cross.py:162-168 | n + 3 columns: `_merge`, then the name, then source i's concentration column at place 2 + i, then `ALL MATCH` last |
| Report.SelectExisting | Merge-Cross/Merge-Cross.py:172 | a column is selected exactly when it is wanted and exists |
| Report.OutputColumns | Merge-Cross/Merge-Cross.py:162-172 | the loop building the wanted list, then the selection, gives the selected columns |
| Report.WantedColumnsExist | Merge-Cross/Merge-Cross.py:162-173 | every wanted column exists in the merged frame, so all are output in order |
| Report.JoinedRows | Merge-Cross/Merge-Cross.py:99-117 | row r of the joined table is universe key r with each source's cell for it |
| Report.Summarise | Merge-Cross/Merge-Cross.py:121-155 | each output row is the provenance, name, texts and verdict of its joined row |
| Report.Reconcile | Merge-Cross/Merge-Cross.py:99-173 | the output has the wanted columns and one row per universe key, in order, each summarising that key's cells |
| Report.CrossValidate | Merge-Cross/Merge-Cross.py:30-173 | no files and no readable file are the two failures; otherwise the output is built from the loaded sources as `Reconcile` states |
| JsonData.Index | DS/json2excel_new4.py:35 | `x[k]` succeeds exactly on a dict holding k, with k's value; a missing key raises `KeyError`, a non-dict `TypeError` |
| JsonData.Iterate | DS/json2excel_new4.py:45 | `for x in v` visits a list's elements, a dict's keys or a string's characters, and raises `TypeError` on anything else |
| JsonData.CopyRecord | DS/json2excel_new4.py:46 | only a dict survives `.copy()` followed by string-keyed updates, and its copy holds its fields |
| JsonData.Pop | DS/json2excel_new4.py:51 | `pop(k, default)` returns k's value or the default and removes k, leaving every other key as it was |
| JsonData.Set | DS/json2excel_new4.py:55-56 | after `d[k] = v`, k reads v and every other key reads as before |
| JsonData.SetKeys | DS/json2excel_new4.py:71-72 | assigning an existing key keeps the key order; a new key goes last |
| JsonData.Remove | DS/json2excel_new4.py:51 | removal leaves no binding of the key and keeps every other key's value |
| Flatten.SplitValueUnitParts | DS/json2excel_new4.py:51-59 | after `–` becomes `-`, a text with a space and a known unit gives the stripped parts around a space with no space after it; otherwise Value is the whole stripped text and Unit is empty |
| Flatten.SplitValueUnitAtLastSpace | DS/json2excel_new4.py:52-56 | with a unit present, the split is at the last space, so the text after it, stripped, is the Unit |
| Flatten.SplitValueUnitNoSpace | DS/json2excel_new4.py:57-59 | a text without a space is all Value, stripped, with an empty Unit |
| Flatten.SplitLocationDate | DS/json2excel_new4.py:63-69 | the split fails with `IndexError` exactly when the text has a comma but no `, ` |
| Flatten.SplitLocationDateParts | DS/json2excel_new4.py:61-69 | a text holding `, ` gives the stripped parts around its first `, `; a text without a comma is all Location with an empty Date |
| Flatten.SplitLocationDateAtFirst | DS/json2excel_new4.py:63-66 | the parts around the first `, ` are Location and Date |
| Flatten.ValueFieldEffect | DS/json2excel_new4.py:50-59 | the step fails exactly on a non-string value; otherwise the key is removed, Value and Unit are the split, no other key changes, and a record without the key is unchanged |
| Flatten.LocationFieldEffect | DS/json2excel_new4.py:61-69 | the step fails exactly on a non-string value or a failing split; otherwise the key is removed, Location and Date are the split, no other key changes, and a record without the key is unchanged |
| Flatten.PopValueUnit | DS/json2excel_new4.py:50-59 | the in-place pop-and-assign sequence computes the Value/Unit step |
| Flatten.PopLocationDate | DS/json2excel_new4.py:61-69 | the in-place pop-and-assign sequence computes the Location/Date step |
| Flatten.TagFields | DS/json2excel_new4.py:71-72 | tagging writes `Iteration_Type` and `Speech_Act` and leaves every other key alone |
| Flatten.ProcessRecord | DS/json2excel_new4.py:45-73 | the body of the record loop computes the copied, split and tagged record |
| Flatten.ProcessedFails | DS/json2excel_new4.py:46-69 | a record fails exactly when it is not a dict, or, with splitting, its "Value and Unit" is not a string or its "Location & Date" is not a string or does not split |
| Flatten.ProcessedValueUnit | DS/json2excel_new4.py:50-59 | an emitted record from one with "Value and Unit" has that key removed and holds the Value and Unit of its split |
| Flatten.ProcessedLocationDate | DS/json2excel_new4.py:61-69 | an emitted record from one with "Location & Date" has that key removed and holds the Location and Date of its split |
| Flatten.ProcessedKeepsOthers | DS/json2excel_new4.py:46-73 | an emitted record carries the iteration type and speech act, and every key the flattener does not write keeps its value |
| Flatten.CollectFromSpec | DS/json2excel_new4.py:45-73 | a list's records are all its elements' records in order when every element succeeds; otherwise the first failure aborts |
| Flatten.AppendRecords | DS/json2excel_new4.py:45-73 | the record loop appends to `all_records` what the list yields, or aborts with the first failure |
| Flatten.Ws2ListFromSpec | DS/json2excel_new4.py:92-97 | the search yields the value of the first candidate key that is not null, and an empty list when there is none |
| Flatten.FindWs2List | DS/json2excel_new4.py:92-97 | the search loop with `break` computes that value |
| Flatten.Lookup | DS/json2excel_new4.py:34-35 | `if k in d: d[k]` on a dict gives k's value or nothing |
| Flatten.AppendFirstAct | DS/json2excel_new4.py:38-86 | the 话术一 block appends that act's records, or aborts |
| Flatten.AppendSecondAct | DS/json2excel_new4.py:89-133 | the 话术二 block appends that act's records, or aborts |
| Flatten.AppendIteration | DS/json2excel_new4.py:34-133 | one pass of the iteration-type loop appends that type's records, 话术一 then 话术二 |
| Flatten.AppendPaper | DS/json2excel_new4.py:33-133 | the loop over the iteration types collects, in their order, every type's records into one list, or stops at the first exception |
| Flatten.Reindex | DS/json2excel_new4.py:140-147 | the table has the ten standard columns and one row of ten cells per record |
| Flatten.JsonToExcel | DS/json2excel_new4.py:24-147 | the whole walk computes the table of the document's records, or the exception that aborts it |
| FlattenProperties.EmitSpec | DS/json2excel_new4.py:45-46 | a container's records are its elements processed one by one, in order, and it fails exactly when iterating or some element fails |
| FlattenProperties.EmitTagged | DS/json2excel_new4.py:71-72 | every record a container yields carries its iteration type and speech act |
| FlattenProperties.SecondActChoice | DS/json2excel_new4.py:92-133 | 话术二 uses the first non-null candidate key: a truthy value has its elements emitted, split; a falsy one or none leaves the dict itself as the one record; a non-dict yields nothing |
| FlattenProperties.ActTagged | DS/json2excel_new4.py:38-133 | every record of a speech act is tagged with its iteration type and that act |
| FlattenProperties.IterationTagged | DS/json2excel_new4.py:37-133 | one iteration type's records carry it, and its 话术一 records all precede its 话术二 records |
| FlattenProperties.RankOf | DS/json2excel_new4.py:31 | the four iteration types are distinct, so each has its own place in the order |
| FlattenProperties.PaperOrdered | DS/json2excel_new4.py:31-35 | records are grouped by iteration type in the fixed order, 话术一 before 话术二 inside each |
| FlattenProperties.RecordsOrdered | DS/json2excel_new4.py:24-35 | every record of a document is tagged with an iteration type and a speech act, in that group order |
| FlattenProperties.NoIterationTypesNoRecords | DS/json2excel_new4.py:33-34 | a paper without any iteration-type key yields no records |
| FlattenProperties.OnlyIterationTypesMatter | DS/json2excel_new4.py:33-35 | two papers that agree on the iteration-type keys yield the same records or the same failure |
| FlattenProperties.ReindexTags | DS/json2excel_new4.py:140-147 | in a table of tagged records every `Iteration_Type` cell names an iteration type and every `Speech_Act` cell one of the two acts |
| FlattenProperties.TableCells | DS/json2excel_new4.py:136-147 | the table exists exactly when the records do; it has the standard header and one row per record, each cell the record's binding for its column (`None` when the key is missing, `Some(Null)` when it is bound to `null`), with the tag cells as above |
| FlattenExamples.PlaceAndYearUnspaced | DS/json2excel_new4.py:63-66 | `Beijing,2019` has a comma but no `, `, so taking the second part raises `IndexError` |
| FlattenExamples.DocumentRecords | DS/json2excel_new4.py:24-86 | a document whose one paper has a plain dict under `deepseek_chat`/话术一 yields exactly that dict, tagged |

## Left out

- Reading the Excel, JSON and docx files, listing the folder, writing the
  results and printing messages are not modelled. A file that cannot be read,
  or that has fewer than five columns, is an absent entry in the list of files
  given to `CrossValidate`. A flattener failure is the `Fault` it raises,
  standing for the message printed by the catch-all handler.
- Numbers are exact rationals (sign, digits, decimal exponent). IEEE rounding,
  overflow to infinity and the float arithmetic inside `np.isclose` are not
  modelled.
- A cell is a text or missing. `str()` of a non-text Excel cell, such as the
  float `5.0` read from a numeric cell, is not modelled.
- `\d` and `strip` cover ASCII digits and Python's whitespace set only. Other
  Unicode digits are not modelled, and `lower` folds only ASCII letters.
- A missing water type is one comparable value, as pandas treats NaN keys in
  `drop_duplicates` and `merge`. The per-file `df_name` and `source_file`
  columns do not reach the output and are not modelled.
- Decoded JSON objects are association lists in which the first binding of a
  key wins. The JSON parser, duplicate-key handling and number formats are not
  modelled.
- In the flattener's table, a missing field is the cell `None` and a field
  bound to JSON `null` is the cell `Some(Null)`; pandas renders both as empty.
  Columns outside the ten standard ones are dropped, as `reindex` does.
- A list element under a record list gets past `.copy()`, and then its first
  string-keyed `pop` or assignment raises `TypeError`. The model raises it at
  once, which gives the same outcome.
- Records are values, so "input records are not modified" holds by
  construction and is not stated as a lemma.
