# XConvert conversion engine, modelled in Dafny

This project models the conversion engine of the XConvert file-conversion service and proves properties of that model. The engine is the Java code that turns an uploaded CSV or JSON file into JSON, CSV, XML or plain text, runs batches of such conversions, and tracks the state of each conversion task. The model covers five parts:

- **JSON normaliser** (`json_fixer.dfy`, module `JsonFixer`). `fixJson` forces any text into the shape of a JSON array. `escapeJsonString` is kept as a loop over a builder and proved equal to the function `Escaped`.
- **Converters and dispatch** (`formats.dfy`, `conversion.dfy`, modules `Formats` and `Conversion`). Each of the six direct converters (CSV to JSON, XML and TXT; JSON to CSV, TXT and XML) is kept as the loops that append to a builder. Each is proved equal to a function that says what the output is. Lemmas then state what those outputs look like: one record per data line, ids counting from 1, one cell per header, safe XML element names. `ConvertFile` is the size- and pair-based dispatch with the Hadoop fallback. The Java and Commons IO string operations it relies on are in `text.dfy` (module `Text`): `trim`, `split(",")`, `toLowerCase`, `getExtension`, `getBaseName`.
- **Batch state machine** (`batch_model.dfy`, module `BatchModel`). `BatchJob` is a class whose methods update its status and item list. Its `updateStatus` aggregation rule is the function `Aggregate`, proved equal to its reading over items. `BatchJobItem` is a record value.
- **Batch orchestrator** (`batch_service.dfy`, module `BatchService`). `BatchJobService` is a class holding the job registry and the upload directory. Items are processed one by one in list order, and the whole loop is proved equal to the function `ProcessedAll`.
- **Task registry and status codec** (`tasks.dfy`, `controller.dfy`, modules `Tasks` and `Controller`). `TaskService` is a map with the default `unknown`. The controller drives the task lifecycle of an upload, decodes the `completed:` and `error:` prefixes back out, and picks a download's content type.

Outcomes that the Java code signals with an exception or a `null` are `Result` and `Option` values (`common.dfy`). Anything outside the engine is a parameter: the JSON parser, the Hadoop job, the batch converter, fresh ids, the stored file and the clock.

## Notes on the code

Five behaviours of the code that the model keeps as they are:

- `fixJson`'s last fallback is reachable. Trimmed text that starts with `[` but does not end with `]` gets there and is wrapped in brackets (`JsonFixer.FixJsonFallbackReachable`).
- `TaskService.setStatus` has no guard. A later write replaces a `completed:` or `error:` status like any other (`Tasks.TaskService.SetStatus`).
- Hadoop is tried first only for CSV to JSON and JSON to CSV, and only above 10 MiB. A pair without a direct converter goes to Hadoop whatever its size, and Hadoop's exception is then the result (`Conversion.ConvertFile`).
- `processBatchJob` sets `processing` and calls `updateStatus` only after each item. So a job without items stays `processing`, although the aggregation rule gives `failed` for an empty list (`BatchModel.AggregateEmpty`, `BatchService.BatchJobService.ProcessBatchJob`).
- The batch records `baseName + "." + targetFormat` as an item's output name, while the conversion writes `baseName + "." + targetFormat.toLowerCase()`. The two agree exactly when the target format is already lower case (`BatchService.BatchOutputNameAgrees`).

## Model

| member | source | states |
|---|---|---|
| JsonFixer.FixJson | xconvert/src/main/java/com/xconvert/util/JsonFixer.java:10-48 | every result is at least two chars long, starts with `[` and ends with `]` |
| JsonFixer.FixTrimmed | xconvert/src/main/java/com/xconvert/util/JsonFixer.java:16-47 | the tests on the trimmed text always give a text of at least two chars that starts with `[` and ends with `]` |
| JsonFixer.FixJsonBlank | xconvert/src/main/java/com/xconvert/util/JsonFixer.java:14-19 | empty text, or text made only of chars up to U+0020, becomes `[]` |
| JsonFixer.FixJsonArray | xconvert/src/main/java/com/xconvert/util/JsonFixer.java:21-28 | trimmed text that starts with `[` and ends with `]` is returned trimmed and otherwise unchanged |
| JsonFixer.FixJsonObject | xconvert/src/main/java/com/xconvert/util/JsonFixer.java:30-38 | trimmed text that starts with `{` becomes `[` + text + `]`, whether or not it ends with `}` |
| JsonFixer.FixJsonScalar | xconvert/src/main/java/com/xconvert/util/JsonFixer.java:40-44 | trimmed text that starts with neither `[` nor `{` becomes `[{"value":"` + escaped text + `"}]` |
| JsonFixer.FixJsonFallback | xconvert/src/main/java/com/xconvert/util/JsonFixer.java:46-47 | trimmed text that starts with `[` but does not end with `]` reaches the last fallback and is wrapped in brackets |
| JsonFixer.FixJsonFallbackReachable | xconvert/src/main/java/com/xconvert/util/JsonFixer.java:46-47 | the fallback is reachable: `[1, 2` becomes `[[1, 2]` |
| JsonFixer.FixJsonIdempotent | xconvert/src/main/java/com/xconvert/util/JsonFixer.java:10-48 | fixing an already fixed text changes nothing |
| JsonFixer.FixJsonBracketed | xconvert/src/main/java/com/xconvert/util/JsonFixer.java:21-28 | a text bracketed by `[` and `]` is returned unchanged |
| JsonFixer.EscapeJsonString | xconvert/src/main/java/com/xconvert/util/JsonFixer.java:50-83 | the builder loop returns `Escaped(input)`: each char replaced by its escape, in order |
| JsonFixer.EscapedAppend | xconvert/src/main/java/com/xconvert/util/JsonFixer.java:52-81 | escaping works char by char, so it distributes over concatenation |
| JsonFixer.EscapedLength | xconvert/src/main/java/com/xconvert/util/JsonFixer.java:50-83 | the output is as long as the input plus the number of the eight special chars |
| JsonFixer.EscapedPlain | xconvert/src/main/java/com/xconvert/util/JsonFixer.java:78-79 | a text with none of the eight special chars is copied unchanged |
| JsonFixer.UnescapeEscaped | xconvert/src/main/java/com/xconvert/util/JsonFixer.java:50-83 | decoding the escapes as a JSON parser does gives the input back, so no information is lost |
| Text.Trim | xconvert/src/main/java/com/xconvert/util/JsonFixer.java:14 | Java `trim`: the result is the slice of the input left after removing chars of at most U+0020 before and after it; it is empty or starts and ends with a char above U+0020, and it is empty exactly when every char is at most U+0020 |
| Text.TrimUnchanged | xconvert/src/main/java/com/xconvert/util/JsonFixer.java:14 | a text that already starts and ends with a char above U+0020 is not changed by `trim` |
| Text.SplitAll | xconvert/src/main/java/com/xconvert/service/ConversionService.java:143 | splitting at every delimiter gives one field more than there are delimiters, none holding the delimiter |
| Text.JoinSplitAll | xconvert/src/main/java/com/xconvert/service/ConversionService.java:143 | joining the fields with the delimiter gives the text back |
| Text.JavaSplit | xconvert/src/main/java/com/xconvert/service/ConversionService.java:143 | Java `split(",")`: no field holds a comma, a text without a comma is its own only field, and there are no trailing empty fields |
| Text.JavaSplitJoin | xconvert/src/main/java/com/xconvert/service/ConversionService.java:153 | splitting a join of comma-free fields gives the fields back, without the trailing empty ones |
| Text.FileName | xconvert/src/main/java/com/xconvert/service/ConversionService.java:101 | the name part of a path holds no separator, ends the path, and is the whole path or is preceded by `/` or `\` |
| Text.Extension | xconvert/src/main/java/com/xconvert/service/BatchJobService.java:58 | the extension holds no `.` and no separator |
| Text.BaseName | xconvert/src/main/java/com/xconvert/service/ConversionService.java:101 | the base name holds no separator |
| Text.BaseNameExtension | xconvert/src/main/java/com/xconvert/service/ConversionService.java:101 | base name, `.` and extension give the name back; a name without `.` is its own base name with an empty extension |
| Text.BuiltNameParts | xconvert/src/main/java/com/xconvert/service/BatchJobService.java:58-59 | a stored name `id.ext` has base name `id` and extension `ext` when neither holds a separator and `ext` holds no `.` |
| Text.DecimalString | xconvert/src/main/java/com/xconvert/service/ConversionService.java:266 | a record number is written as a non-empty string of decimal digits that denotes the number, with no leading zero |
| Text.Lower | xconvert/src/main/java/com/xconvert/service/ConversionService.java:101 | Java `toLowerCase` on ASCII: same length, no upper-case ASCII letter left, each upper-case letter replaced by the letter 32 code points above it and every other char kept |
| Formats.CsvRecordsShape | xconvert/src/main/java/com/xconvert/service/ConversionService.java:143-164 | one record per data line, each with min(#header fields, #line fields) pairs of trimmed header field and trimmed value in header order |
| Formats.CsvRecords | xconvert/src/main/java/com/xconvert/service/ConversionService.java:143-164 | one record per data line; the header line gives none |
| Formats.JsonObjectJoin | xconvert/src/main/java/com/xconvert/service/ConversionService.java:154-166 | an object is `  {` and a line break, the members joined by `,` and a line break, a line break unless there are none, then `  }` |
| Formats.ElementName | xconvert/src/main/java/com/xconvert/service/ConversionService.java:215-218 | every sanitised element name is non-empty, starts with an ASCII letter and holds only ASCII letters, digits and `_` |
| Formats.ElementNamePrefix | xconvert/src/main/java/com/xconvert/service/ConversionService.java:215-218 | `field_` is put in front exactly when the key is empty or does not start with an ASCII letter |
| Formats.ElementNameStable | xconvert/src/main/java/com/xconvert/service/ConversionService.java:448-451 | a safe name without `_` is kept, and sanitising a sanitised name changes nothing |
| Formats.XmlDocumentOf | xconvert/src/main/java/com/xconvert/service/ConversionService.java:202-223 | one `record` per record with ids 1, 2, ... in order, one child per field, each with a safe name and the field's value |
| Formats.Lookup | xconvert/src/main/java/com/xconvert/service/ConversionService.java:345-346 | `has`/`get`: absent exactly when no pair has the key, otherwise the value of a pair with that key |
| Formats.KeySetMembers | xconvert/src/main/java/com/xconvert/service/ConversionService.java:318-325 | a key is in the header union exactly when some object has it |
| Formats.CsvRowCells | xconvert/src/main/java/com/xconvert/service/ConversionService.java:343-359 | a row has one cell per header: the value, or an empty cell when the object lacks the key; with comma-free values, splitting the row gives the cells back without trailing empty ones |
| Formats.CsvDocumentLines | xconvert/src/main/java/com/xconvert/service/ConversionService.java:331-360 | without line breaks in keys and values the CSV text has the header line plus exactly one line per object, each ended by a line break |
| Conversion.WriteJsonObject | xconvert/src/main/java/com/xconvert/service/ConversionService.java:154-166 | the inner loop of CSV to JSON writes exactly `JsonObject(rec)` |
| Conversion.WriteTxtBlock | xconvert/src/main/java/com/xconvert/service/ConversionService.java:266-275 | the inner loop of CSV to TXT writes exactly `TxtBlock(n, rec)`: `Record n:`, one `name: value` line per field, a blank line |
| Conversion.BuildXmlRecord | xconvert/src/main/java/com/xconvert/service/ConversionService.java:206-223 | the inner loop of CSV to XML builds exactly `XmlRecordOf(n, rec)` |
| Conversion.WriteCsvHeader | xconvert/src/main/java/com/xconvert/service/ConversionService.java:331-337 | the header line is the keys joined by commas, then a line break |
| Conversion.WriteCsvRow | xconvert/src/main/java/com/xconvert/service/ConversionService.java:343-359 | one data row is exactly `CsvRow(headers, rec)` |
| Conversion.CsvToJson | xconvert/src/main/java/com/xconvert/service/ConversionService.java:134-170 | a file with no line fails with `Empty CSV file`; otherwise the text is `[`, the objects joined by `,` and a line break, `]` |
| Conversion.WriteJsonObjects | xconvert/src/main/java/com/xconvert/service/ConversionService.java:144-168 | the loop over the data lines writes the objects joined by `,` and a line break |
| Conversion.CsvToXml | xconvert/src/main/java/com/xconvert/service/ConversionService.java:182-242 | a file with no line fails with `Empty CSV file`; otherwise the tree is `XmlDocumentOf` of the records |
| Conversion.BuildCsvXmlRecords | xconvert/src/main/java/com/xconvert/service/ConversionService.java:198-224 | the loop over the data lines builds the records of `XmlDocumentOf`, the id counting from 1 |
| Conversion.CsvToTxt | xconvert/src/main/java/com/xconvert/service/ConversionService.java:249-280 | a file with no line fails with `Empty CSV file`; otherwise the text is the numbered blocks of the records |
| Conversion.WriteCsvTxtBlocks | xconvert/src/main/java/com/xconvert/service/ConversionService.java:258-276 | the loop over the data lines writes the blocks numbered from 1 |
| Conversion.CollectKeys | xconvert/src/main/java/com/xconvert/service/ConversionService.java:318-325 | the nested loop collects exactly the union of all objects' keys |
| Conversion.KeysInSomeOrder | xconvert/src/main/java/com/xconvert/service/ConversionService.java:328 | the header array lists every key of the union exactly once |
| Conversion.JsonToCsv | xconvert/src/main/java/com/xconvert/service/ConversionService.java:308-367 | a parse failure gives `Error parsing JSON: ` and the message; otherwise the header is a permutation of the key union and the text is `CsvDocument` |
| Conversion.WriteCsvDocument | xconvert/src/main/java/com/xconvert/service/ConversionService.java:329-360 | the header line, then one row per object, is exactly `CsvDocument(headers, recs)` |
| Conversion.JsonToTxt | xconvert/src/main/java/com/xconvert/service/ConversionService.java:376-408 | a parse failure gives `Error parsing JSON: ` and the message; otherwise the numbered blocks of the objects |
| Conversion.WriteTxtBlocks | xconvert/src/main/java/com/xconvert/service/ConversionService.java:389-401 | the loop over the objects writes the blocks numbered from 1 |
| Conversion.JsonToXml | xconvert/src/main/java/com/xconvert/service/ConversionService.java:417-476 | a parse failure gives `Error parsing JSON: ` and the message; otherwise `XmlDocumentOf` of the objects |
| Conversion.BuildXmlRecords | xconvert/src/main/java/com/xconvert/service/ConversionService.java:436-457 | the loop over the objects builds the records numbered from 1 |
| Conversion.ConvertFile | xconvert/src/main/java/com/xconvert/service/ConversionService.java:97-497 | Hadoop is called exactly for a pair with no direct converter, or for CSV to JSON and JSON to CSV above 10 MiB; the outcome satisfies `ConvertOutcome`: a normal return of Hadoop is a success whatever it returns; its exception falls back to the direct converter, except for a pair with no direct converter where it is the result; every success carries `baseName + "." + lower(target)`; a direct conversion gives exactly that converter's outcome |
| Conversion.ConvertDirect | xconvert/src/main/java/com/xconvert/service/ConversionService.java:111-479 | for each of the six supported pairs the outcome is exactly that converter's, named with the output name and never Hadoop output |
| Conversion.OutputFileNameParts | xconvert/src/main/java/com/xconvert/service/ConversionService.java:101 | for a target format without `.` or separator, the output name's base name is the source's base name and its extension is the lower-cased target format |
| BatchModel.CountBound | xconvert/src/main/java/com/xconvert/model/BatchJob.java:71-85 | completed and failed items together never exceed the total |
| BatchModel.CountZero | xconvert/src/main/java/com/xconvert/model/BatchJob.java:75-85 | a count is zero exactly when no item has that status |
| BatchModel.CountAll | xconvert/src/main/java/com/xconvert/model/BatchJob.java:93 | a count equals the total exactly when every item has that status |
| BatchModel.AllTerminal | xconvert/src/main/java/com/xconvert/model/BatchJob.java:87-89 | the counts add up to the total exactly when every item is `completed` or `failed` |
| BatchModel.SomeTerminal | xconvert/src/main/java/com/xconvert/model/BatchJob.java:100 | one of the counts is positive exactly when some item is `completed` or `failed` |
| BatchModel.AggregateMeaning | xconvert/src/main/java/com/xconvert/model/BatchJob.java:91-103 | the count-based rule equals the rule over items: all terminal gives `failed` if all failed, `completed_with_errors` if some failed, `completed` otherwise; some terminal gives `processing`; none keeps the status |
| BatchModel.AggregateEmpty | xconvert/src/main/java/com/xconvert/model/BatchJob.java:92-94 | a job with no items aggregates to `failed` |
| BatchModel.AggregateSettled | xconvert/src/main/java/com/xconvert/model/BatchJob.java:92-99 | once every item is terminal the result is `completed`, `completed_with_errors` or `failed` and does not depend on the previous status |
| BatchModel.AggregateIdempotent | xconvert/src/main/java/com/xconvert/model/BatchJob.java:91-103 | applying the rule twice to the same items gives the same status |
| BatchModel.Aggregate | xconvert/src/main/java/com/xconvert/model/BatchJob.java:91-103 | the rule never moves a job to `pending`, and an empty list gives `failed` |
| BatchModel.WrapLong | xconvert/src/main/java/com/xconvert/model/BatchJobItem.java:103 | Java `long` subtraction: the result lies in the 64-bit range and equals the exact value when that is in range |
| BatchModel.BatchJobItem.ProcessingTimeMs | xconvert/src/main/java/com/xconvert/model/BatchJobItem.java:101-106 | a 64-bit value, zero when either timestamp is unset |
| BatchModel.ProcessingTimeExact | xconvert/src/main/java/com/xconvert/model/BatchJobItem.java:101-104 | with both timestamps set the time is exactly end minus start, not clamped, so negative when the end is earlier |
| BatchModel.NewItem | xconvert/src/main/java/com/xconvert/model/BatchJobItem.java:17-27 | a new item is `pending` with the given id, names and source format and no output, error or timestamps |
| BatchModel.BatchJob.constructor | xconvert/src/main/java/com/xconvert/model/BatchJob.java:15-25 | a new job is `pending`, has no items and has the given id, target format and creation time |
| BatchModel.BatchJob.SetStatus | xconvert/src/main/java/com/xconvert/model/BatchJob.java:55-57 | sets the status and nothing else |
| BatchModel.BatchJob.AddItem | xconvert/src/main/java/com/xconvert/model/BatchJob.java:67-73 | appends the item at the end, keeps the earlier ones and raises the total by one; nothing else changes |
| BatchModel.BatchJob.FailedItems | xconvert/src/main/java/com/xconvert/model/BatchJob.java:71-85 | completed plus failed items never exceed the total |
| BatchModel.BatchJob.IsCompleted | xconvert/src/main/java/com/xconvert/model/BatchJob.java:87-89 | holds exactly when every item is `completed` or `failed` |
| BatchModel.BatchJob.UpdateStatus | xconvert/src/main/java/com/xconvert/model/BatchJob.java:91-103 | sets the status by the aggregation rule and changes nothing else |
| BatchService.BatchOutputNameAgrees | xconvert/src/main/java/com/xconvert/service/BatchJobService.java:92 | the name a batch records equals the name the conversion writes exactly when the target format is already lower case |
| BatchService.Clock.Now | xconvert/src/main/java/com/xconvert/service/BatchJobService.java:88 | each reading of `new Date()` returns the current time and moves the clock forward by one |
| BatchService.ProcessedFields | xconvert/src/main/java/com/xconvert/service/BatchJobService.java:86-110 | the fields computed for an item satisfy the per-item contract `ItemProcessed` with the clock at `start` and `start + 1` |
| BatchService.ProcessedSettled | xconvert/src/main/java/com/xconvert/service/BatchJobService.java:86-110 | a processed item is `completed` or `failed`, and with a clock that does not go back its processing time is the non-negative difference |
| BatchService.ItemProcessedUnique | xconvert/src/main/java/com/xconvert/service/BatchJobService.java:86-110 | the per-item contract allows exactly one outcome: success gives `completed` and the output name, failure gives `failed` and the message, both with start and end time |
| BatchService.ProcessedAllAt | xconvert/src/main/java/com/xconvert/service/BatchJobService.java:80-83 | item `k` is processed with the clock reading `t0 + 2k` at its start |
| BatchService.ProcessedAllSnoc | xconvert/src/main/java/com/xconvert/service/BatchJobService.java:80-83 | processing one more item appends it, processed, and leaves the others |
| BatchService.ProcessedAllSettled | xconvert/src/main/java/com/xconvert/service/BatchJobService.java:80-83 | after the loop every item is `completed` or `failed` |
| BatchService.ProgressedIsAll | xconvert/src/main/java/com/xconvert/service/BatchJobService.java:80-83 | after `i` turns the first `i` items are processed in order and the rest are untouched |
| BatchService.ProcessedAllAggregate | xconvert/src/main/java/com/xconvert/service/BatchJobService.java:80-83 | after the loop the job status is `completed`, `completed_with_errors` or `failed`, whatever the status before |
| BatchService.ProcessedAll | xconvert/src/main/java/com/xconvert/service/BatchJobService.java:80-83 | processing the items in order keeps their number |
| BatchService.BatchJobService.constructor | xconvert/src/main/java/com/xconvert/service/BatchJobService.java:33-39 | no jobs and no stored files |
| BatchService.BatchJobService.CreateBatchJob | xconvert/src/main/java/com/xconvert/service/BatchJobService.java:41-45 | a fresh `pending` job with no items is registered under its id and returned by `GetBatchJob`; other jobs are kept |
| BatchService.BatchJobService.GetBatchJob | xconvert/src/main/java/com/xconvert/service/BatchJobService.java:47-49 | the registered job, or none (`null`) exactly when the id is unknown |
| BatchService.BatchJobService.AddFileToBatchJob | xconvert/src/main/java/com/xconvert/service/BatchJobService.java:51-68 | an unknown id fails with `Batch job not found: ` and the id and changes nothing; otherwise the file is stored as `id.ext` and exactly one `pending` item with that name and extension is appended, and the job keeps its id, creation time, status and target format |
| BatchService.BatchJobService.ProcessItem | xconvert/src/main/java/com/xconvert/service/BatchJobService.java:86-110 | start time, then `completed` with `baseName + "." + target` or `failed` with the message, then end time; the clock is read twice |
| BatchService.BatchJobService.ProcessBatchJob | xconvert/src/main/java/com/xconvert/service/BatchJobService.java:70-84 | an unknown id changes nothing; otherwise the items are processed in list order, the job keeps its id, creation time and target format, and ends with the aggregation rule's status, except an empty job, which stays `processing` |
| BatchService.BatchJobService.ProcessItems | xconvert/src/main/java/com/xconvert/service/BatchJobService.java:80-83 | the loop processes every item in order, keeps the job's id, creation time and target format, and leaves the status the rule gives, or `processing` for no items |
| BatchService.BatchJobService.ProcessTurn | xconvert/src/main/java/com/xconvert/service/BatchJobService.java:81-82 | one turn processes item `i` and then sets the status by the aggregation rule; id, creation time and target format are kept |
| BatchService.BatchJobService.ClearCompletedJobs | xconvert/src/main/java/com/xconvert/service/BatchJobService.java:112-117 | removes exactly the jobs that are `completed` or `failed`; the others stay with the same job |
| Tasks.TaskService.constructor | xconvert/src/main/java/com/xconvert/service/TaskService.java:11 | no task is registered |
| Tasks.TaskService.GetStatus | xconvert/src/main/java/com/xconvert/service/TaskService.java:17-19 | the last status written for the id, `unknown` when none was |
| Tasks.TaskService.SetStatus | xconvert/src/main/java/com/xconvert/service/TaskService.java:13-15 | overwrites the id's status, `completed:` and `error:` values included; other ids keep theirs |
| Tasks.TaskService.SetError | xconvert/src/main/java/com/xconvert/service/TaskService.java:21-23 | the id's status becomes `error:` and the message; other ids keep theirs |
| Tasks.TaskService.SetCompleted | xconvert/src/main/java/com/xconvert/service/TaskService.java:25-27 | the id's status becomes `completed:` and the result; other ids keep theirs |
| Controller.DecodeStatus | xconvert/src/main/java/com/xconvert/controller/ConversionController.java:98-106 | `completed:` is recognised first, then `error:`, anything else passes through; the view encodes back to the stored status |
| Controller.DecodeWritten | xconvert/src/main/java/com/xconvert/controller/ConversionController.java:98-103 | what `setCompleted` and `setError` write decodes back to the output name and the message, whatever they hold |
| Controller.DecodeEncode | xconvert/src/main/java/com/xconvert/controller/ConversionController.java:98-106 | every view is decoded from the status it encodes to, except a passed-through status that itself has one of the prefixes |
| Controller.PlainStatusesPass | xconvert/src/main/java/com/xconvert/controller/ConversionController.java:104-106 | `uploaded`, `processing` and `unknown` pass through unchanged |
| Controller.ContentType | xconvert/src/main/java/com/xconvert/controller/ConversionController.java:117-126 | `text/csv`, `application/json` and `application/xml` exactly for names ending in `.csv`, `.json` and `.xml`, `application/octet-stream` exactly for all other names |
| Controller.EndingsExclusive | xconvert/src/main/java/com/xconvert/controller/ConversionController.java:118-123 | no name ends with two of `.csv`, `.json`, `.xml` |
| Controller.ContentTypeOfExtension | xconvert/src/main/java/com/xconvert/controller/ConversionController.java:117-126 | a name `p.csv`, `p.json` or `p.xml` gets that type, and `p.txt` gets `application/octet-stream` |
| Controller.ContentTypeOfOutput | xconvert/src/main/java/com/xconvert/controller/ConversionController.java:117-126 | a converted file is served with the type of its lower-cased target format, TXT output as `application/octet-stream` |
| Controller.DetectSourceFormat | xconvert/src/main/java/com/xconvert/controller/ConversionController.java:55-59 | a given source format is kept; an empty one is replaced by the file's extension with each upper-case ASCII letter lowered and every other char kept |
| Controller.DetectFromBuiltName | xconvert/src/main/java/com/xconvert/controller/ConversionController.java:55-59 | for a file `name.ext` the detected format is `ext` lower-cased |
| Controller.ConversionController.constructor | xconvert/src/main/java/com/xconvert/controller/ConversionController.java:40-44 | the controller uses the given task registry |
| Controller.ConversionController.ProcessFileAsync | xconvert/src/main/java/com/xconvert/controller/ConversionController.java:78-91 | the outcome is one `ConvertFile` allows (`ConvertOutcome` for the same file, formats, parser and Hadoop run); the task is written, other tasks keep their status, and its status then decodes to the completed view with the outcome's output name on success, or to the error view with the outcome's message on failure |
| Controller.ConversionController.UploadFile | xconvert/src/main/java/com/xconvert/controller/ConversionController.java:46-76 | a failed save returns its error and registers nothing; otherwise the task id and stored name are returned, only that task is added, the outcome is one `ConvertFile` allows for the saved file with the detected source format, and the task's status decodes to the completed view with its output name or to the error view with its message |

## Left out

- File-system I/O (reading the source, writing the output, creating directories, `loadFileAsResource`, `saveFile`). A stored file is a `SourceFile` value holding its size, its lines and its text. The upload directory of a batch is a map from stored name to content. The controller receives the stored name, or the save error, as a parameter.
- The org.json parser and value rendering. The parser is a function parameter that yields the objects of the array as (key, value-text) pairs in the object's own key order, or the message of its exception. `getJSONObject` failing on a non-object element is part of that parser's failure.
- XML DOM building and the `Transformer` serialisation, with its indentation and escaping. The model builds the element tree only, and a failure of the XML library is not modelled.
- Hadoop (`ConversionJob`, its mapper and reducer). `runJob` is a value that either returns a boolean, which the caller ignores, or throws with a message. What it writes is not modelled.
- Concurrency (`@Async`, `ConcurrentHashMap`, the executor). Everything runs sequentially. `processFileAsync` is called directly by `uploadFile`, and the model calls it the same way.
- `BatchController`, the `testJsonToCsv` endpoint, the JSON response bodies of the controllers, the browser scripts, `FileUtils.mergeFiles`, `ConversionRequest`, and logging. None of them is part of the engine.
- UUID generation. Fresh ids are parameters. `new Date()` is a `Clock` counter that advances by one on each reading.
- Unicode. `toLowerCase` is modelled on ASCII letters only, and `Character.isLetter` is applied only after every non-ASCII char has already been replaced by `_`.
- `null` values. A `null` source format is taken as the empty string. An exception whose message is `null` (stored by Java as `error:null`) is not distinguished.
- Statuses are datatypes rather than free strings. The setters of `BatchJob` other than `setStatus`, and the setters of `BatchJobItem`, are not separate members: `BatchJobItem` is a record value and a setter is a record update.
- BatchModel.BatchJobItem: the item is a value, not a shared mutable object. The aliasing that `getItems()` gives callers is not captured, and the model writes the processed item back into the job's list.
- BatchService.BatchJobService.ProcessItem: the transient `processing` status an item has while it converts is set and then overwritten within the same call, so it is not visible in the contract.
- BatchService.BatchJobService.AddFileToBatchJob: `Files.copy` failing for reasons other than an existing target is not modelled. The item id is a parameter rather than a fresh UUID.
- Conversion.JsonToCsv: the header order of `HashSet.toArray` is not determined. The contract states that the header is some permutation of the union of the keys, and the text is determined by that order.
- Conversion.ConvertFile: the `Error creating XML` failure of the XML library is not modelled.
