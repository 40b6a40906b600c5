# HEPData submission validator, modelled in Dafny

This project models the validator of a HEPData submission bundle. A bundle is a
`submission.yaml` file whose YAML documents are the additional-information
header and one metadata entry per table. Each entry names its table and its
`data_file`. A bundle may also be a single YAML file that holds tables with their
metadata merged in.

The `Validator` object checks every document against one of three JSON schemas:
submission entry, data table or additional information. It follows each entry
whose table it has not seen to the data file next to it. It compares the lengths
of a table's columns and checks the locations of additional resources. It
records every finding as an INFO, WARNING or ERROR message filed under the file
it concerns. `validate` returns whether no file of the whole session has an
ERROR.

The modules follow the structure of the program:

- `Json`: the parsed YAML values, plus the Python built-ins the validator applies to them.
  - `dict.get`, iteration, `len`, and dictionary hashing (`True == 1`).
- `Paths`: `os.path.dirname` and `os.path.join`, written out as `posixpath` defines them.
- `Messages`:
  - message levels, and the content of every diagnostic;
  - the per-file message log, kept in the order files were first touched;
  - `filter_messages` and the `has_*` queries.
- `Documents`:
  - how a document's kind is recognised;
  - the split of a single-file entry, and the converter that produces such entries;
  - the table-name pre-scan and the column lengths.
- `Semantics`: each `validate_*` method as a function from the session state
  (the log and the table index) to the new state, together with the exception
  it raises, if any.
  - A raised exception travels as a value.
  - Effects made before it are kept, as in the source.
- `Validation`: the `Validator` class.
  - Its fields are the log and the table index.
  - Its methods update them in place.
  - Each method is proved to reach the state the matching `Semantics` function computes.
- `Properties`: lemmas about whole sessions.
  - the state only grows;
  - the return value is global;
  - schema violations are contained, and other exceptions end their file;
  - the table index decides whether a data file is read;
  - column-length warnings;
  - null documents are skipped.
- `Scenarios`: complete sessions on small bundles, with schemas that accept every document.

Schemas, the file system and YAML loading are parameters:

- `Schemas` holds three functions from a document to an optional violation.
- `FileSystem` holds the parse result of each readable path, and the set of paths
  for which `os.path.isfile` holds.

The recursion through `validate_sub` carries a `fuel` bound. When the bound runs
out, the model raises a `RecursionLimit` exception, which stands in for the
`RecursionError` Python raises at its own recursion limit.

## Model

| member | source | states |
|---|---|---|
| Messages.LevelStr | scripts/validate.py:36-42 | the name is "Unknown" exactly when the level is none of INFO, WARNING, ERROR |
| Messages.Filter | scripts/validate.py:109-112 | the kept messages are exactly those of the list that pass the test of `filter_messages` (`Keeps`: the exact level, or that level or worse), and no more than the list holds |
| Messages.FilterDistributes | scripts/validate.py:109-112 | filtering works message by message: the filter of a concatenation is the concatenation of the filters, so kept messages keep their order |
| Messages.HasLevel | scripts/validate.py:148 | a file's filtered list is non-empty exactly when some message of it has the level |
| Messages.Ensure | scripts/validate.py:73-77 | afterwards the file has a list; no file's messages change; a file seen for the first time goes to the end of the file order |
| Messages.Append | scripts/validate.py:79-107 | the message goes at the end of its file's list and every other file's list is unchanged; a new file joins the file order at the end |
| Messages.AppendKeepsValid | scripts/validate.py:73-107 | creating a list or adding a message keeps every touched file listed exactly once in the file order |
| Messages.FilterAfterAppend | scripts/validate.py:79-112 | after adding a message, the file's filtered view grows by that message exactly when the filter keeps it |
| Messages.AnyErrorsAfterAppend | scripts/validate.py:137-148 | after adding a message, `has_errors()` is true iff it was true before or the message is an ERROR |
| Messages.FilterAll | scripts/validate.py:114-131 | `get_messages(None, ...)` covers exactly the touched files, each mapped to the filter of its own list, so kept messages keep their order and repetitions |
| Messages.HasWarningsAsWritten | scripts/validate.py:150-155 | `has_warnings(None)` as written is true exactly when some file was touched |
| Messages.AnyWarnings | scripts/validate.py:150-155 | the intended query: true exactly when some message of some file is a WARNING |
| Messages.WarningsAsWrittenCoversWarnings | scripts/validate.py:150-155 | the query as written is true whenever some file has a warning |
| Messages.WarningsAsWrittenWithoutWarnings | scripts/validate.py:150-155 | the query as written is also true for a log whose only message is an INFO |
| Paths.Join | scripts/validate.py:326 | the joined path ends with the second component; an absolute second component replaces the first |
| Paths.StripTrailingSlashes | scripts/validate.py:326 | the directory head without its trailing slashes: a prefix of it, not ending in a slash, with only slashes removed |
| Paths.DirnameShape | scripts/validate.py:326 | a directory name is empty, all slashes, or does not end in a slash |
| Paths.SiblingStaysInDirectory | scripts/validate.py:326 | a plain file name joined to a file's directory has that same directory and ends in the name |
| Json.SameTableKey | scripts/validate.py:241 | two table names share a dictionary key exactly when they are equal, or one is a boolean and the other the integer 0 or 1 it equals |
| Documents.Split | scripts/validate.py:272-279 | the data half holds exactly the two variable arrays (null when absent); the metadata half is the rest, with `data_file` set to the empty string |
| Documents.SplitHalvesKinds | scripts/validate.py:269-283 | the dispatch (`Classify`) treats a document as a combined entry exactly when it has `independent_variables` and `description` but no `data_file`; its data half is then a data table and its metadata half a submission entry |
| Documents.MergeSingleFile | examples/BELLE_2017_I1512299/1512299.py:93-97 | the merged document has the entry's keys without `data_file`, plus the table's keys |
| Documents.SplitUndoesMerge | scripts/validate.py:269-279 | a converter-merged document is recognised as a combined entry; its halves are the original table and the entry with an empty `data_file` |
| Documents.IndexCoversTables | scripts/validate.py:234-241 | every named document the main pass treats as a combined entry or a table was registered by the pre-scan (`RegistersTable`); a registered document the main pass treats as additional information has `dependent_variables` only |
| Documents.PreScan | scripts/validate.py:224-241 | the pre-scan only adds keys; the only exception it raises is the TypeError of an unhashable name |
| Documents.PreScanFailsIffUnhashable | scripts/validate.py:234-241 | the pre-scan fails exactly when some registered document has an unhashable name |
| Documents.PreScanKeys | scripts/validate.py:224-241 | after a successful pre-scan the index holds exactly the earlier keys and the names of the registered documents |
| Documents.PreScanLastWins | scripts/validate.py:241 | a registered document stays indexed under its name unless a later registered document has the same name |
| Documents.PreScanUntouched | scripts/validate.py:241 | a key that no registered document names keeps its entry |
| Documents.ValuesLength | scripts/validate.py:381-382 | a column's length exists exactly when it is a mapping with a measurable `values`, and is that length |
| Documents.LengthsOf | scripts/validate.py:381-382 | the lengths come in column order when every column can be measured; otherwise the first failing column's exception |
| Documents.ColumnLengths | scripts/validate.py:381-382 | a list of columns yields their lengths; among other values only an empty string or mapping succeeds, with no lengths |
| Documents.InconsistentIff | scripts/validate.py:384 | `len(set(lengths)) > 1` holds exactly when two of the lengths differ |
| Semantics.Note | scripts/validate.py:79-107 | recording a message leaves the table index unchanged |
| Semantics.ResourceStep | scripts/validate.py:317-332 | one resource never changes the table index, and can only raise an exception other than a schema violation |
| Semantics.ResourcesFrom | scripts/validate.py:317-332 | the resource loop never changes the table index, and can only raise an exception other than a schema violation |
| Semantics.CheckResources | scripts/validate.py:308-332 | `validate_res` never changes the table index, and never raises a schema violation |
| Semantics.CheckData | scripts/validate.py:368-391 | `validate_dat` raises a schema violation exactly when the data schema rejects the document, and then has recorded nothing; the table index never changes |
| Semantics.CheckAdditional | scripts/validate.py:393-408 | `validate_add` raises a schema violation exactly when the additional-information schema rejects the document, and then has recorded nothing; the table index never changes |
| Semantics.DataFileName | scripts/validate.py:354-362 | a `data_file` is usable exactly when it is a string without a slash; a string with a slash raises the TypeError of the misdirected `add_warning` call |
| Semantics.CheckSubmission | scripts/validate.py:335-365 | `validate_sub` raises a schema violation exactly when the submission schema rejects the entry, and then has recorded nothing |
| Semantics.FollowDataFile | scripts/validate.py:352-365 | following a data file raises nothing exactly when `data_file` is a usable name and the recursion bound is not spent, and then the entry's file ends with the entry's INFO; it never raises a schema violation |
| Semantics.Dispatch | scripts/validate.py:269-283 | a schema violation from the dispatch leaves the state as it was, except for a combined entry, whose data half may have recorded its messages first |
| Semantics.CheckDocument | scripts/validate.py:255-290 | after the handler around one document, the only exception left is one that is not a schema violation |
| Semantics.MainPass | scripts/validate.py:247-290 | the main pass ends with no exception or with one that is not a schema violation |
| Semantics.Load | scripts/validate.py:212-306 | handed-in documents are used as given; a path that cannot be opened yields the file-not-found error; a scanner error yields the "problem parsing" text with its detail, and any other YAML error that error itself |
| Semantics.ValidateCall | scripts/validate.py:201-207 | `validate` raises LookupError exactly when no path is given, and then changes nothing |
| Semantics.ValidateFile | scripts/validate.py:212-306 | `validate` with a path returns true exactly when, afterwards, no file of the session has an ERROR |
| Validation.Validator.constructor | scripts/validate.py:53-71 | a new validator has the given schemas, no messages and no tables |
| Validation.Validator.EnsureMessages | scripts/validate.py:73-77 | the new state is the old one with the file's list ensured; it returns the file's old messages |
| Validation.Validator.AddError | scripts/validate.py:79-87 | the new state is the old one with one ERROR for the file |
| Validation.Validator.AddWarning | scripts/validate.py:89-97 | the new state is the old one with one WARNING for the file |
| Validation.Validator.AddInfo | scripts/validate.py:99-107 | the new state is the old one with one INFO for the file |
| Validation.Validator.FilterMessages | scripts/validate.py:109-112 | it returns the filtered old list of the file, which is ensured |
| Validation.Validator.GetMessages | scripts/validate.py:114-131 | for one file: all its messages without a level, the filtered ones with a level; the file's list is ensured |
| Validation.Validator.GetAllMessages | scripts/validate.py:114-131 | for all files: the whole log without a level, or every touched file with its filtered list, in file order; nothing changes |
| Validation.Validator.ClearMessages | scripts/validate.py:133-135 | afterwards no file has messages; the table index is kept |
| Validation.Validator.HasErrors | scripts/validate.py:137-148 | true exactly when the file has an ERROR; the file's list is ensured |
| Validation.Validator.HasErrorsAnywhere | scripts/validate.py:142-146 | true exactly when some touched file has an ERROR message (`AnyErrors`) |
| Validation.Validator.HasWarnings | scripts/validate.py:150-155 | true exactly when the file has a WARNING; the file's list is ensured |
| Validation.Validator.HasWarningsAnywhere | scripts/validate.py:150-155 | returns the query as written, true whenever some file was touched (see Findings) |
| Validation.Validator.ValidateRes | scripts/validate.py:308-332 | the new state and the exception are those `CheckResources` computes |
| Validation.Validator.ValidateResource | scripts/validate.py:317-332 | one pass of the resource loop reaches the state and exception of `ResourceStep` |
| Validation.Validator.ValidateDat | scripts/validate.py:368-391 | the new state and the exception are those `CheckData` computes |
| Validation.Validator.ValidateAdd | scripts/validate.py:393-408 | the new state and the exception are those `CheckAdditional` computes |
| Validation.Validator.ValidateSub | scripts/validate.py:335-365 | the new state and the exception are those `CheckSubmission` computes |
| Validation.Validator.ValidateDataFile | scripts/validate.py:352-365 | following the data file reaches the state and exception of `FollowDataFile` |
| Validation.Validator.ScanTables | scripts/validate.py:224-241 | the table index and the exception are those of `PreScan`; the messages are untouched |
| Validation.Validator.ValidateDocument | scripts/validate.py:255-290 | one document of the main pass reaches the state and exception of `CheckDocument` |
| Validation.Validator.Validate | scripts/validate.py:194-306 | the new state and the outcome are those `ValidateCall` computes |
| Properties.ExtendsTrans | scripts/validate.py:79-107 | the grows-only relation between states is transitive |
| Properties.NoteExtends | scripts/validate.py:79-107 | recording a message keeps every earlier message, file and table name |
| Properties.OnlyWarningsTrans | scripts/validate.py:317-332 | steps that add only warnings for one file compose |
| Properties.NoteWarns | scripts/validate.py:328-332 | a resource warning adds one WARNING to its file and nothing else |
| Properties.ResourceStepWarns | scripts/validate.py:317-332 | one resource adds at most two WARNINGs, only to the current file, and leaves the table index alone |
| Properties.ResourcesOnlyWarn | scripts/validate.py:317-332 | the resource loop adds only WARNINGs for the current file, at most two per resource, even when it ends early |
| Properties.CheckResourcesOnlyWarn | scripts/validate.py:308-332 | `validate_res` adds only WARNINGs, and only to the current file |
| Properties.ExternalResourcesIgnored | scripts/validate.py:322-324 | resources located at `http` addresses record nothing and raise nothing |
| Properties.LocalResourceWarnings | scripts/validate.py:326-332 | a local resource gets one WARNING when the resolved file is missing and one when its location has a slash, both naming the resolved path |
| Properties.CheckDataExtends | scripts/validate.py:368-391 | `validate_dat` keeps everything recorded before |
| Properties.CheckAdditionalExtends | scripts/validate.py:393-408 | `validate_add` keeps everything recorded before |
| Properties.ValidateFileExtends | scripts/validate.py:194-306 | a validation run, nested runs included, never drops a message, file or table name |
| Properties.MainPassExtends | scripts/validate.py:247-290 | the main pass keeps everything recorded before |
| Properties.CheckDocumentExtends | scripts/validate.py:255-290 | checking one document keeps everything recorded before |
| Properties.DispatchExtends | scripts/validate.py:269-283 | each branch of the dispatch keeps everything recorded before |
| Properties.CheckSubmissionExtends | scripts/validate.py:335-365 | `validate_sub` keeps everything recorded before |
| Properties.FollowDataFileExtends | scripts/validate.py:352-365 | following a data file keeps everything recorded before |
| Properties.NotedAfterExtends | scripts/validate.py:363-365 | the INFO recorded after the nested run keeps what the session had before that run |
| Properties.ErrorsPersist | scripts/validate.py:137-148 | once some file has an ERROR, every later state has one |
| Properties.ValidateIsGlobal | scripts/validate.py:292 | `validate` returns true exactly when no file of the session has an ERROR afterwards, and only when none had one before the call |
| Properties.CleanFileReportsOtherErrors | scripts/validate.py:292 | validating a file with no documents returns false when another file already has an ERROR, and records nothing for that file |
| Properties.ViolationIsContained | scripts/validate.py:285-290 | a violation of the first schema a document meets (for a combined entry, the data schema on its data half) costs the document exactly one ERROR, and the main pass goes on with the next document |
| Properties.MetadataViolationIsContained | scripts/validate.py:271-290 | a combined entry whose data half passes but whose metadata half breaks the submission schema keeps what the data half recorded, then gets one ERROR for the violation; the main pass goes on with the next document |
| Properties.MainPassStopsAtFault | scripts/validate.py:247-290 | once a document raises something other than a schema violation, the main pass ends with that exception and the documents after it are never looked at |
| Properties.FaultEndsFile | scripts/validate.py:247-306 | such an exception in any document, after the documents before it were checked, makes `validate` record it as one ERROR for the file and return false |
| Properties.LoadFailureIsOneError | scripts/validate.py:212-306 | a file that cannot be loaded (missing, a scanner error, another YAML error) gets exactly one ERROR naming the problem; nothing else changes and `validate` returns false |
| Properties.ScanFailureIsOneError | scripts/validate.py:224-306 | a registered document with an unhashable name makes the file get exactly one ERROR for the TypeError, before any document is checked; `validate` returns false |
| Properties.IndexedEntryNotFollowed | scripts/validate.py:352-365 | an accepted entry whose table name is indexed ends with its resource messages and one INFO |
| Properties.UnindexedEntryFollowed | scripts/validate.py:352-365 | an accepted entry whose table name is not indexed and whose `data_file` is a plain name is the validation of that file next to the entry's file, in the same session, followed by the entry's INFO |
| Properties.SlashedDataFileRaises | scripts/validate.py:357-360 | an unindexed entry whose `data_file` has a slash raises TypeError instead of warning; before that only resource warnings were added |
| Properties.ResourcesIgnoreContents | scripts/validate.py:326-327 | the resource checks depend only on which paths are files, never on file contents |
| Properties.IndexedEntryReadsNoFile | scripts/validate.py:352-365 | an entry whose table name is indexed has the same outcome whatever the files contain |
| Properties.UnindexedEntryOpensDataFile | scripts/validate.py:352-365 | an unindexed entry opens the data file next to its file; a missing one gets an ERROR and the entry still gets its INFO |
| Properties.CombinedEntryReadsNoFile | scripts/validate.py:269-279 | an indexed combined entry has the same outcome whatever the files contain |
| Properties.ScannedTablesAreIndexed | scripts/validate.py:224-241 | after a successful pre-scan every named combined entry or data table finds its name in the index |
| Properties.AdditionalChecked | scripts/validate.py:393-408 | `validate_add`: a schema violation is raised before anything is recorded; otherwise only WARNINGs for resources, then, unless a resource raised, exactly one INFO, all for the current file |
| Properties.DataWarnsIffInconsistent | scripts/validate.py:381-391 | a measurable table gets one WARNING exactly when two columns differ in length, then one INFO, and no other file changes |
| Properties.NonNull | scripts/validate.py:226-229 | exactly the non-null documents of the bundle are kept, all present, no more than the bundle holds |
| Properties.NonNullConcat | scripts/validate.py:226-229 | dropping the nulls works document by document, so the kept documents keep their order |
| Properties.NullsSkipped | scripts/validate.py:226-252 | null documents change neither the pre-scan nor the main pass |
| Properties.PreScanNullsSkipped | scripts/validate.py:226-229 | null documents do not change the pre-scan |
| Scenarios.Column | scripts/validate.py:381-382 | the built variable is a mapping whose `values` has the given length |
| Scenarios.AfterTable | scripts/validate.py:368-391 | the state after one table keeps the table index |
| Scenarios.AfterTableLog | scripts/validate.py:384-391 | a table earns a length WARNING only when its two lengths differ, then one INFO, and only its own file changes |
| Scenarios.TableChecked | scripts/validate.py:368-391 | `validate_dat` on a two-column table reaches exactly that state |
| Scenarios.TableNotRegistered | scripts/validate.py:234-236 | an unnamed table is not registered by the pre-scan |
| Scenarios.TablePass | scripts/validate.py:271-281 | the main pass over one unnamed table checks it as a data table |
| Scenarios.TableFile | scripts/validate.py:194-292 | validating a file that holds one unnamed table gives the file exactly the table's messages |
| Scenarios.EntryFollowed | scripts/validate.py:335-365 | an unindexed entry without resources is the nested validation of its data file, then one INFO |
| Scenarios.EntryReachesDataFile | scripts/validate.py:346-352 | an accepted entry without resources and with an unindexed name goes on to its data file |
| Scenarios.EntryDataFile | scripts/validate.py:354-365 | a plain `data_file` is validated as named and the entry then gets one INFO |
| Scenarios.EntryNotRegistered | scripts/validate.py:234-236 | a submission entry without variables is not registered |
| Scenarios.EntryPass | scripts/validate.py:269-270 | the main pass over one entry checks it as a submission entry |
| Scenarios.EntryFile | scripts/validate.py:194-292 | validating a submission file with one entry gives the nested state and reports whether any file has an ERROR |
| Scenarios.SubmissionWithDataFile | scripts/validate.py:194-391 | submission file plus data file: success; the data file is checked first and gets its messages; the submission file gets one INFO |
| Scenarios.TwoFilesLog | scripts/validate.py:79-148 | those messages leave no ERROR, and the files appear data file first |
| Scenarios.TwoFilesMessages | scripts/validate.py:79-107 | each of the two files holds exactly its own messages |
| Scenarios.AfterTableNoErrors | scripts/validate.py:384-391 | a table adds no ERROR |
| Scenarios.MissingDataFile | scripts/validate.py:301-306 | a missing data file gets one ERROR, the entry still gets its INFO, and the session fails |
| Scenarios.CombinedRegistered | scripts/validate.py:234-241 | a named combined entry is registered under its name |
| Scenarios.AfterHalves | scripts/validate.py:277-279 | the state after the data half and the resource keeps the table index |
| Scenarios.CombinedResources | scripts/validate.py:326-332 | an existing resource in a subdirectory gets only the slash WARNING |
| Scenarios.CombinedMeta | scripts/validate.py:279 | the metadata half of an indexed combined entry gets the resource warning and one INFO, and is not followed |
| Scenarios.CombinedChecked | scripts/validate.py:272-279 | a combined entry yields one INFO for its data half, the resource WARNING, and one INFO for its metadata half |
| Scenarios.CombinedDispatched | scripts/validate.py:272-279 | a combined entry whose data half passes is checked as a submission entry from the state that the data half leaves |
| Scenarios.SingleFileWithResource | scripts/validate.py:194-408 | a single-file bundle with one combined entry and one resource succeeds with exactly three messages, in order |
| Scenarios.CombinedFile | scripts/validate.py:194-292 | validating that single file reaches exactly that state, and reports whether any file has an ERROR |
| Scenarios.SingleFileLog | scripts/validate.py:79-148 | those three messages leave no ERROR and touch only that file |

## Left out

- Loading the schema files in the constructor, and `jsonschema.validate` itself. Each schema is a parameter: a function from a document to an optional violation (`Semantics.Schemas`).
- YAML parsing, `open` and `os.path.isfile`. These are the parameter `Semantics.FileSystem`. A scanner error and any other YAML error are the two failure outcomes of loading.
- `print_messages`, `summarize`, `Message.__str__` and all verbose output. They only print.
- The command-line entry point and `scripts/check.py`. The example converters are out too, except the single-file merge of the BELLE 2017 converter (`Documents.MergeSingleFile`).
- Floating-point YAML scalars. No validator branch depends on them beyond being a hashable, non-iterable scalar, the role `Int` plays.
- Top-level documents that are not mappings, such as a list or a scalar. Every `Document` is a mapping; the null document is modelled.
- The wording of exception messages, and the `pformat` of the offending instance. A diagnostic carries the exception kind and the violation instead.
- The in-place `pop` on the combined document. The index keeps the document as it was registered; the validator never reads indexed documents back.
- Semantics.ValidateFile, Semantics.FollowDataFile, Semantics.Dispatch: the recursion carries a `fuel` bound, since nothing in the source stops a data file from naming a bundle that leads back to it. When the fuel is spent, a `RecursionLimit` exception stands for Python's `RecursionError`.
- The scenario lemmas use plain file names without a directory part, and schemas that accept everything. The general lemmas in `Properties` have no such restriction.
- YAML mappings with keys that are not strings (`1: x`). `Json.Value` mappings have string keys; no key the validator reads is anything but a string.
- The default level of `Message(filename, message)` (ERROR when none is given, lines 27-34). Every message the validator keeps is created with an explicit level; the one call without a level (line 358) raises before its message is stored, as `Semantics.DataFileName` models.
- Validation.Validator.constructor: the search for the schema directory, and the `RuntimeError` when a schema cannot be read.
- Validation.Validator.HasWarningsAnywhere: states the query as written, which the command-line tool calls; the intended meaning is `Messages.AnyWarnings`.

## Findings

| source | as written | input that shows it | evidently intended | confidence | as-written member | corrected member |
|---|---|---|---|---|---|---|
| scripts/validate.py:150-155 | `has_warnings(None)` measures the dictionary returned by `get_messages(None, WARNING, exact=True)`, which has one entry per touched file, warnings or not | a session whose only message is one INFO for `submission.yaml`: the query says there are warnings | true exactly when some file has a WARNING message | not executed | Messages.HasWarningsAsWritten, Messages.WarningsAsWrittenWithoutWarnings | Messages.AnyWarnings, Messages.WarningsAsWrittenCoversWarnings |

Two more behaviours of the code are modelled as written, not corrected.

- At lines 357-360, `validate_sub` passes a single `Message` to `add_warning`, which takes two arguments. An entry whose name is not in the table index and whose `data_file` contains a slash therefore raises a TypeError. The handler records it as an ERROR and ends the file (`Properties.SlashedDataFileRaises`).
- At line 292, `validate` returns whether any file of the whole session has an ERROR, not just the file being validated. A clean file validated after a faulty one yields false (`Properties.ValidateIsGlobal`, `Properties.CleanFileReportsOtherErrors`).
