# A verified model of the archive-digitisation pipeline

The repository digitises archival scans. Its parts are these:

- **Backend (FastAPI).** It accepts a zip archive of scans as a *group* and registers every file as a record in a JSON document store. It takes status callbacks from the OCR and post-processing services, serves and stores the recognised content of each file per stage (`process`, `final`), and builds a report of the texts and entities of a group.
- **OCR container.** It cuts every text line of a scan out of the page image, recognises it, joins the lines of each region into text, and writes a normalised result record per scan.
- **Post-processing service.** It corrects the recognised text of every region with a language model and calls back the backend.
- **Training scripts.** They turn labelled regions into training crops, read transcripts, build vocabularies, and keep the early-stopping state of the training loop.

This project models the core of these parts in Dafny and proves what each part promises. The style of each model follows the code it models:

- Code that updates state in place is modelled imperatively. The document store, the file systems, the `pageData` builder and the OCR container's local storage are classes or methods with `modifies` clauses. Their loops are `while`/`for` loops proved against specification functions.
- Pure helpers are modelled as functions.
- Python's own operations that the code relies on are written out in shared modules:
  - `Text`: `str.strip`, `str.split`, `lower`;
  - `Paths`: `pathlib` joining, resolving, suffixes and stems;
  - `StableSort`: `sorted` with a key;
  - `JsonValues`: JSON values and their truthiness;
  - `Collections`: iteration whose order is not fixed;
  - `NestedLoops`: the shapes of list-building loops.

Outside effects are parameters of the model:

- The network (callbacks, OCR triggers, the language model) appears as outcome oracles.
- Clocks, UUIDs and disk failures are inputs.
- The neural networks are functions passed in.

Retry loops record the delays they would sleep instead of sleeping.

Modules, one per source file or shared concept:

| module | models |
|---|---|
| `LocalStorage` | the JSON document store: keys, base-directory containment, atomic writes, versions |
| `Records`, `Common`, `GroupsUtils`, `FilesUtils` | records, group directories, archive filtering, group index, stem normalisation, source-image lookup |
| `PipelineCallback`, `FilesEndpoints`, `GroupsEndpoints` | the HTTP handlers of the backend |
| `ReportEntities`, `ReportBuilder` | entity and text extraction and the rows of a group report |
| `Backoff`, `MlTasks`, `TrainScheduler`, `MlEntrypoint` | the retried GET/POST loops and the OCR entry point |
| `PostprocessingMain`, `Processing` | the post-processing service and its region gather/scatter |
| `TextConcatenator`, `OcrCoords`, `PipelineProcessor`, `OcrRecords`, `OcrPage`, `OcrDecode`, `StorageManager`, `PageXml` | the OCR container |
| `PrepareData`, `TrainingTexts`, `SortedChars`, `TrainBaseline`, `TrainTrocr` | the training scripts |

## Model

| member | source | states |
|---|---|---|
| Records.ParseStatus | backend/src/api/v1/schemas/file_schemas.py:6-9 | a JSON value is a FileStatus exactly when it is one of the strings "progress", "upgrading", "done" |
| Records.StatusNameRoundTrip | backend/src/api/v1/schemas/file_schemas.py:6-9 | every status parses back from its name, and a parsed value is the name of its status |
| Records.FileKeyPath | backend/src/api/v1/endpoints/files.py:27 | the record key files/<fid> of a plain id is the document <store>/files/<fid>.json |
| Records.GroupKeyPath | backend/src/api/v1/endpoints/groups.py:46 | the card key groups/<gid> of a plain id is the document <store>/groups/<gid>.json |
| Records.IndexKeyPath | backend/src/utils/groups.py:52 | the index key group_index/<gid> of a plain id is the document <store>/group_index/<gid>.json |
| Records.GroupDirsClean | backend/src/utils/common.py:29-42 | the group root and its statuses/process/final directories are normalised paths |
| Records.FilePathsLayout | backend/src/api/v1/endpoints/files.py:34-35 | a file's mirror is statuses/<fid>.json and its content <stage>/<fid>.json, and the two never coincide |
| Records.SetField | backend/src/api/v1/endpoints/files.py:31 | item assignment on a dict replaces that one key; on anything else it fails |
| Records.SetFieldIdempotent | backend/src/api/v1/endpoints/pipeline_callback.py:51 | setting the same field to the same value twice is setting it once |
| Records.Field | backend/src/api/v1/endpoints/files.py:34 | subscripting succeeds exactly on a dict holding the key, and yields that key's value |
| Records.AsText | backend/src/api/v1/schemas/file_schemas.py:14-18 | a str field validates exactly when the value is a string |
| Records.MakeFileOut | backend/src/api/v1/schemas/file_schemas.py:14-18 | a FileOut is built exactly when the filename is a string and the status one of the three statuses |
| Common.GroupDirsLayout | backend/src/utils/common.py:29-51 | the four group directories are distinct children of the group root |
| Common.StageDir | backend/src/utils/common.py:53-54 | the stage directory is final/ exactly for "final" and process/ for every other stage |
| Common.BaseName | backend/src/utils/common.py:59 | rsplit("/", 1)[-1] is a suffix of the name without a slash, and the name itself when it has none |
| Common.Parents | backend/src/utils/common.py:99 | the parent of each extracted target, in order |
| Common.StrictlyUnderIff | backend/src/utils/common.py:97 | the string test startswith(out_dir + "/") holds exactly for paths strictly below out_dir |
| Common.ExtractTargetSome | backend/src/utils/common.py:89-98 | an extracted member is no directory and no macOS trash, has an allowed extension, and lands strictly below out_dir at its resolved path |
| Common.TrashNoTarget | backend/src/utils/common.py:58-60 | a member that _is_trash_member flags is never extracted, whatever its suffix |
| Common.BaseNameAfterSlash | backend/src/utils/common.py:59 | the base name of "dir/name" is name when name has no slash |
| Common.ResourceForkSkipped | backend/src/utils/common.py:58-60 | every member under __MACOSX/ is skipped |
| Common.DotUnderscoreSkipped | backend/src/utils/common.py:58-60 | a "._" file in any directory is skipped |
| Common.DsStoreSkipped | backend/src/utils/common.py:58-60 | a .DS_Store in any directory is skipped |
| Common.ExtractStep | backend/src/utils/common.py:89-102 | each member adds its resolved target to the list and its bytes to the file system exactly when it passes every filter |
| Common.ExtractedTargetsSafe | backend/src/utils/common.py:83-103 | every path extract_zip_filtered writes is an allowed file strictly below out_dir, whatever the archive names |
| Common.TargetSafe | backend/src/utils/common.py:94-98 | a member passing the extension and containment tests has a safe target |
| Common.AllowedName | backend/src/utils/common.py:62-63 | a name with an allowed suffix has a proper last component |
| Common.ResolvedName | backend/src/utils/common.py:96 | resolving a member name ends in the name's last component |
| Common.FileSystem.EnsureGroupDirs | backend/src/utils/common.py:44-51 | ensure_group_dirs creates the four directories and their parents and touches no file |
| Common.FileSystem.EnsureDir | backend/src/services/report/report.py:187-188 | a missing directory is created with all its parents, an existing one is left alone, and no file changes |
| Common.FileSystem.EnsureTrainDirs | backend/src/services/scheduler/train.py:18-24 | the texts/ and images/ training directories and their parents exist afterwards; no file changes |
| Common.FileSystem.AtomicWriteJson | backend/src/utils/common.py:107-126 | the parent directories are created and the file holds the object exactly when the write succeeds; otherwise no file changes |
| Common.FileSystem.Unlink | backend/src/api/v1/endpoints/files.py:83-84 | unlink removes exactly that file, and fails on a directory |
| Common.FileSystem.RemoveTree | backend/src/api/v1/endpoints/groups.py:133-139 | rmtree succeeds exactly when the root is a directory, and then removes every file and directory under it and nothing else; on a regular file or a missing path it raises and nothing changes |
| Common.FileSystem.ExtractZipFiltered | backend/src/utils/common.py:83-105 | the written list and the new files are those of the filter specification, and the output directory and each target's parents exist |
| LocalStorage.JsonName | backend/src/infra/storage/local_storage.py:116-117 | with_suffix(".json") gives a proper name ending in .json, and a name without a separator stays without one |
| LocalStorage.NormalizeNamed | backend/src/infra/storage/local_storage.py:116-118 | resolving the suffixed path resolves the directory part and keeps the .json name last |
| LocalStorage.KeyToPathInside | backend/src/infra/storage/local_storage.py:116-125 | every key the store accepts names a .json document inside the base directory, strictly below it unless the base's own name ends in .json |
| LocalStorage.RootStoreRefusesEveryKey | backend/src/infra/storage/local_storage.py:122-125 | with base "/" the prefix "//" never matches and the base itself is never a .json path, so every key is refused with ValueError |
| LocalStorage.SameDocumentForExtensions | backend/src/infra/storage/local_storage.py:117 | keys differing only in the last component's extension (or lacking one) address the same document |
| LocalStorage.PlainKey | backend/src/infra/storage/local_storage.py:116-125 | a key "folder/id" of plain names is the document base/folder/id.json |
| LocalStorage.FolderJoin | backend/src/infra/storage/local_storage.py:104 | joining "folder/" under the base adds exactly the component folder |
| LocalStorage.PlainPathChecked | backend/src/infra/storage/local_storage.py:122-125 | a path two plain components below the base passes the base check unchanged |
| LocalStorage.SameNamedSamePath | backend/src/infra/storage/local_storage.py:116-120 | the document path depends on the key only through the suffixed, unresolved path |
| LocalStorage.SameNamedPath | backend/src/infra/storage/local_storage.py:117 | with_suffix replaces the last component's extension by .json and keeps the directory |
| LocalStorage.LastPartWithSuffix | backend/src/infra/storage/local_storage.py:117 | joining dir + name puts the name last, after the directory's components |
| LocalStorage.ReadAfterCreate | backend/src/infra/storage/local_storage.py:47-58 | a successful create makes the next read of that key return the created document |
| LocalStorage.ReadAfterReplace | backend/src/infra/storage/local_storage.py:53-71 | a successful replace makes the next read of that key return the new document |
| LocalStorage.ReadAfterUpdate | backend/src/infra/storage/local_storage.py:73-89 | a successful update read the key first and the next read returns the patch applied to the old document |
| LocalStorage.FailureChangesNothing | backend/src/infra/storage/local_storage.py:47-71 | a failed create or replace (existing key, version mismatch, refused key, disk failure) leaves every document and version as it was |
| LocalStorage.CreateNeverClobbers | backend/src/infra/storage/local_storage.py:47-50 | create without overwrite on an existing key raises FileExistsError and changes nothing |
| LocalStorage.ReplaceLeavesOthers | backend/src/infra/storage/local_storage.py:60-71 | a replace changes no document at another path |
| LocalStorage.CreateLeavesOthers | backend/src/infra/storage/local_storage.py:47-51 | a create changes no document at another path |
| LocalStorage.WriteVersionIsFresh | backend/src/infra/storage/local_storage.py:66-71 | each successful replace returns a version above every version of the store, and the clock bound is preserved |
| LocalStorage.NoLostUpdate | backend/src/infra/storage/local_storage.py:66-70 | with the strictly increasing version that stands for mtime, the second of two writers that both matched version v with if_match_mtime gets FileExistsError, so they cannot both succeed |
| LocalStorage.DeleteRemoves | backend/src/infra/storage/local_storage.py:91-98 | after a successful delete the key no longer exists |
| LocalStorage.DeleteMissing | backend/src/infra/storage/local_storage.py:91-98 | deleting a missing document succeeds exactly when missing_ok is set |
| LocalStorage.CreatedIsListed | backend/src/infra/storage/local_storage.py:103-112 | a created document appears in list("", recursive=True) under its relative key |
| LocalStorage.DocumentListed | backend/src/infra/storage/local_storage.py:103-112 | every document strictly below the base appears in the recursive listing of the whole store |
| LocalStorage.ResolveEmpty | backend/src/infra/storage/local_storage.py:104 | base / "" resolves to the base itself |
| LocalStorage.JsonStore.constructor | backend/src/infra/storage/local_storage.py:37-43 | a new store has the resolved base and no documents |
| LocalStorage.JsonStore.Create | backend/src/infra/storage/local_storage.py:47-51 | create's outcome and new state are those of the create specification (FileExistsError without overwrite on an existing key) |
| LocalStorage.JsonStore.Read | backend/src/infra/storage/local_storage.py:53-58 | read returns the stored document, or FileNotFoundError / ValueError |
| LocalStorage.JsonStore.Replace | backend/src/infra/storage/local_storage.py:60-71 | replace checks if_match_mtime against the current version, writes atomically and returns the new version |
| LocalStorage.JsonStore.Update | backend/src/infra/storage/local_storage.py:73-89 | update checks the version, reads, applies the patch and writes the result atomically |
| LocalStorage.JsonStore.Delete | backend/src/infra/storage/local_storage.py:91-98 | delete removes the document; a missing one is an error unless missing_ok |
| LocalStorage.JsonStore.Exists | backend/src/infra/storage/local_storage.py:100-101 | exists reports whether the key's document is present, or the key error |
| LocalStorage.JsonStore.List | backend/src/infra/storage/local_storage.py:103-112 | list returns every matching document's relative key, each once, in directory order; a prefix escaping the base is ValueError |
| LocalStorage.JsonStore.AtomicWrite | backend/src/infra/storage/local_storage.py:152-181 | the atomic write either replaces the document with a new version or, on failure, changes nothing |
| PipelineCallback.PostprocessingRequest | backend/src/api/v1/endpoints/pipeline_callback.py:15-21 | the request carries the url, port and callback, and source/dst are the group's stage directories under /out/var/data/groups |
| PipelineCallback.TriggerPostprocessing | backend/src/api/v1/endpoints/pipeline_callback.py:15-28 | exactly one GET is sent, whatever its outcome; failures are swallowed |
| PipelineCallback.PostprocessingCallback | backend/src/api/v1/endpoints/pipeline_callback.py:31-56 | the postprocessing callback's answer and new store and mirror state are those of the callback specification |
| PipelineCallback.OcrCallback | backend/src/api/v1/endpoints/pipeline_callback.py:58-87 | the OCR callback does the same, and schedules postprocessing from process/ to final/ exactly as the follow-up rule says |
| PipelineCallback.HandleCallback | backend/src/api/v1/endpoints/pipeline_callback.py:32-56 | the shared body: ids checked, fid resolved, status recorded in the store and mirrored under status/ |
| PipelineCallback.MissingIdsRejected | backend/src/api/v1/endpoints/pipeline_callback.py:38-39 | a payload without group_uuid or filename is answered 400 and nothing changes |
| PipelineCallback.UnresolvedIsNotFound | backend/src/api/v1/endpoints/pipeline_callback.py:41-44 | without file_uuid, a filename that does not resolve is answered 404 and nothing changes |
| PipelineCallback.MissingRecordIsNotFound | backend/src/api/v1/endpoints/pipeline_callback.py:46-48 | a file id without a record is answered 404 and nothing changes |
| PipelineCallback.CallbackSetsStatus | backend/src/api/v1/endpoints/pipeline_callback.py:50-54 | after a successful callback the record reads back with only its status replaced, and the mirror file holds the same record |
| PipelineCallback.RecordStatusOnRecord | backend/src/api/v1/endpoints/pipeline_callback.py:50-56 | on a readable record with working disks, the answer carries the record's filename (or "") and the new status, and the store and mirror are rewritten |
| PipelineCallback.AnsweredRecordStatus | backend/src/api/v1/endpoints/pipeline_callback.py:47-54 | a successful callback implies the record existed as a dict and both writes succeeded |
| PipelineCallback.RedeliveryChangesNothing | backend/src/api/v1/endpoints/pipeline_callback.py:50-56 | delivering the same callback twice gives the same answer and leaves the documents and mirror files as the first delivery left them |
| PipelineCallback.RewriteKeepsDocs | backend/src/api/v1/endpoints/pipeline_callback.py:50-53 | replacing a record with the document it already holds leaves every document unchanged |
| PipelineCallback.AnsweredMeansIdsGiven | backend/src/api/v1/endpoints/pipeline_callback.py:38-39 | every answered callback had a group_uuid and a filename |
| PipelineCallback.FollowUpOnlyForUpgrading | backend/src/api/v1/endpoints/pipeline_callback.py:83-85 | postprocessing is scheduled exactly when the callback succeeded with status "upgrading", from the group's process/ to its final/ directory |
| FilesEndpoints.GroupOf | backend/src/api/v1/endpoints/files.py:34 | rec["group_uuid"] yields a group id exactly when the record is a dict whose group_uuid is a string |
| FilesEndpoints.LoadRecordOf | backend/src/api/v1/endpoints/files.py:49-51 | the record is read after the exists check, 404 when missing |
| FilesEndpoints.PatchFile | backend/src/api/v1/endpoints/files.py:24-44 | PATCH /files/{fid}: outcome and new state are those of the patch specification (status set, mirror written, then store replaced) |
| FilesEndpoints.GetFileContent | backend/src/api/v1/endpoints/files.py:47-56 | GET content: the stage file's JSON, 404 for a missing record or missing content |
| FilesEndpoints.PutFileContent | backend/src/api/v1/endpoints/files.py:59-74 | PUT content: the payload is written to the stage file, and for stage "process" the record becomes "done" in store and mirror |
| FilesEndpoints.DeleteFileContent | backend/src/api/v1/endpoints/files.py:77-85 | DELETE content: the stage file is unlinked when present; 204 in every case |
| FilesEndpoints.StageValidated | backend/src/api/v1/endpoints/files.py:47-48 | a stage other than process/final is refused with 422 by all three content endpoints and nothing changes |
| FilesEndpoints.MissingRecord | backend/src/api/v1/endpoints/files.py:28-29 | without a record, PATCH and GET answer 404 and DELETE answers 204, changing nothing |
| FilesEndpoints.PatchMirrorFirst | backend/src/api/v1/endpoints/files.py:34-37 | when the store write fails after the mirror write, the mirror already holds the new status and the store the old one |
| FilesEndpoints.PatchSetsStatus | backend/src/api/v1/endpoints/files.py:30-43 | after a successful PATCH the store and the mirror hold the record with only its status replaced, and the answer carries that status |
| FilesEndpoints.ResponseNameRule | backend/src/api/v1/endpoints/files.py:42 | the answer's filename is original_name when truthy, else filename, else "" |
| FilesEndpoints.PutThenGet | backend/src/api/v1/endpoints/files.py:59-74 | content written by PUT is what the next GET of the same stage returns |
| FilesEndpoints.PutProcessMarksDone | backend/src/api/v1/endpoints/files.py:68-72 | a successful PUT to process marks the record "done" in the store and in its mirror; a PUT to final leaves the store alone |
| FilesEndpoints.DeleteThenGet | backend/src/api/v1/endpoints/files.py:77-85 | after DELETE answered 204 on a valid stage, GET of that content fails, with 404 when the record names its group |
| FilesUtils.StripResult | backend/src/utils/files.py:7-13 | the optional "_result" suffix (any case) is removed when present and the stem kept otherwise; the result is a prefix |
| FilesUtils.StripIndex | backend/src/utils/files.py:8-14 | a trailing "_" and three or more digits are removed when present; the result is a prefix |
| FilesUtils.StemNorm | backend/src/utils/files.py:11-15 | the normalised stem is a prefix of Path(name).stem |
| FilesUtils.NameOfPlain | backend/src/utils/files.py:12 | a plain name is its own last component |
| FilesUtils.StemNormPlainName | backend/src/utils/files.py:11-15 | a scan name with an extension normalises to its own stem |
| FilesUtils.IndexSuffixOf | backend/src/utils/files.py:8-14 | stem + "_" + three or more digits has the index suffix, and stripping it gives the stem back |
| FilesUtils.OutputNameStem | backend/src/utils/files.py:12 | the stem of "<s>_<d>_result.json" is "<s>_<d>_result" |
| FilesUtils.StripResultOf | backend/src/utils/files.py:7-13 | stripping "_result" from t + "_result" gives t |
| FilesUtils.StemNormOutputName | backend/src/utils/files.py:11-15 | the OCR output name "<s>_<NNN>_result.json" normalises back to the scan stem s |
| FilesUtils.GuessGroupRoot | backend/src/utils/files.py:32-36 | whichever stage is named, the parent of the stage directory is the group root |
| FilesUtils.SameFoldedIff | backend/src/utils/files.py:70 | the stem comparison holds exactly when both sides fold to the same text |
| FilesUtils.FirstFile | backend/src/utils/files.py:73-78 | the pick is the first candidate that is an existing file, and None exactly when none is |
| FilesUtils.CollectMetaPaths | backend/src/utils/files.py:49-53 | the candidates from meta["path"], meta["disk_path"], meta["abs_path"] that exist as files, in that order |
| FilesUtils.CollectStemMatches | backend/src/utils/files.py:69-71 | the raw_data entries that are files and whose normalised stem folds to base_stem, appended in listing order |
| FilesUtils.CollectRawCandidates | backend/src/utils/files.py:60-71 | with raw_data/ present: the exact meta name when it exists, then the stem matches; nothing without raw_data/ |
| FilesUtils.PickFirstFile | backend/src/utils/files.py:73-78 | the loop returns the first candidate that is an existing file |
| FilesUtils.FindSourceImage | backend/src/utils/files.py:38-78 | the answer is the first existing file among the meta paths, the exact name under raw_data/ and the stem matches |
| FilesUtils.MetaErrSticks | backend/src/utils/files.py:49-53 | a meta value that cannot be a path ends the lookup with that error |
| FilesUtils.GroupFallback | backend/src/utils/files.py:56-57 | a missing or empty group_uuid argument falls back to meta["group_uuid"] |
| FilesUtils.MetaPathFirst | backend/src/utils/files.py:48-53 | an existing file named by meta["path"] is the first candidate |
| FilesUtils.MetaPrefixFirst | backend/src/utils/files.py:49-53 | later keys never displace the first candidate found |
| FilesUtils.TmpSibling | backend/src/utils/files.py:20 | the temporary file is the target's name plus ".tmp" in the same directory |
| FilesUtils.WriteTextAtomic | backend/src/utils/files.py:17-24 | the parents are created, and on success the target holds the text and no temporary remains; a failed replace leaves the temporary |
| FilesUtils.TmpSiblingDistinct | backend/src/utils/files.py:20 | the temporary file is a different path in the same directory |
| GroupsUtils.StrLtIrreflexive | backend/src/utils/groups.py:57 | Python's string order, used by sorted(), never puts a string before itself |
| GroupsUtils.StrLtTotal | backend/src/utils/groups.py:57 | any two distinct strings are ordered one way or the other |
| GroupsUtils.StrLtAsymmetric | backend/src/utils/groups.py:57 | no two strings are each before the other |
| GroupsUtils.StrLtTransitive | backend/src/utils/groups.py:57 | the string order is transitive |
| GroupsUtils.ElemsEmpty | backend/src/utils/groups.py:55 | a list is empty exactly when its set of ids is |
| GroupsUtils.InsertUnique | backend/src/utils/groups.py:56-57 | inserting an id into a strictly sorted list keeps it strictly sorted and adds exactly that id |
| GroupsUtils.SortedUnique | backend/src/utils/groups.py:55-57 | sorted(set(ids)) is strictly sorted and holds exactly the ids |
| GroupsUtils.SortedIsUnique | backend/src/utils/groups.py:57 | two strictly sorted lists with the same ids are equal, so sorted(set(...)) is determined by the set |
| GroupsUtils.JsonStrings | backend/src/utils/groups.py:59 | the file ids become JSON strings, one per id, in order |
| GroupsUtils.StringItems | backend/src/utils/groups.py:55 | an index's files list is read back exactly when every item is a string |
| GroupsUtils.IndexRoundTrip | backend/src/utils/groups.py:57-59 | the ids written into an index document read back unchanged |
| GroupsUtils.AppendGroupIndex | backend/src/utils/groups.py:51-59 | the index outcome and new store state are those of the append specification |
| GroupsUtils.AppendKeepsEveryId | backend/src/utils/groups.py:51-59 | after a successful append the index holds exactly the old ids and the new ones (sorted and de-duplicated when an index existed, the new list otherwise) |
| GroupsUtils.ExtractedAreAccepted | backend/src/utils/groups.py:62-65 | every archive member that extraction writes is one _should_accept admits |
| GroupsUtils.FlattenAppend | backend/src/utils/groups.py:35-39 | writing the chunks of two parts in turn writes their concatenation |
| GroupsUtils.SaveUploadToPath | backend/src/utils/groups.py:24-48 | the parent directories are created, and the target holds every chunk's bytes in order exactly when the write succeeds |
| GroupsEndpoints.OptText | backend/src/api/v1/endpoints/groups.py:43 | an optional form field is stored as its string or as null |
| GroupsEndpoints.OcrTrigger | backend/src/api/v1/endpoints/groups.py:80-84 | the OCR trigger goes to the ml-pipeline URL with the group's raw_data/ as source and process/ as destination |
| GroupsEndpoints.Ids | backend/src/api/v1/endpoints/groups.py:68 | file_ids holds each registration's id, in registration order |
| GroupsEndpoints.UploadZip | backend/src/api/v1/endpoints/groups.py:30-92 | upload_zip's answer and new store and disk state are those of the upload specification; on success exactly one OCR trigger for the group is sent per registered file |
| GroupsEndpoints.RegisterFiles | backend/src/api/v1/endpoints/groups.py:63-87 | the registration loop's outcome and state are those of the registration specification over the extracted files; on success one OCR trigger per registered file is sent, and on failure only triggers for the group |
| GroupsEndpoints.RegisterAt | backend/src/api/v1/endpoints/groups.py:64-87 | one loop iteration: the state is that of the registration specification one path further, with one OCR trigger per registered file |
| GroupsEndpoints.RegisterErrSticks | backend/src/api/v1/endpoints/groups.py:63-87 | a failed registration ends the request: later files change nothing |
| GroupsEndpoints.RegisterStep | backend/src/api/v1/endpoints/groups.py:64-66 | one more extracted path registers a file when it is a regular file and is skipped otherwise |
| GroupsEndpoints.RegisterStepFile | backend/src/api/v1/endpoints/groups.py:67-87 | after successful registrations, a regular file is registered by one loop iteration |
| GroupsEndpoints.RegisterStepSkip | backend/src/api/v1/endpoints/groups.py:65-66 | a path that is not a regular file is skipped |
| GroupsEndpoints.RegisterFile | backend/src/api/v1/endpoints/groups.py:67-87 | one iteration: the OCR trigger is sent exactly when the status mirror was written (its outcome ignored), record created; the state is that of one registration |
| GroupsEndpoints.Triggers | backend/src/api/v1/endpoints/groups.py:79-84 | n requests, every one the group's OCR trigger |
| GroupsEndpoints.JsonNameInjective | backend/src/api/v1/endpoints/groups.py:78 | different file ids give different mirror names |
| GroupsEndpoints.RegisterOneEffect | backend/src/api/v1/endpoints/groups.py:67-87 | one registration succeeds exactly when its mirror and record writes do, adding the next fresh id with its source path; a failed mirror write leaves the store untouched and a failed record write leaves the mirror written |
| GroupsEndpoints.RecordWriteKeeps | backend/src/api/v1/endpoints/groups.py:78-87 | writing one file's record and mirror keeps every other file's record and mirror |
| GroupsEndpoints.RegisterIds | backend/src/api/v1/endpoints/groups.py:63-68 | with fresh ids and working disks, registration succeeds, at most one id per extracted path, the k-th id being the k-th fresh one |
| GroupsEndpoints.RegisterRecords | backend/src/api/v1/endpoints/groups.py:63-87 | with working disks every registered file has its record and mirror in status progress, and no document outside files/ changes |
| GroupsEndpoints.RecordWriteStep | backend/src/api/v1/endpoints/groups.py:67-87 | one more registration keeps every earlier file recorded |
| GroupsEndpoints.RecordedInProgress | backend/src/api/v1/endpoints/groups.py:75 | a recorded file is in status progress |
| GroupsEndpoints.UploadStartEffect | backend/src/api/v1/endpoints/groups.py:37-46 | the start of the upload succeeds exactly when the card write does; the card goes to groups/<gid>.json and no file changes |
| GroupsEndpoints.IndexWriteEffect | backend/src/api/v1/endpoints/groups.py:90 | the index write goes to group_index/<gid>.json and succeeds exactly when the disk write does |
| GroupsEndpoints.UploadReads | backend/src/api/v1/endpoints/groups.py:46-90 | after the index write, whether or not it succeeded, the card and the registered files read back; the index reads back when it was written |
| GroupsEndpoints.UploadPhases | backend/src/api/v1/endpoints/groups.py:37-92 | when the card and every registration are written, the upload is the card write, the extraction, the registration loop and the index write, in that order, and answers the group exactly when the index write succeeds |
| GroupsEndpoints.UploadTail | backend/src/api/v1/endpoints/groups.py:63-92 | after the card write, the registrations and the index write leave the card in place, every registered file in progress and, when the index write succeeds, the registered ids indexed |
| GroupsEndpoints.UploadRecords | backend/src/api/v1/endpoints/groups.py:30-92 | with working disks a successful upload answers the group's fields; its card and index read back, the index lists the fresh ids in order, at most one per extracted file, each in progress |
| GroupsEndpoints.UploadCardLost | backend/src/api/v1/endpoints/groups.py:37-46 | a failed card write answers 500 and leaves the store and the files as they were; only the group's folders are created |
| GroupsEndpoints.UploadIndexLost | backend/src/api/v1/endpoints/groups.py:63-90 | a failed index write after working registrations answers 500, yet leaves the card readable and every registered file recorded in progress |
| GroupsEndpoints.ListFilesInGroup | backend/src/api/v1/endpoints/groups.py:95-113 | the list is that of the listing specification: 404 without an index, otherwise one entry per indexed id with a mirror |
| GroupsEndpoints.ListEntryOf | backend/src/api/v1/endpoints/groups.py:102-112 | one indexed id gives no entry without a mirror file, an error for a mirror that is not a JSON object or has an invalid status, else its entry |
| GroupsEndpoints.ListSnoc | backend/src/api/v1/endpoints/groups.py:101-112 | an id whose entry reads extends the listing by that entry, or leaves it as it was when the mirror is missing |
| GroupsEndpoints.ListFailsAt | backend/src/api/v1/endpoints/groups.py:101-112 | the first id whose entry fails decides the whole listing's error |
| GroupsEndpoints.ListErrSticks | backend/src/api/v1/endpoints/groups.py:101-112 | an unreadable mirror or invalid status ends the listing with that error |
| GroupsEndpoints.ListWithoutIndex | backend/src/api/v1/endpoints/groups.py:97-98 | a group without an index answers 404 |
| GroupsEndpoints.ListedAreIndexedWithMirror | backend/src/api/v1/endpoints/groups.py:101-113 | every listed file is an indexed id of this group with a mirror, every indexed id with a mirror is listed, and there are no more entries than ids |
| GroupsEndpoints.ListDefaults | backend/src/api/v1/endpoints/groups.py:110-111 | a mirror without original_name or status is listed with filename "" and status progress |
| GroupsEndpoints.PatchGroup | backend/src/api/v1/endpoints/groups.py:116-127 | patch_group's answer and new store are those of the patch specification |
| GroupsEndpoints.PatchErrSticks | backend/src/api/v1/endpoints/groups.py:122-125 | a failed field assignment ends the patch |
| GroupsEndpoints.PatchGroupAbsent | backend/src/api/v1/endpoints/groups.py:119-120 | patching a missing group answers 404 and changes nothing |
| GroupsEndpoints.PatchOnlyGiven | backend/src/api/v1/endpoints/groups.py:122-125 | fond, opis and delo take the given values and keep their old ones when not given; every other field is unchanged |
| GroupsEndpoints.PatchGroupStores | backend/src/api/v1/endpoints/groups.py:121-127 | a successful patch stores the patched card and answers its fields |
| GroupsEndpoints.FileKeysOf | backend/src/api/v1/endpoints/groups.py:145-146 | the record keys are files/<fid> for each indexed id, in order |
| GroupsEndpoints.DeleteGroup | backend/src/api/v1/endpoints/groups.py:130-149 | delete_group's answer and new state are those of the delete specification, where a failed rmtree (a regular file at the group path) is swallowed |
| GroupsEndpoints.Cascade | backend/src/api/v1/endpoints/groups.py:142-147 | the card is deleted, then every indexed record and the index when an index exists |
| GroupsEndpoints.DiscardRecords | backend/src/api/v1/endpoints/groups.py:145-146 | the loop deletes the record keys in order with missing_ok |
| GroupsEndpoints.DiscardStep | backend/src/api/v1/endpoints/groups.py:146 | one more key is deleted after the previous ones succeeded |
| GroupsEndpoints.DiscardErrSticks | backend/src/api/v1/endpoints/groups.py:145-146 | a refused key ends the loop |
| GroupsEndpoints.DiscardAllRemoves | backend/src/api/v1/endpoints/groups.py:145-146 | the deletions succeed exactly when every key is accepted; they only remove documents, and afterwards every key is gone |
| GroupsEndpoints.CascadeRemovesAll | backend/src/api/v1/endpoints/groups.py:142-147 | after a 204 the card, the index and every indexed record are gone and no document was added |
| GroupsEndpoints.DeleteKeepsOther | backend/src/api/v1/endpoints/groups.py:146 | deleting one key leaves the documents of other keys readable as before |
| GroupsEndpoints.CascadeTolerant | backend/src/api/v1/endpoints/groups.py:142-147 | with accepted keys and a readable index, the deletion answers 204 whether or not any document was present |
| GroupsEndpoints.PlainKeysValid | backend/src/api/v1/endpoints/groups.py:146 | the record key of every plain file id is accepted by the store |
| GroupsEndpoints.DeleteGroupRemovesTree | backend/src/api/v1/endpoints/groups.py:133-139 | when the group path is a directory, nothing under it remains |
| GroupsEndpoints.DeleteGroupKeepsFile | backend/src/api/v1/endpoints/groups.py:133-139 | when the group path is not a directory, the swallowed rmtree error leaves every file and directory as it was |
| GroupsEndpoints.DeleteGroupComplete | backend/src/api/v1/endpoints/groups.py:130-149 | for plain ids the deletion answers 204 and removes the card, the index and every indexed record |
| ReportEntities.PyStr | backend/src/services/report/report.py:124 | str() of a string is the string itself |
| ReportEntities.FirstOrPicksFirstTruthy | backend/src/services/report/report.py:117-123 | an "a or b or ... or ''" chain yields the first truthy key's value, or "" when none is truthy |
| ReportEntities.Iterate | backend/src/services/report/report.py:133 | a list yields its items, an empty string or dict yields nothing, and a non-empty string or dict (AttributeError) or any other value (TypeError) raises |
| ReportEntities.IterateFalsy | backend/src/services/report/report.py:137 | "x or []" over a falsy x iterates nothing |
| ReportEntities.NormEntity | backend/src/services/report/report.py:114-124 | _norm_entity succeeds exactly on a dict (e.get raises AttributeError otherwise) |
| ReportEntities.NormEntityNoType | backend/src/services/report/report.py:116-119 | an entity without a truthy type, label, kind or entity_type has type "" |
| ReportEntities.PickCorrectedTextFallback | backend/src/services/report/report.py:108-109 | the text is str(corrected_text) when truthy, else str(text) when truthy, else "" |
| ReportEntities.RegionPairs | backend/src/services/report/report.py:133-140 | each kept region has a non-empty stripped text or truthy entities, at most one pair per region |
| ReportEntities.IterTextAndEnts | backend/src/services/report/report.py:126-142 | a dict without "regions" gives exactly one pair, and a payload that is not a dict raises |
| ReportEntities.FindType | backend/src/services/report/report.py:51 | the position of the group of that type, or -1 exactly when no group has it |
| ReportEntities.FindTypeUnique | backend/src/services/report/report.py:51 | with distinct types, the group found is the one with that type |
| ReportEntities.AddValueLookup | backend/src/services/report/report.py:51-53 | appending a value to a type adds it at the end of that type's list and changes no other type |
| ReportEntities.AddNewType | backend/src/services/report/report.py:51-52 | a new type is added after every existing one |
| ReportEntities.AddKnownType | backend/src/services/report/report.py:51-53 | a value for a known type keeps every type's position |
| ReportEntities.CollectLookup | backend/src/services/report/report.py:44-53 | after grouping, types are distinct, each type's list is its values in order of appearance, and exactly the types with kept entities are present |
| ReportEntities.Dedup | backend/src/services/report/report.py:57-64 | the de-duplicated list has no repeats and the same values as the input |
| ReportEntities.DedupPrefix | backend/src/services/report/report.py:60-63 | de-duplication keeps first occurrences in order: a prefix's result is a prefix of the whole result |
| ReportEntities.DedupDistinct | backend/src/services/report/report.py:57-64 | a list without repeats is unchanged by de-duplication |
| ReportEntities.DedupAll | backend/src/services/report/report.py:56-64 | every type keeps its place and gets its de-duplicated values |
| ReportEntities.DedupAllLookup | backend/src/services/report/report.py:56-64 | de-duplication keeps the type positions and de-duplicates each type's values |
| ReportEntities.DedupAllFind | backend/src/services/report/report.py:56-64 | de-duplication keeps every type's position |
| ReportEntities.PickListedFacts | backend/src/services/report/report.py:68-70 | the types taken in the order list are distinct groups of the input with listed types, and every listed type present is taken |
| ReportEntities.UnpickedFacts | backend/src/services/report/report.py:71-73 | the remaining groups are exactly the input groups whose type was not taken |
| ReportEntities.UnpickedDistinct | backend/src/services/report/report.py:71-73 | the remaining groups have distinct types |
| ReportEntities.InFind | backend/src/services/report/report.py:51 | a group in the list has its type found |
| ReportEntities.ReorderSplit | backend/src/services/report/report.py:66-74 | the reordered groups are the input's, types listed in order first, the rest after |
| ReportEntities.ReorderCovers | backend/src/services/report/report.py:66-74 | reordering loses no group |
| ReportEntities.ReorderKeeps | backend/src/services/report/report.py:66-74 | reordering keeps every type's values and which types are present, and puts every listed type before every unlisted one |
| ReportEntities.NormPairsStep | backend/src/services/report/report.py:45-48 | each entity adds its stripped type and value, or raises |
| ReportEntities.NormPairsErrSticks | backend/src/services/report/report.py:45-46 | an entity that raises ends the grouping with that error |
| ReportEntities.NormPairsFailStep | backend/src/services/report/report.py:45-46 | the first entity that raises turns the grouping of the prefix into AttributeError |
| ReportEntities.CollectStep | backend/src/services/report/report.py:49-53 | one more pair is appended to its type unless both its type and value are empty |
| ReportEntities.CollectGroups | backend/src/services/report/report.py:44-53 | the first loop groups the normalised pairs, or raises the first entity's error |
| ReportEntities.DedupGroups | backend/src/services/report/report.py:56-64 | the de-duplication loop gives each type its values without repeats, first occurrences in order |
| ReportEntities.DedupValues | backend/src/services/report/report.py:58-63 | the inner loop with its seen set keeps the first occurrence of each value, in order |
| ReportEntities.ReorderGroups | backend/src/services/report/report.py:66-74 | the reordering loops give the listed types first, in the order's order, then the rest |
| ReportEntities.GroupEntities | backend/src/services/report/report.py:33-76 | _group_entities returns the grouping specification's result |
| ReportEntities.GroupingShape | backend/src/services/report/report.py:33-76 | the result has distinct types, exactly the types that occur, each type's values in order (de-duplicated when asked), listed types before unlisted ones, listed types in the order's order, and the other types in order of first appearance |
| ReportEntities.GroupingContents | backend/src/services/report/report.py:44-74 | the contents half of the grouping: distinct types, present exactly when they occur, values in order and de-duplicated when asked, listed types first |
| ReportEntities.GroupingOrder | backend/src/services/report/report.py:44-74 | the order half of the grouping: listed types in the order's order, unlisted ones (or all when no order is given) in order of first appearance |
| ReportEntities.TypeOrder | backend/src/services/report/report.py:66-74 | reordering any grouping with the collected types puts listed types in the order's order and unlisted ones in order of first appearance |
| ReportEntities.FirstKept | backend/src/services/report/report.py:45-53 | the position of the first kept entity of a type, or -1 |
| ReportEntities.FirstListed | backend/src/services/report/report.py:67 | the first position of a type in the order, non-negative exactly when the type is listed |
| ReportEntities.CollectOrder | backend/src/services/report/report.py:44-53 | a type is in the grouping exactly when some entity of it is kept, and types come in the order of their first kept entity |
| ReportEntities.FindTypeSnoc | backend/src/services/report/report.py:51-52 | a new type is added at the end and every other position stays |
| ReportEntities.FindTypeAppend | backend/src/services/report/report.py:66-74 | where a type sits in two concatenated groupings |
| ReportEntities.PickListedPresent | backend/src/services/report/report.py:68-70 | the first reordering loop picks exactly the listed types that are present |
| ReportEntities.PickListedOrder | backend/src/services/report/report.py:68-70 | the picked types come in the order of their first listing |
| ReportEntities.UnpickedOrder | backend/src/services/report/report.py:71-73 | the second loop adds exactly the types not picked, in their order in the grouping |
| ReportEntities.ReorderOrder | backend/src/services/report/report.py:66-74 | after reordering, listed types follow the order and unlisted ones keep their relative order |
| ReportBuilder.GroupCard | backend/src/services/report/report.py:158-165 | corrected: the card is 404 exactly when the group record is missing, and otherwise read from a dict record, with fond/opis/delo defaulting to "" |
| ReportBuilder.MissingGroupIsServerError | backend/src/services/report/report.py:159-161 | as written, a missing group raises AttributeError (the http module has no HTTP_404_NOT_FOUND), answered 500 where 404 was meant; otherwise both readings agree |
| ReportBuilder.ListOf | backend/src/services/report/report.py:172 | list() of a list is its items, and of a string its characters |
| ReportBuilder.FallbackIdsSound | backend/src/services/report/report.py:173-177 | without an index, every id collected comes from a record of this group |
| ReportBuilder.FallbackIdsComplete | backend/src/services/report/report.py:173-177 | without an index, every record of this group contributes its file_uuid |
| ReportBuilder.FallbackErrSticks | backend/src/services/report/report.py:174-177 | a record that cannot be read or lacks file_uuid ends the report with that error |
| ReportBuilder.ScanFileRecords | backend/src/services/report/report.py:174-177 | the fallback loop collects the group's file ids from the listed records in listing order |
| ReportBuilder.SetDefault | backend/src/services/report/report.py:182 | setdefault adds the key only when missing and changes nothing else |
| ReportBuilder.MetasSpec | backend/src/services/report/report.py:179-183 | every loaded record has a file_uuid, one record per id |
| ReportBuilder.MetasErrSticks | backend/src/services/report/report.py:180-181 | a record that cannot be read ends the report |
| ReportBuilder.LoadMetas | backend/src/services/report/report.py:179-183 | the loop reads each id's record and sets its file_uuid default, in id order |
| ReportBuilder.KeyOf | backend/src/services/report/report.py:184 | the sort key is the lower-cased filename, else original_name, else "" |
| ReportBuilder.KeyAll | backend/src/services/report/report.py:184 | every record gets its sort key, in order |
| ReportBuilder.InsertSorted | backend/src/services/report/report.py:184 | inserting into a sorted list keeps it sorted and adds exactly that record |
| ReportBuilder.BelowAll | backend/src/services/report/report.py:184 | a key below the first of a sorted list is below every key in it |
| ReportBuilder.SortByKeySorted | backend/src/services/report/report.py:184 | metas.sort gives a list sorted by key that is a permutation of the records |
| ReportBuilder.WithKeyCons | backend/src/services/report/report.py:184 | the records with a given key, read off a list with one more record in front |
| ReportBuilder.InsertWithKey | backend/src/services/report/report.py:184 | insertion puts a record after every record with an equal key |
| ReportBuilder.WithKeySortedAbove | backend/src/services/report/report.py:184 | no record of a sorted list has a key below its first |
| ReportBuilder.WithKeyNone | backend/src/services/report/report.py:184 | a list without the key has no records with it |
| ReportBuilder.SortByKeyStable | backend/src/services/report/report.py:184 | the sort is stable: records with equal keys keep their relative order |
| ReportBuilder.ReportStageDir | backend/src/services/report/report.py:111-112 | _process_dir picks final/ exactly for stage "done" and process/ otherwise |
| ReportBuilder.ReportKeyMatchesOutput | backend/src/services/report/report.py:79-84 | a scan's name and its OCR output "<stem>_<NNN>_result.json" normalise to the same key |
| ReportBuilder.StemIndexDomain | backend/src/services/report/report.py:192-195 | the index holds exactly the keys of the globbed .json files, each mapped to one such file |
| ReportBuilder.StemIndexLastWins | backend/src/services/report/report.py:193-195 | when several files share a key, the last one globbed is the one kept |
| ReportBuilder.IndexByStem | backend/src/services/report/report.py:192-195 | the loop builds the stem index of the stage directory |
| ReportBuilder.KnownFields | backend/src/services/report/report.py:204 | the filter keeps exactly the requested fields that have a label, in order |
| ReportBuilder.SelectFields | backend/src/services/report/report.py:198-204 | every selected field has a label; given fields are filtered, an empty or missing list selects the defaults |
| ReportBuilder.KnownFieldsAll | backend/src/services/report/report.py:204 | a list of labelled fields passes the filter unchanged |
| ReportBuilder.SelectFieldsDefault | backend/src/services/report/report.py:198-202 | no fields selects the eight default fields |
| ReportBuilder.Header | backend/src/services/report/report.py:206 | the header is each selected field's label, in order |
| ReportBuilder.Row | backend/src/services/report/report.py:222 | a row has one cell per selected field, that field's value or "" |
| ReportBuilder.PairRowsShape | backend/src/services/report/report.py:228-254 | a text pair gives one row without entities and one row per entity type otherwise, each with the scan number, the text, the type and the joined values |
| ReportBuilder.PairRowsCells | backend/src/services/report/report.py:236-254 | a pair gives at least one row, each as wide as the selection and carrying the scan number |
| ReportBuilder.PairsRowsShape | backend/src/services/report/report.py:228-254 | a file's pairs give at least one row per pair, each as wide as the selection and carrying the scan number |
| ReportBuilder.FileRowsShape | backend/src/services/report/report.py:210-254 | a file without a result gives one row with empty text, entity and extra cells; every row carries the scan number |
| ReportBuilder.AllRowsWidth | backend/src/services/report/report.py:210-254 | every row is as wide as the selection |
| ReportBuilder.AllRowsPrefix | backend/src/services/report/report.py:210-254 | the rows of the first n files come first, in file order |
| ReportBuilder.AppendPairRows | backend/src/services/report/report.py:236-254 | the loop over the grouped entities appends the pair's rows |
| ReportBuilder.PairsRowsErrSticks | backend/src/services/report/report.py:228-234 | an entity that raises ends the report |
| ReportBuilder.PayloadRows | backend/src/services/report/report.py:228-254 | the loop over a payload's pairs appends their rows, or raises |
| ReportBuilder.RowsOfFile | backend/src/services/report/report.py:211-254 | one file's rows: its result looked up by normalised stem, read and turned into rows |
| ReportBuilder.BuildRows | backend/src/services/report/report.py:210-254 | the loop over the sorted files builds the rows of every file, numbered from 1 |
| ReportBuilder.CollectFileIds | backend/src/services/report/report.py:167-177 | the file ids come from the index when there is one, else from the records of the group |
| ReportBuilder.LoadFiles | backend/src/services/report/report.py:158-184 | corrected: the card and the group's records sorted by name |
| ReportBuilder.AssembleReport | backend/src/services/report/report.py:190-254 | once the card and sorted files are known, the report is the selected fields' header and the rows of every file, or the first file's error |
| ReportBuilder.BuildReport | backend/src/services/report/report.py:146-254 | corrected: the header and rows are those of the report specification; only the stage directory may be created, and no file changes |
| ReportBuilder.ReportAligned | backend/src/services/report/report.py:204-254 | the header has one label per selected field and every row is exactly as wide |
| ReportBuilder.MissingGroupNotFound | backend/src/services/report/report.py:159-161 | with the corrected card, a report for a missing group answers 404 |
| Backoff.Delay | backend/src/tasks/ml_tasks.py:16-27 | the sleep before retry k is between 0.5 s and the 8 s cap |
| Backoff.Schedule | backend/src/tasks/ml_tasks.py:17-27 | the sleeps after n failures are the first n delays, in order |
| Backoff.DelayValues | backend/src/tasks/ml_tasks.py:26-27 | the delays are 0.5, 1, 2, 4 and 8 s, then stay at 8 s |
| Backoff.DelayMonotone | backend/src/tasks/ml_tasks.py:27 | delays never decrease |
| Backoff.ScheduleSum | backend/src/tasks/ml_tasks.py:17-27 | the total sleep after n failures (n at most 5) is 0, 0.5, 1.5, 3.5, 7.5 or 15.5 s |
| Backoff.ScheduleSumBound | backend/src/tasks/ml_tasks.py:17-27 | the six attempts sleep at most 15.5 s in total |
| Backoff.FirstOkFrom | backend/src/tasks/ml_tasks.py:17-22 | the first succeeding attempt at or after from, or none when every attempt up to the limit fails |
| Backoff.FirstOk | backend/src/tasks/ml_tasks.py:17-22 | the first succeeding attempt exists exactly when some attempt succeeds, and every earlier one failed |
| MlTasks.ServiceUrl | backend/src/tasks/ml_tasks.py:9 | rstrip("/") + "/" ends in exactly one slash and keeps the URL up to its trailing slashes |
| MlTasks.OcrCallbackUrl | backend/src/tasks/ml_tasks.py:10 | the callback URL ends in the OCR callback path |
| MlTasks.PipelineRequest | backend/src/tasks/ml_tasks.py:11-15 | the request's source and destination are the group's raw_data/ and process/ under /out/var/data/groups |
| MlTasks.StartMlPipeline | backend/src/tasks/ml_tasks.py:8-27 | one to six identical requests; success returns after the first succeeding attempt, six failures raise; the sleeps are the back-off schedule, none after the last attempt |
| MlTasks.PipelineDelays | backend/src/tasks/ml_tasks.py:26-27 | the sleeps are 0.5, 1, 2, 4 and 8 s in turn |
| TrainScheduler.WipedFiles | backend/src/services/scheduler/train.py:48 | rmtree removes exactly the files under /out/var/train |
| TrainScheduler.WipedDirs | backend/src/services/scheduler/train.py:48 | rmtree removes /out/var/train and every directory under it, and keeps every other directory |
| TrainScheduler.ResetDirs | backend/src/services/scheduler/train.py:48-49 | after rmtree and mkdir, /out/var/train exists and no directory below it remains |
| TrainScheduler.ResetEmpties | backend/src/services/scheduler/train.py:47-49 | after a reset nothing but the empty training directory is under it |
| TrainScheduler.ResetIdempotent | backend/src/services/scheduler/train.py:47-49 | a second reset changes nothing and can always run |
| TrainScheduler.ResetTrainDir | backend/src/services/scheduler/train.py:47-49 | the reset succeeds exactly when the directory and its parent exist; a missing directory raises and changes nothing |
| TrainScheduler.ResetAfterAttempt | backend/src/services/scheduler/train.py:47-49 | the finally block of any attempt leaves the reset state; it can fail only on the first, and then rmtree has emptied the directory when it existed and the failed mkdir changed nothing |
| TrainScheduler.ModelTrain | backend/src/services/scheduler/train.py:26-50 | the directories are ensured, one to six identical requests are sent with the back-off sleeps; each attempt resets the directory, and a reset that cannot run raises FileNotFoundError on the first attempt, leaving the ensured directories with /out/var/train and everything under it removed when it existed, and unchanged otherwise |
| TrainScheduler.DeployedLayoutResets | backend/src/services/scheduler/train.py:18-24 | with the store under /out/var, the ensured directories make the reset possible |
| TrainScheduler.RetriesFindNoData | backend/src/services/scheduler/train.py:47-49 | the first attempt's finally deletes the training data, so every retry finds /out/var/train empty |
| Paths.GroupFromPath | ml/entrypoint.py:43-49 | the group id is the component right after the first "groups", and None exactly when there is none or it is last |
| Paths.GroupFromGroupPath | postprocessing/main.py:30-36 | any path below groups/<gid> yields gid, when no earlier component is "groups" |
| MlEntrypoint.UpperChar | ml/entrypoint.py:26 | str.upper on ASCII letters of an extension |
| MlEntrypoint.Upper | ml/entrypoint.py:26 | each extension character upper-cased |
| MlEntrypoint.ImagePatterns | ml/entrypoint.py:24-26 | twelve patterns: the six image extensions, then their upper-case forms |
| MlEntrypoint.Glob | ml/entrypoint.py:27 | rglob("*ext") finds exactly the walked paths whose name ends in ext |
| MlEntrypoint.GlobAll | ml/entrypoint.py:26-27 | the paths found match at least one pattern, and every walked match is found |
| MlEntrypoint.Renders | ml/entrypoint.py:28 | map(str, files) renders each path, in order |
| MlEntrypoint.FoundImages | ml/entrypoint.py:26-27 | the images found are exactly the entries strictly below the source whose name ends in an image extension |
| MlEntrypoint.FindImageFiles | ml/entrypoint.py:20-28 | a missing source raises FileNotFoundError; otherwise the result is the sorted list of found paths, and on a walk of the file system it is a permutation of the rendered matches, as sorted() keeps every item |
| MlEntrypoint.UpperExtension | ml/entrypoint.py:26 | an upper-cased extension is still a dot followed by a dot-free suffix |
| MlEntrypoint.LowerExtensions | ml/entrypoint.py:24 | the six extensions are extensions, each starting with a small letter, and told apart by length or that letter |
| MlEntrypoint.PatternsAreExtensions | ml/entrypoint.py:24-26 | all twelve patterns are extensions, and no two are equal |
| MlEntrypoint.OneExtensionPerName | ml/entrypoint.py:26-27 | two extensions that both end a name are the same extension |
| MlEntrypoint.OtherExtensionMisses | ml/entrypoint.py:26-27 | a name that one pattern's rglob finds is not found by a different pattern |
| MlEntrypoint.GlobDistinct | ml/entrypoint.py:27 | one pattern's rglob over a walk listing each entry once lists each match once |
| MlEntrypoint.GlobAllDistinct | ml/entrypoint.py:26-27 | with distinct extensions as patterns, the extended list of matches has no repeats |
| MlEntrypoint.RendersDistinct | ml/entrypoint.py:28 | map(str, files) of different clean paths gives different strings |
| MlEntrypoint.FoundUnrepeated | ml/entrypoint.py:26-28 | on a walk that lists each clean entry once, the rendered matches have no repeats, and their sorted set holds each match exactly once, as sorted() of the list does |
| Paths.ConcatInjective | ml/entrypoint.py:28 | str() tells clean paths apart: equal renderings come from equal paths |
| GroupsUtils.SortedUniqueKeepsAll | ml/entrypoint.py:28 | on a list without repeats, sorted(set(xs)) is a permutation of xs, so it agrees with sorted(xs) |
| MlEntrypoint.GlobOne | ml/entrypoint.py:26-27 | one pattern's glob keeps exactly the walked paths whose name ends in it, in walk order |
| MlEntrypoint.CallbackRun | ml/entrypoint.py:51-67 | no URL posts nothing; otherwise the same "upgrading" payload is posted until the first success, at most five times, sleeping the back-off after each failure |
| MlEntrypoint.PostCallback | ml/entrypoint.py:51-67 | the retry loop posts and sleeps as the callback specification says |
| MlEntrypoint.CallbackSleepBound | ml/entrypoint.py:56-67 | one callback sleeps at most 15.5 s in total |
| MlEntrypoint.ScanIdInjective | ml/entrypoint.py:83 | two scan ids "<stem>_<NNN>" can only be equal for the same index |
| MlEntrypoint.ImageStepFiles | ml/entrypoint.py:80-92 | an image whose result file is opened writes it, whole when the dump succeeds and truncated to what was written when json.dump or fsync raises; an image that fails earlier changes no file |
| MlEntrypoint.ImageStepPosts | ml/entrypoint.py:85-92 | the callback is posted only after the result was saved |
| MlEntrypoint.DistinctResultPaths | ml/entrypoint.py:83-86 | two images never write the same result file |
| MlEntrypoint.ImagesRunFilesAre | ml/entrypoint.py:80-92 | the files after the loop are the opened result files written in image order over the old files; callbacks and directories change no file |
| MlEntrypoint.ImagesRunSaved | ml/entrypoint.py:80-92 | every opened result file holds, after the whole loop, its result, or the truncated text when its dump failed |
| MlEntrypoint.ImagesRunOthers | ml/entrypoint.py:80-92 | files that are no opened result file are left alone |
| MlEntrypoint.ImagesRunPostCount | ml/entrypoint.py:80-92 | posts are only appended, at most five per image |
| MlEntrypoint.ImagesRunPostsAnnounce | ml/entrypoint.py:80-92 | every post announces a saved image under its own file name |
| MlEntrypoint.AnnouncesStep | ml/entrypoint.py:85-89 | one more image keeps the earlier announcements and adds its own only after its result was saved |
| MlEntrypoint.StartImageProcessing | ml/entrypoint.py:69-92 | a missing source changes nothing; otherwise the sorted images are processed in order with the group taken from the source path |
| MlEntrypoint.ProcessImages | ml/entrypoint.py:80-92 | the loop over the images leaves the files, posts and sleeps of the run specification |
| PostprocessingMain.ReadJson | postprocessing/main.py:43-45 | reading yields a document exactly when the path is a file holding JSON |
| PostprocessingMain.MkdirError | postprocessing/main.py:106 | mkdir(parents=True, exist_ok=True) fails exactly when some prefix of the output path is a file |
| PostprocessingMain.SingleFileReadable | postprocessing/main.py:41-65 | a readable input is processed, written to the output path, and a "done" callback naming the file and its group is posted |
| PostprocessingMain.AsWrittenAgrees | postprocessing/main.py:38-72 | on a readable input the code as written and the corrected handler behave alike |
| PostprocessingMain.UnreadableRaises | postprocessing/main.py:67-72 | as written, an unreadable input truncates the output file and escapes with UnboundLocalError, posting nothing |
| PostprocessingMain.UnreadableFails | postprocessing/main.py:67-72 | corrected: an unreadable input returns False and changes no file |
| PostprocessingMain.SingleFileRaisesOnlyOnDirectory | postprocessing/main.py:53-72 | the corrected handler raises exactly when the input is readable and the output path is a directory |
| PostprocessingMain.SingleFileFrame | postprocessing/main.py:38-72 | no file other than the output path changes |
| PostprocessingMain.BatchCompletes | postprocessing/main.py:111-113 | corrected: when no output path is a directory the loop visits every file and posts at most once per file |
| PostprocessingMain.BatchPosts | postprocessing/main.py:59-64 | every callback goes to the callback URL with status "done" for one of the listed files |
| PostprocessingMain.BatchFrame | postprocessing/main.py:111-113 | corrected: files that are no visited file's output are left alone |
| PostprocessingMain.FileResultAt | postprocessing/main.py:111-113 | corrected: the i-th result is True exactly when the input reads, process_text succeeds, a callback URL is given and its post succeeds |
| PostprocessingMain.FileOutputAt | postprocessing/main.py:111-113 | corrected: a readable input's output holds the processed document after the whole loop |
| PostprocessingMain.ResultsPersist | postprocessing/main.py:111-113 | corrected: results already gathered are not changed by later files |
| PostprocessingMain.OutputPersists | postprocessing/main.py:111-113 | corrected: an output written earlier survives the rest of the loop |
| PostprocessingMain.AsWrittenAbortsBatch | postprocessing/main.py:67-72 | as written, an unreadable first file aborts the request before the second file |
| PostprocessingMain.IntendedContinues | postprocessing/main.py:111-113 | corrected, the same request skips the unreadable file and processes the second one |
| PostprocessingMain.FirstFileFails | postprocessing/main.py:67-72 | corrected: an unreadable file leaves the files untouched and records False |
| PostprocessingMain.SecondFileDone | postprocessing/main.py:41-65 | a readable file with no regions is written back as is and announced |
| PostprocessingMain.NoRegionsToCorrect | postprocessing/src/processing.py:9-41 | a document with an empty region list comes back unchanged |
| PostprocessingMain.ProcessSingleFile | postprocessing/main.py:38-72 | corrected: process_single_file leaves the files, posts and outcome of the single-file specification |
| PostprocessingMain.ProcessAll | postprocessing/main.py:108-113 | corrected: the loop leaves the files, posts and results of the batch specification |
| PostprocessingMain.BatchStopped | postprocessing/main.py:111-113 | corrected: once a file raised, the remaining files are not visited |
| PostprocessingMain.EarlyReply | postprocessing/main.py:83-102 | 400 exactly when both directories are missing, TypeError exactly when one is, and no early reply only for an existing directory with JSON files |
| PostprocessingMain.ProcessFiles | postprocessing/main.py:76-115 | corrected: an early reply changes nothing; otherwise the output directory is created and the files are processed in listing order |
| PostprocessingMain.WriteOutputs | postprocessing/main.py:106-115 | corrected: a failing mkdir changes nothing; otherwise the reply is 200 unless a file raised |
| Processing.Blank | postprocessing/src/processing.py:22-26 | a dict without text gets an empty correction, no entities and confidence 0; any other region is left as it is |
| Processing.Gather | postprocessing/src/processing.py:14-21 | exactly the regions with a truthy concatenated_text are gathered, in order, with their texts |
| Processing.Scatter | postprocessing/src/processing.py:35-39 | scattering keeps the number of regions |
| Processing.Blanked | postprocessing/src/processing.py:17-26 | every region is blanked at its own position |
| Processing.FirstNonDict | postprocessing/src/processing.py:17-18 | the first region that is not a dict, after which obj.get raises |
| Processing.GatherRegions | postprocessing/src/processing.py:14-26 | the gathering loop computes the gathering specification and raises AttributeError at a non-dict |
| Processing.GatherNext | postprocessing/src/processing.py:17-26 | one region: a non-dict ends gathering with AttributeError and the regions left as the outcome says; a dict without text is blanked, one with text adds its text and position |
| Processing.ScatterResults | postprocessing/src/processing.py:35-39 | the scattering loop computes the scattering specification and raises IndexError on surplus results |
| Processing.ProcessText | postprocessing/src/processing.py:9-41 | process_text computes the processing specification, including regions given as an empty string or dict (nothing to do) and any other non-list value |
| Processing.EmptyRegionsUnchanged | postprocessing/src/processing.py:17-28 | regions given as "" or {} enumerate nothing: the document comes back unchanged and no request is made |
| Processing.NonListRegionsRaise | postprocessing/src/processing.py:17-18 | any other value of regions that is not a list raises and leaves the document as it was |
| Processing.ScatterHit | postprocessing/src/processing.py:35-39 | the k-th result lands on the k-th gathered region |
| Processing.ScatterMiss | postprocessing/src/processing.py:35-39 | regions that were not gathered are not touched by the scattering |
| Processing.NoRegionsRaises | postprocessing/src/processing.py:10-11 | a dict without "regions" raises ValueError and is returned unchanged |
| Processing.OtherKeysUntouched | postprocessing/src/processing.py:9-41 | keys other than "regions" are never changed |
| Processing.GatherNone | postprocessing/src/processing.py:14-21 | no region with text means nothing is gathered |
| Processing.NoTextNoCall | postprocessing/src/processing.py:29 | without texts the language model is not consulted |
| Processing.ProcessTextRegions | postprocessing/src/processing.py:9-41 | on a successful call every region without text is blanked and every gathered region receives its own result |
| TextConcatenator.Parts | ml/text_concatenator.py:198-203 | the stripped non-empty texts, at most one per line, none with surrounding blanks |
| TextConcatenator.SimpleConcatenateLines | ml/text_concatenator.py:188-205 | the loop joins the parts with single spaces |
| TextConcatenator.SimpleConcatenationWords | ml/text_concatenator.py:188-205 | the words of the joined text are exactly the lines' words, in line order |
| TextConcatenator.YKey | ml/text_concatenator.py:217-230 | no coordinates give key 0; the key fails with ValueError exactly when the coordinates do not parse |
| TextConcatenator.SortLinesByYSpec | ml/text_concatenator.py:207-235 | the sort fails exactly when some key fails; otherwise the result is ordered by key, a permutation of the lines, and stable |
| TextConcatenator.IsTextContinuous | ml/text_concatenator.py:114-132 | continuous exactly when both texts are non-empty, the first ends in '-' and the second does not start with a capital of ASCII, Latin-1, Latin Extended-A, Greek or Cyrillic |
| TextConcatenator.CyrillicOddCapitals | ml/text_concatenator.py:129 | in U+04C1..U+04CE the odd code points are the capitals, and Latin Extended-A and Greek capitals break continuity while Greek small letters do not |
| TextConcatenator.PotentialLineBreak | ml/text_concatenator.py:134-159 | only parse errors fail, and a break needs points on the first line |
| TextConcatenator.Step | ml/text_concatenator.py:81-110 | one line's analysis fails only with KeyError or ValueError |
| TextConcatenator.Analyze | ml/text_concatenator.py:69-112 | a successful analysis has one processed line per input line |
| TextConcatenator.AnalyzeTextContinuity | ml/text_concatenator.py:69-112 | the loop computes the analysis specification |
| TextConcatenator.AnalyzeFailurePersists | ml/text_concatenator.py:79-110 | once a line fails the whole analysis fails the same way |
| TextConcatenator.AnalyzePrefix | ml/text_concatenator.py:79-110 | the analysis of a prefix is the prefix of the analysis |
| TextConcatenator.StepContinuation | ml/text_concatenator.py:91-101 | a hyphenated continuation is merged: the hyphen is dropped and both texts are kept |
| TextConcatenator.StepShape | ml/text_concatenator.py:82-108 | a processed line is the input line plus flags; a continuation is merged and never a line break |
| TextConcatenator.AnalyzeLine | ml/text_concatenator.py:81-110 | the first line is unmarked and every other line is the step from its predecessor |
| TextConcatenator.AnalyzeFailsOnlyOnPoints | ml/text_concatenator.py:81-110 | lines with text and well-formed coordinates are always analysed |
| TextConcatenator.ConcatParts | ml/text_concatenator.py:172-184 | at most one part per processed line |
| TextConcatenator.ConcatenateTextLines | ml/text_concatenator.py:161-186 | the loop joins the collected parts with single spaces |
| TextConcatenator.AddPart | ml/text_concatenator.py:174-184 | one line adds its text, or replaces the last part with the merged word |
| TextConcatenator.NoContinuationIsSimple | ml/text_concatenator.py:161-205 | without continuations both concatenations collect the same parts |
| TextConcatenator.HyphenatedWordJoined | ml/text_concatenator.py:91-101 | two lines "w-" and a lower-case word come out as one word |
| TextConcatenator.HyphenAnalysis | ml/text_concatenator.py:91-101 | the analysis of such a pair marks the second line as a merged continuation |
| TextConcatenator.RegionsConcat | ml/text_concatenator.py:38-65 | one concatenated region per OCR region |
| TextConcatenator.ProcessTextConcatenation | ml/text_concatenator.py:21-67 | succeeds exactly when every region concatenates, and then carries the scan id, the regions and the timestamp |
| TextConcatenator.RegionsConcatAt | ml/text_concatenator.py:38-65 | the i-th result is the i-th region's concatenation |
| TextConcatenator.ConcatenatedRegion | ml/text_concatenator.py:39-63 | each result keeps the region's id, type and original line order, with zero counters |
| TextConcatenator.ConcatenationFails | ml/text_concatenator.py:217-233 | the concatenation fails exactly when some line's coordinates do not parse |
| TextConcatenator.CreateConcatenatedJson | ml/text_concatenator.py:269-294 | the concatenation plus its summary, failing exactly when the concatenation fails |
| TextConcatenator.CountsZero | ml/text_concatenator.py:284-285 | zero counters sum to zero |
| TextConcatenator.SummaryOfConcatenation | ml/text_concatenator.py:283-292 | the summary counts the regions and reports zero breaks, merges and average |
| OcrCoords.ParseDecimal | ml/text_concatenator.py:253 | a number is only read from a non-empty token |
| OcrCoords.DecimalRoundTrip | ml/text_concatenator.py:253 | int(float(x)) reads back every rendered integer |
| OcrCoords.IntRoundTrip | ml/ocr_page.py:47 | int(x) reads back every rendered integer |
| OcrCoords.CoordTokens | ml/text_concatenator.py:201-205 | at most one point per token, and the only error is ValueError |
| OcrCoords.ParseCoordinates | ml/text_concatenator.py:237-254 | the loop computes the point-list specification |
| OcrCoords.FailurePersists | ml/text_concatenator.py:202-205 | a token that fails makes the whole parse fail |
| OcrCoords.NodeTokens | ml/ocr_page.py:46-47 | get_node_coordinates yields one point per token |
| OcrCoords.NodeCoordinates | ml/ocr_page.py:45-48 | one point per space-separated token |
| OcrCoords.CoordinatesRoundTrip | ml/text_concatenator.py:237-254 | parsing a rendered point list gives the points back |
| OcrCoords.TokensRoundTrip | ml/text_concatenator.py:201-205 | tokens that each read as a point parse, in order, to exactly those points |
| OcrCoords.NodeCoordinatesRoundTrip | ml/ocr_page.py:45-48 | get_node_coordinates reads back a rendered non-empty point list |
| OcrCoords.NodeTokensRoundTrip | ml/ocr_page.py:46-47 | rendered tokens read back one point each |
| OcrCoords.CoordTokenOfPoint | ml/text_concatenator.py:203-205 | a rendered point is a pair token that parses to itself |
| OcrCoords.NodeTokenOfPoint | ml/ocr_page.py:47 | a rendered point reads back through get_node_coordinates |
| OcrCoords.EmptyPoints | ml/text_concatenator.py:248 | an empty string has no points, while get_node_coordinates raises ValueError on it |
| OcrCoords.BareToken | ml/text_concatenator.py:203 | a token without a comma is skipped by one parser and raises IndexError or ValueError in the other |
| PipelineProcessor.MinOf | ml/pipeline_processor.py:536-538 | min over a non-empty list is one of its elements and below all of them |
| PipelineProcessor.MaxOf | ml/pipeline_processor.py:537-539 | max over a non-empty list is one of its elements and above all of them |
| PipelineProcessor.CropBoxOf | ml/pipeline_processor.py:222-247 | the crop rectangle lies within the image and carries its width, height and padding 5 |
| PipelineProcessor.CropImageRegion | ml/pipeline_processor.py:208-249 | no points return the whole image and no rectangle; otherwise the image cut to the rectangle |
| PipelineProcessor.CropContainsPoints | ml/pipeline_processor.py:222-236 | the crop rectangle of points inside the image contains every point |
| PipelineProcessor.CropDimensions | ml/pipeline_processor.py:249 | the cut image has the rectangle's height and width |
| PipelineProcessor.LineCrops | ml/pipeline_processor.py:526-530 | the crop rectangles collected are exactly those of the lines that have one |
| PipelineProcessor.RegionCoordinates | ml/pipeline_processor.py:512-563 | no rectangle exactly when no line has a crop; otherwise the padded bounding box, its corners and the number of cropped lines |
| PipelineProcessor.RegionContainsLines | ml/pipeline_processor.py:535-546 | every line's crop lies inside the region rectangle with the padding to spare |
| PipelineProcessor.OcrRegions | ml/pipeline_processor.py:150-182 | one OCR region per extracted region, with its id, type and lines |
| PipelineProcessor.ExtractRegion | ml/pipeline_processor.py:156-180 | the lines of one region are cropped and each crop saved under its name |
| PipelineProcessor.ExtractPage | ml/pipeline_processor.py:149-182 | the regions of a page are extracted in order, all crops saved |
| PipelineProcessor.ExtractTextRegions | ml/pipeline_processor.py:131-187 | succeeds exactly when the extraction specification does, with its regions and every crop saved; nothing else in storage changes |
| PipelineProcessor.CropFileInjective | ml/pipeline_processor.py:166-170 | distinct region and line numbers never share a crop file |
| PipelineProcessor.CropNameRegionInjective | ml/pipeline_processor.py:168-170 | distinct normalised crop ids give distinct crop files |
| PipelineProcessor.LineCropIdInjective | ml/pipeline_processor.py:166-169 | "<rrr>_<lll>" determines both numbers |
| PipelineProcessor.LineRecord | ml/pipeline_processor.py:166-178 | each line's crop file is named after the scan and its region and line numbers |
| PipelineProcessor.RegionLinesShape | ml/pipeline_processor.py:156-180 | the extracted lines are exactly the lines with Coords, in order |
| PipelineProcessor.AddLineOk | ml/pipeline_processor.py:157-180 | a line without Coords is skipped; one with Coords adds its crop record |
| PipelineProcessor.RegionLinesOk | ml/pipeline_processor.py:156-180 | a region's extraction fails exactly when some Coords do not parse |
| PipelineProcessor.RegionCropsDistinct | ml/pipeline_processor.py:166-170 | the crops of one region have distinct files |
| PipelineProcessor.LinesOut | ml/pipeline_processor.py:398-424 | one output line per line, at its own index |
| PipelineProcessor.RegionsOut | ml/pipeline_processor.py:368-443 | one output region per OCR region, at its own index |
| PipelineProcessor.CombineRegion | ml/pipeline_processor.py:369-443 | the loop over one region's lines yields its record and its cropped-image entries |
| PipelineProcessor.CombineResults | ml/pipeline_processor.py:333-445 | _combine_results computes the combination specification |
| PipelineProcessor.CombinedRegions | ml/pipeline_processor.py:368-424 | each output region keeps its index, id, type and lines; its text comes from the concatenation when there is one, otherwise empty with zero counters |
| PipelineProcessor.LocalPathIsSavedScan | ml/pipeline_processor.py:356 | local_path names the saved scan exactly when the scan id is already normalised |
| PipelineProcessor.CroppedImagesIndexed | ml/pipeline_processor.py:426-441 | the cropped_images list has one entry per line with a crop, in region and line order |
| PipelineProcessor.LineFileNameInjective | ml/pipeline_processor.py:419 | "region_<rrr>_<lll>.jpg" determines both numbers |
| PipelineProcessor.CroppedFilenamesDistinct | ml/pipeline_processor.py:426-441 | no two cropped_images entries share a file name |
| OcrPage.ExtendRectangle | ml/ocr_page.py:32-37 | the extended rectangle always lies within the image: 0 <= min and max <= size - 1 |
| OcrPage.ExtendContains | ml/ocr_page.py:32-37 | a rectangle inside the image is contained in its extension, each side moved by the pitch or stopped at the border |
| OcrPage.CropByRectangleShape | ml/ocr_page.py:40-42 | inclusive bounds: the crop has bottom - top + 1 rows of right - left + 1 pixels, taken from the image |
| OcrPage.ExtendedCropKeepsRectangle | ml/ocr_page.py:64-66 | every pixel of the original rectangle appears in the crop of the extended one |
| OcrPage.PageImages | ml/ocr_page.py:59-70 | one line image per TextLine of the page, in region and line order |
| OcrPage.CollectLines | ml/ocr_page.py:59-70 | collecting fails exactly when some line's points do not parse, and otherwise yields every line's entry |
| OcrPage.CollectRegion | ml/ocr_page.py:61-70 | one region's lines are collected with running indices |
| OcrPage.CollectLine | ml/ocr_page.py:61-70 | one line is cropped and numbered after the entries so far, or its unparsable points make the region unreadable |
| OcrPage.LinesReadableEach | ml/ocr_page.py:61-63 | a region is readable exactly when each of its lines is |
| OcrPage.EntryAtLine | ml/ocr_page.py:59-70 | the entry of line l of region r carries the running index, its position and its crop |
| OcrPage.GetOcrPredictions | ml/ocr_page.py:7-18 | the i-th text and confidence are attached to the i-th entry, in place, and the length is kept |
| OcrPage.Images | ml/ocr_page.py:10 | the images handed to the recogniser, one per entry, in order |
| OcrPage.AddTextEquivs | ml/ocr_page.py:75-80 | every line gains the TextEquivs of its own entries and nothing else changes |
| OcrPage.ProcessPage | ml/ocr_page.py:54-80 | a page fails exactly when some line's points do not parse; otherwise every line carries its recognised text |
| OcrPage.CollectedLines | ml/ocr_page.py:59-70 | the collected entries' images are the page's line images, at the right positions |
| OcrPage.RecognisedLines | ml/ocr_page.py:72-80 | the recognised text of position k lands on the line at position k |
| OcrPage.RecognisedPage | ml/ocr_page.py:72-80 | the page after recognition is the page specification |
| OcrPage.ProcessPageFile | ml/ocr_page.py:51-81 | succeeds exactly when there is an image per page and every page is readable; then each page is processed with its own image |
| OcrPage.PositionsValid | ml/ocr_page.py:59-70 | the positions list every (region, line) of the page exactly once, in order |
| OcrPage.PositionsSnoc | ml/ocr_page.py:60-70 | one more region adds its number of lines to the positions |
| OcrPage.PositionAt | ml/ocr_page.py:59-70 | the running index of line l of region r points back at (r, l) |
| OcrPage.OneEquivPerLine | ml/ocr_page.py:75-80 | each TextLine gains exactly one TextEquiv |
| OcrPage.LineIndices | ml/ocr_page.py:59-70 | the index string of a line is its running number on the page |
| StorageManager.SpacesToUnderscores | ml/storage_manager.py:60 | replace(' ', '_') maps each space to '_' and keeps every other character |
| StorageManager.Normalized | ml/storage_manager.py:60 | the normalised id keeps the length and holds no space |
| StorageManager.ScanStems | ml/storage_manager.py:219-220 | at most one stem per listed file |
| StorageManager.LocalStorageManager.constructor | ml/storage_manager.py:18-46 | the manager starts with the given base path and the five directories' contents |
| StorageManager.LocalStorageManager.LoadInputScan | ml/storage_manager.py:136-152 | None exactly when "{scan_id}.jpg", with the raw id, is absent |
| StorageManager.LocalStorageManager.LoadCroppedImage | ml/storage_manager.py:154-171 | None exactly when "{scan_id}_{region_id}.jpg" is absent |
| StorageManager.LocalStorageManager.FindCroppedImage | ml/storage_manager.py:69-90 | corrected lookup: found exactly when the name save_cropped_image writes is present |
| StorageManager.LocalStorageManager.LoadXmlIntermediate | ml/storage_manager.py:173-191 | None exactly when "{scan_id}_{stage}.xml", with the raw id, is absent |
| StorageManager.LocalStorageManager.LoadFinalJson | ml/storage_manager.py:193-210 | None exactly when "{scan_id}_result.json" is absent |
| StorageManager.LocalStorageManager.SaveInputScan | ml/storage_manager.py:48-67 | the scan is stored under the normalised "{id}.jpg", nothing else changes, and its path is returned |
| StorageManager.LocalStorageManager.SaveCroppedImage | ml/storage_manager.py:69-90 | the crop is stored under "{id}_region_{region}.jpg" with both ids normalised; nothing else changes |
| StorageManager.LocalStorageManager.SaveXmlIntermediate | ml/storage_manager.py:92-115 | the XML is stored under the normalised "{id}_{stage}.xml"; nothing else changes |
| StorageManager.LocalStorageManager.SaveFinalJson | ml/storage_manager.py:117-134 | the data is stored under "{scan_id}_result.json" without normalisation; nothing else changes |
| StorageManager.LocalStorageManager.SaveLog | ml/storage_manager.py:249-268 | the log is stored under the normalised "{id}.log"; nothing else changes |
| StorageManager.LocalStorageManager.ListScans | ml/storage_manager.py:212-220 | the ids are the stems of the *.jpg files in input_scans |
| StorageManager.LocalStorageManager.CleanupScan | ml/storage_manager.py:222-247 | the input scan, the "{id}_*.jpg" crops, the "{id}_*.xml" files and the result JSON are removed; logs stay |
| StorageManager.InputNamesMeetIff | ml/storage_manager.py:60-61 | the saved and the loaded input name agree exactly when the id is already normalised |
| StorageManager.XmlNamesMeetIff | ml/storage_manager.py:105-106 | the saved and the loaded XML name agree exactly when the id is already normalised |
| StorageManager.CropLookupMisses | ml/storage_manager.py:84 | the name written is seven characters longer than the name looked up, so the lookup never finds a saved crop |
| StorageManager.NormalizedPlain | ml/storage_manager.py:60 | an id without spaces or capitals is already normalised |
| StorageManager.NormalizedIdempotent | ml/storage_manager.py:60 | normalising twice is normalising once |
| StorageManager.CleanupMatchesCrop | ml/storage_manager.py:235-237 | cleanup's "{id}_*.jpg" glob matches every crop saved for a normalised id |
| StorageManager.ScanStemsLoad | ml/storage_manager.py:219-220 | every listed id, except a bare ".jpg", loads back through load_input_scan |
| OcrDecode.Joined | ml/ocr.py:31 | the join succeeds exactly when every index has a letter |
| OcrDecode.LabelsToTextAgree | ml/ocr_parameters.py:17-22 | the find-based labels_to_text of ocr_parameters.py and the one of ocr.py agree on every input |
| OcrDecode.CutAtEosAgree | ml/ocr.py:32 | cutting at the first "EOS" is the same whether looked up with in or with find |
| OcrDecode.CutAtEosSpec | ml/ocr.py:32 | the text is a prefix of the joined string without "EOS", the whole string when it holds none, and is followed by "EOS" otherwise |
| OcrDecode.IndexOfSpec | ml/ocr.py:158 | the dict comprehension maps every letter to its last position |
| OcrDecode.Letters | ml/ocr.py:153-157 | the fallback letters are PAD, SOS, the characters and EOS |
| OcrDecode.LettersSpecials | ml/ocr.py:157-159 | PAD is 0, SOS is 1 and EOS is the last index, both ways |
| OcrDecode.VocabLeftInverse | ml/ocr.py:158-159 | every letter's index maps back to that letter |
| OcrDecode.VocabRightInverse | ml/ocr.py:158-159 | every index maps back to itself exactly when the letters are distinct |
| OcrDecode.FallbackRepeats | ml/ocr.py:153-157 | the fallback alphabet repeats letters, so some indices do not round-trip |
| OcrDecode.PredictorVocab | ml/ocr.py:147-159 | the checkpoint's vocabulary when present, the fallback alphabet otherwise |
| OcrDecode.DictOfSpec | ml/ocr.py:148 | the checkpoint dict holds each of its pairs and nothing else |
| OcrDecode.InvertedSpec | ml/ocr.py:149 | the inverted dict maps each index to a letter paired with it |
| OcrDecode.CheckpointRightInverse | ml/ocr.py:148-149 | every index of the inverted checkpoint vocabulary maps back to itself |
| OcrDecode.CheckpointLeftInverse | ml/ocr.py:148-149 | every letter round-trips exactly when the checkpoint gives distinct letters distinct indices |
| OcrDecode.Greedy | ml/ocr.py:226-236 | the decoded sequence always starts with a token |
| OcrDecode.GreedyShape | ml/ocr.py:226-244 | it starts with SOS, holds no EOS before its end, has at most one token per step plus SOS, and ends in EOS when it stopped early |
| OcrDecode.GreedyStops | ml/ocr.py:234-236 | once a sequence ended in EOS further steps do not extend it |
| OcrDecode.AppendUnfinished | ml/ocr.py:234-236 | each unfinished sequence gets its token, finished ones stay |
| OcrDecode.DecodeStep | ml/ocr.py:229-240 | one step of the loop keeps the decoding invariant |
| OcrDecode.DecodeBatch | ml/ocr.py:226-244 | at most 100 steps; every sequence is the greedy decoding, and stopping early means all finished |
| OcrDecode.Generated | ml/ocr.py:249-250 | the generated tokens hold no EOS and drop the leading SOS |
| OcrDecode.GeneratedUnfinished | ml/ocr.py:249-250 | a sequence without EOS loses only its SOS |
| OcrDecode.PredictionHasNoEos | ml/ocr.py:247-251 | a predicted text never holds "EOS" |
| OcrDecode.Predict | ml/ocr.py:196-256 | succeeds exactly when SOS and EOS are letters and every prediction decodes; one text and confidence 1.0 per image, else KeyError |
| TrainingTexts.InVocab | ml-training/utils.py:48 | the characters kept are those with an index, at most all of them |
| TrainingTexts.KeptSpec | ml-training/utils.py:48 | one label per kept character, each its index |
| TrainingTexts.InVocabAll | ml-training/utils.py:48 | nothing is dropped exactly when every character has an index |
| TrainingTexts.TextToLabelsShape | ml-training/utils.py:47-48 | labels exist exactly when SOS and EOS have indices; they are SOS, the kept characters' indices, then EOS |
| TrainingTexts.JoinedKept | ml-training/utils.py:48-51 | joining the letters of the kept indices gives the text back when every character decodes |
| TrainingTexts.LabelsRoundTrip | ml-training/utils.py:47-52 | labels_to_text of text_to_labels without SOS and EOS is the text, for a text that decodes and holds no "EOS" |
| TrainingTexts.ReplaceChar | ml-training/utils.py:20 | str.replace of one character keeps the length and replaces exactly that character |
| TrainingTexts.NormalisedChar | ml-training/utils.py:21-28 | the table changes exactly its keys and never yields a character it would replace again |
| TrainingTexts.NormaliseSpec | ml-training/utils.py:20-28 | normalisation keeps the length, leaves no look-alike character and fixes every text without one |
| TrainingTexts.NormaliseIdempotent | ml-training/utils.py:20-28 | normalising twice is normalising once |
| TrainingTexts.TranscriptName | ml-training/utils.py:16-17 | the transcript read always ends in ".txt" |
| TrainingTexts.CheckedNameAgrees | ml-training/utils.py:15-17 | for a three-letter extension the name checked and the name read agree |
| TrainingTexts.EntryCorrectedSpec | ml-training/utils.py:15-36 | corrected pairing: never raises, and keeps an image exactly when its transcript exists and is accepted, as its normalised text without del_sym characters |
| TrainingTexts.EntryAgrees | ml-training/utils.py:15-36 | for a three-letter extension the code as written and the corrected pairing agree |
| TrainingTexts.JpegTranscriptSkipped | ml-training/utils.py:15 | as written, "x.jpeg" next to "x.txt" is skipped |
| TrainingTexts.JpegTranscriptCrash | ml-training/utils.py:15-18 | as written, "x.jpeg" next to "x.jtxt" raises FileNotFoundError |
| TrainingTexts.Extract | ml-training/utils.py:14-36 | names and lines stay of equal length, at most one per image |
| TrainingTexts.ExtractSpec | ml-training/utils.py:14-36 | the k-th line is the k-th name's accepted text, and the names are exactly the images kept |
| TrainingTexts.ExtractErr | ml-training/utils.py:14-19 | as written, the listing raises exactly when some image passes the check but its transcript is missing |
| TrainingTexts.ExtractCorrectedOk | ml-training/utils.py:14-36 | with the corrected pairing no listing raises |
| TrainingTexts.CountWords | ml-training/utils.py:37-42 | all_word holds exactly the words, each with its number of occurrences minus one |
| TrainingTexts.ProcessTexts | ml-training/utils.py:9-45 | corrected: names, lines, lens, the letter counts and all_word of the accepted transcripts; ValueError when none is accepted |
| TrainingTexts.ReadTranscripts | ml-training/utils.py:14-36 | the loop collects exactly the names and lines the corrected pairing accepts, each line's length, and all lines run together as letters |
| SortedChars.Sorted | ml-training/train_baseline.py:258-259 | sorted() over a set of characters: strictly increasing, exactly the set's characters, one each |
| Text.Strip | backend/src/services/report/report.py:47-48 | str.strip(): a slice of the string with no blank at either end |
| Text.StripEmptyIffBlank | ml-training/prepare_data.py:134 | strip() gives the empty string exactly when every character is blank |
| Text.WordsStrip | ml/text_concatenator.py:201 | str.split() of a stripped string is that of the string |
| Text.Words | ml/text_concatenator.py:249 | str.split(): every piece is a non-empty run of non-blank characters |
| Text.WordsAppend | ml/text_concatenator.py:249 | split() of two strings joined at a blank is the split of each in turn |
| Text.Split | ml/text_concatenator.py:252 | str.split(c): at least one piece, no piece holding c |
| Text.SplitAtSep | ml/text_concatenator.py:252 | splitting around one separator is splitting each side |
| Text.Lower | backend/src/services/report/report.py:184 | str.lower() character by character, ASCII capitals moved down by 32 |
| Text.TrimRightChar | backend/src/tasks/ml_tasks.py:9 | str.rstrip(c): the string without its trailing run of c |
| Text.LastIndexOf | backend/src/utils/common.py:59 | str.rsplit("/", 1)[-1] starts after the last "/": that index holds "/" and no later one does |
| Text.Find | ml/ocr.py:32 | str.find: the first occurrence, or -1 when there is none |
| Text.ParseNatToStr | ml/pipeline_processor.py:166-167 | int(str(n)) == n |
| Text.Pad3RoundTrip | ml/pipeline_processor.py:166-167 | f"{n:03d}" reads back as n |
| Text.Pad3Injective | ml/pipeline_processor.py:419 | distinct indices give distinct padded names |
| Text.JoinSnoc | ml/text_concatenator.py:186 | " ".join of one more part appends the separator and the part |
| StableSort.Sort | ml/text_concatenator.py:233 | sorted(key=...) keeps the length |
| StableSort.SortSorted | ml/text_concatenator.py:233 | sorted() is ordered by key and a permutation of its input |
| StableSort.SortStable | ml/text_concatenator.py:233 | sorted() is stable: the items sharing a key keep their order |
| StableSort.SortUnique | ml/text_concatenator.py:233 | any sequence ordered by key that keeps every key's items in order is what sorted() returns |
| NestedLoops.MapIndexed | ml/pipeline_processor.py:398-424 | a comprehension over enumerate: one result per item, made from its index and itself |
| NestedLoops.PickedAllIndexed | ml/pipeline_processor.py:426-441 | the nested region and line loops append one entry per admitted line, in (region, line) order |
| NestedLoops.PickedAllPrefix | ml/ocr_page.py:59-70 | what the nested loops append over the first regions begins what they append over all |
| Collections.Enumerate | backend/src/infra/storage/local_storage.py:103-112 | iterating a set visits each member exactly once |
| TrainBaseline.Items | ml-training/train_baseline.py:261 | one (letter, index) pair per letter |
| TrainBaseline.LettersDistinct | ml-training/train_baseline.py:258-260 | PAD, SOS, the sorted characters and EOS are pairwise distinct |
| TrainBaseline.DictOfItems | ml-training/train_baseline.py:261 | the comprehension maps each letter to its position and holds nothing else |
| TrainBaseline.LettersIndices | ml-training/train_baseline.py:260-261 | PAD is 0, SOS 1, each character its position plus 2, EOS the last index |
| TrainBaseline.BaselineVocabIndices | ml-training/train_baseline.py:258-262 | the training vocabulary puts PAD, SOS, the sorted characters and EOS at consecutive indices |
| TrainBaseline.BaselineVocabInverse | ml-training/train_baseline.py:261-262 | p2idx and idx2p are inverse to each other both ways |
| TrainBaseline.CheckpointVocab | ml-training/train_baseline.py:214 | the vocabulary saved in the checkpoint is rebuilt exactly by the predictor, SOS and EOS included |
| TrainBaseline.SplitPartition | ml-training/train_baseline.py:265-269 | the training and validation parts are consecutive, aligned, and together the whole corpus |
| TrainBaseline.BestIsLeast | ml-training/train_baseline.py:217-219 | the best CER is the least seen so far, absent only before any epoch |
| TrainBaseline.BadCountsTrailing | ml-training/train_baseline.py:217-225 | count_bad is the number of trailing epochs that did not improve on the best before them |
| TrainBaseline.NoEarlyStopAll | ml-training/train_baseline.py:248-250 | training continues exactly while count_bad stays at most 5 after each epoch |
| TrainBaseline.SavesOfAll | ml-training/train_baseline.py:217-226 | each epoch saves best.pt when it improves and checkpoint_<epoch>.pt otherwise |
| TrainBaseline.StateAfterSnoc | ml-training/train_baseline.py:179-250 | one more epoch is one step of the epoch loop |
| TrainBaseline.TrainAll | ml-training/train_baseline.py:152-250 | the epochs run from epochs on, stop at max_epochs or after the sixth bad epoch in a row, and leave the state of the epoch specification |
| TrainBaseline.RunEpoch | ml-training/train_baseline.py:179-250 | one epoch appends the CER validate gives at the next epoch number and moves the state one step; count_bad above 5 is exactly 6 |
| TrainBaseline.ValidateAll | ml-training/train_baseline.py:80-125 | the loop succeeds exactly when every example's texts decode, and then yields each example's predicted and real text in order |
| TrainBaseline.ValidateExample | ml-training/train_baseline.py:98-125 | one example yields its predicted and its real text, and fails exactly when one of them has an index without a letter |
| TrainBaseline.Validate | ml-training/train_baseline.py:52-125 | ValueError exactly when SOS or EOS is missing; otherwise each example yields its predicted and its real text |
| TrainBaseline.RealTextIsLine | ml-training/train_baseline.py:122-125 | the real text of an encoded line that decodes and holds no "EOS" is the line itself |
| TrainBaseline.GeneratedSkipsFirst | ml-training/train_baseline.py:118-119 | without EOS after the first token, only the first token is dropped |
| TrainTrocr.TxtCharsSpec | ml-training/train_trocr.py:15-19 | the characters gathered are exactly those of the *.txt files |
| TrainTrocr.BuildVocab | ml-training/train_trocr.py:14-23 | the vocabulary is sorted, each character once, exactly the non-blank characters and the space of the *.txt files |
| TrainTrocr.LastDotPartOf | ml-training/train_trocr.py:118 | f.split(".")[-1] is the part after the last dot |
| TrainTrocr.FileListSpec | ml-training/train_trocr.py:116-120 | the list holds exactly the images with an allowed extension and an existing transcript, in listing order |
| TrainTrocr.PairedFiles | ml-training/train_trocr.py:116-122 | RuntimeError exactly when no image is paired; otherwise the non-empty paired list |
| TrainTrocr.ListedTextsRead | ml-training/train_trocr.py:36-55 | every listed image's transcript exists and its stripped text is what the example reads |
| TrainTrocr.UpperCaseExtensionListed | ml-training/train_trocr.py:115-118 | "page.JPG" is listed, since the extension is compared in lower case |
| TrainTrocr.SplitSizesSpec | ml-training/train_trocr.py:133-135 | random_split on [len - val_size, val_size]: a fitting size gives exactly those lengths; only a one-element dataset with a size other than 0 or 1 raises ValueError; the subsets always partition the dataset, the validation part empty for a negative size |
| PrepareData.Globbed | ml-training/prepare_data.py:19-20 | every match is one of the listed files, so there are no more matches than files |
| PrepareData.GlobbedSpec | ml-training/prepare_data.py:19-20 | the pattern base.* matches exactly the files named base followed by a dot |
| PrepareData.FirstImageSpec | ml-training/prepare_data.py:20-24 | the first match with extension .jpg, .jpeg or .png in any case, None exactly when there is none |
| PrepareData.FindImage | ml-training/prepare_data.py:18-24 | the loop returns the first accepted match |
| PrepareData.Root | ml-training/prepare_data.py:62 | data.get('json', data).get('json') succeeds exactly on a dict whose "json", if any, is a dict; otherwise AttributeError |
| PrepareData.RootDoubleNested | ml-training/prepare_data.py:62 | a file nested twice under "json" yields the inner document |
| PrepareData.RootSingleNested | ml-training/prepare_data.py:62 | a file nested once yields None |
| PrepareData.Regions | ml-training/prepare_data.py:76-87 | a result needs a dict root; without "crop" it is root.get('regions', []); a non-empty regions list is taken as is |
| PrepareData.Items | ml-training/prepare_data.py:93 | iteration succeeds exactly on a list, over its items |
| PrepareData.Trunc | ml-training/prepare_data.py:101-104 | int() truncates toward zero |
| PrepareData.Number | ml-training/prepare_data.py:100-107 | int(float(v)) of a number truncates it; of a string it parses it; anything else is skipped |
| PrepareData.Clamp | ml-training/prepare_data.py:110-113 | max(0, min(v, size)) lies in [0, size] and keeps values already inside |
| PrepareData.RegionBox | ml-training/prepare_data.py:94-117 | a rectangle kept is non-empty and within the image |
| PrepareData.RegionBoxInside | ml-training/prepare_data.py:94-117 | four numeric corners inside the image give exactly that rectangle |
| PrepareData.MissingCornerSkipped | ml-training/prepare_data.py:95-97 | a region without all four corners is skipped |
| PrepareData.NonNumericSkipped | ml-training/prepare_data.py:100-107 | a corner that is not a number is skipped |
| PrepareData.RegionText | ml-training/prepare_data.py:134 | corrected_text when truthy, else concatenated_text, else empty, stripped |
| PrepareData.RegionStep | ml-training/prepare_data.py:93-145 | a counted sample comes from this file, region and image, its crop was saved, it lies inside the image, and it records whether its text was written |
| PrepareData.SingleNestingRaises | ml-training/prepare_data.py:62-76 | a file nested only once raises AttributeError at root.get |
| PrepareData.CropFallback | ml-training/prepare_data.py:78-87 | empty regions with a "crop" give the one region built from it |
| PrepareData.NoRegionsSkipped | ml-training/prepare_data.py:89-91 | a file without regions or crop adds nothing |
| PrepareData.CropMissingCornerSkipped | ml-training/prepare_data.py:80-97 | a crop lacking a corner still yields all four corner keys (the missing one None), so the region passes the key check and is skipped at the conversion |
| PrepareData.MissingImageRaises | ml-training/prepare_data.py:63-67 | as written, a readable label file without an image raises NotADirectoryError; corrected, it adds nothing |
| PrepareData.ScanNames | ml-training/prepare_data.py:18-24 | "scan.json" looks for "scan.*", which "scan.txt" matches without being an image |
| PrepareData.MissingImageExample | ml-training/prepare_data.py:63-67 | a concrete label file without an image: as written it raises, corrected it adds nothing |
| PrepareData.NoImagesNoSamples | ml-training/prepare_data.py:63-67 | corrected: a run where no readable file finds an image saves nothing and does not raise |
| PrepareData.SamplesSaved | ml-training/prepare_data.py:93-145 | every sample is a saved crop inside its image from one of the file's regions |
| PrepareData.RegionStepTextFree | ml-training/prepare_data.py:138-145 | a failed text write changes neither whether a region raises nor whether it counts |
| PrepareData.TextWritesNotCounted | ml-training/prepare_data.py:138-145 | total counts the crops saved, whatever text writes fail |
| PrepareData.FileStepTextFree | ml-training/prepare_data.py:93-145 | the same for one label file |
| PrepareData.RegionsTextFree | ml-training/prepare_data.py:93-145 | the same for a file's regions |
| PrepareData.RegionsErrStays | ml-training/prepare_data.py:93-145 | once a region raises, the file raises the same way |
| PrepareData.PreparedErrStays | ml-training/prepare_data.py:51-145 | once a file raises, the run raises the same way |
| PrepareData.ProcessRegions | ml-training/prepare_data.py:93-145 | the region loop raises exactly when the specification does, with its error; otherwise it returns the specification's samples and their count |
| PrepareData.PrepareDataset | ml-training/prepare_data.py:26-159 | the whole run raises exactly when the specification does, with its error; otherwise it returns the specification's samples, built with the corrected per-file step FileStep rather than FileStepAsWritten, and a summary of the two output folders and their count |
| PageXml.IntStr | ml/page_xml/xmlPAGE.py:225 | str() of an integer is non-empty and starts with a minus sign exactly when it is negative |
| PageXml.Apply | ml/page_xml/xmlPAGE.py:222-234 | an edit keeps the element's tag, attributes and text; an append adds the child at the end; a removal drops exactly that child |
| PageXml.ModifyAt | ml/page_xml/xmlPAGE.py:222-234 | editing the node at a path leaves the path valid and makes the node there the edited node |
| PageXml.ModifyAway | ml/page_xml/xmlPAGE.py:222-234 | a node that is neither an ancestor nor a descendant of the edited node is unchanged |
| PageXml.ModifyKeepsAncestors | ml/page_xml/xmlPAGE.py:222-234 | the ancestors of the edited node stay addressable |
| PageXml.AtAppend | ml/page_xml/xmlPAGE.py:222-238 | a path through a node is valid exactly when the rest of it is valid from that node, and reaches the same element |
| PageXml.AppendKeepsPaths | ml/page_xml/xmlPAGE.py:222-238 | appending a child anywhere keeps every node addressable by its old path |
| PageXml.RemovalKeepsSibling | ml/page_xml/xmlPAGE.py:231-234 | after a removal each other child of the parent, and everything under it, is found at its shifted index |
| PageXml.RemovalKeepsOthers | ml/page_xml/xmlPAGE.py:231-234 | every node not under the removed child stays addressable by its adjusted path and, unless it is an ancestor, unchanged |
| PageXml.LineEnd | ml/page_xml/xmlPAGE.py:59-61 | the first newline, or the end: the regex's dot stops at a newline |
| PageXml.LastOccurrence | ml/page_xml/xmlPAGE.py:59-61 | the last position up to the bound where the pattern occurs, -1 if none |
| PageXml.Latest | ml/page_xml/xmlPAGE.py:59-61 | the greedy match's positions are ordered and within the string |
| PageXml.OccursInLine | ml/page_xml/xmlPAGE.py:59-61 | an occurrence inside a prefix is one in the whole string, and conversely when it fits in the prefix |
| PageXml.LatestMatches | ml/page_xml/xmlPAGE.py:59-61 | the greedy positions found form a match of the pattern |
| PageXml.LatestIsLast | ml/page_xml/xmlPAGE.py:59-61 | every match's positions are at or before the greedy ones |
| PageXml.RegionTypeSpec | ml/page_xml/xmlPAGE.py:54-64 | a type is returned exactly when the pattern matches; it is the text captured by the greedy match, the one whose positions are last |
| PageXml.CustomHead | ml/page_xml/xmlPAGE.py:226 | the custom string starts with "structure {type:" and has no other "type:" or newline in its head |
| PageXml.CustomTail | ml/page_xml/xmlPAGE.py:226 | the custom string ends with the type followed by ";}" |
| PageXml.CustomLine | ml/page_xml/xmlPAGE.py:226 | a type without a newline gives a custom string on one line |
| PageXml.OccursInSlice | ml/page_xml/xmlPAGE.py:59-61 | an occurrence inside a slice is found in the slice at the shifted position |
| PageXml.CustomLastType | ml/page_xml/xmlPAGE.py:59-61 | in a custom string whose type has no "type:", the last "type:" is the one the builder wrote |
| PageXml.RegionTypeOfCustom | ml/page_xml/xmlPAGE.py:54-64 | the type read back from add_element's custom string is the type written, when the type has no newline and no "type:" |
| PageXml.NewDocument | ml/page_xml/xmlPAGE.py:200-217 | a PcGts root with Metadata (Creator, Created, LastChange) and an empty Page naming the image with width cols and height rows |
| PageXml.GetId | ml/page_xml/xmlPAGE.py:48-52 | str of the id attribute, "None" when it is missing |
| PageXml.GetRegionType | ml/page_xml/xmlPAGE.py:54-64 | None when custom is missing, otherwise the type read from it |
| PageXml.RegionReadsBack | ml/page_xml/xmlPAGE.py:219-229 | the element add_element builds has the class as tag, reads back its id and type, and has one Coords child with the points |
| PageXml.PageData.constructor | ml/page_xml/xmlPAGE.py:17-24 | keeps the image name; the creator defaults to "P2PaLA-PRHLT"; no document yet |
| PageXml.PageData.NewPage | ml/page_xml/xmlPAGE.py:200-217 | the document becomes the new PcGts and self.page the path of its Page; name and creator are unchanged |
| PageXml.PageData.AddElement | ml/page_xml/xmlPAGE.py:219-229 | appends the new region to the given parent, else to the page, and returns its path; when the page is gone and no parent is given, nothing changes |
| PageXml.PageData.RemoveElement | ml/page_xml/xmlPAGE.py:231-234 | removes the child from the given parent, else from the page, and fails with ValueError exactly when there is no such child |
| PageXml.PageData.AddBaseline | ml/page_xml/xmlPAGE.py:236-238 | appends one Baseline with the points to the parent and changes nothing else |
| PageXml.AddElementAppendsOne | ml/page_xml/xmlPAGE.py:219-229 | the parent's children gain exactly the new region, at the end, where the returned path finds it |
| PageXml.AddBaselineAppendsOne | ml/page_xml/xmlPAGE.py:236-238 | the parent's children gain exactly one Baseline at the end; its tag and attributes stay |
| PageXml.RemoveElementDropsOne | ml/page_xml/xmlPAGE.py:231-234 | the parent's children lose exactly the removed one and keep the others in order |
| PageXml.NewPageHasPage | ml/page_xml/xmlPAGE.py:212-217 | the path [1] held in self.page finds a Page whose attributes are the image name, width and height |

## Left out

- HTTP, the frameworks and scheduling are not modelled. This covers FastAPI routing, aiohttp/httpx/requests, background tasks, the dramatiq broker and its own retries, APScheduler and threads. Every outbound call is an outcome oracle, and every sleep is a recorded delay in milliseconds.
- File modification times become a strictly increasing version counter, and the float tolerance of 1e-9 disappears. The store's per-key asyncio locks are not modelled, because each operation is one atomic step here.
- JSON text, ElementTree serialisation and CSV/XLSX rendering of reports are not modelled. Documents are values of `JsonValues.Json`, and `pageData.get_content` and `_indent` (ml/page_xml/xmlPAGE.py:240-260) only format text.
- Decoding a zip archive is not modelled; only the filter over its member names and the targets it writes are.
- Timestamps, UUIDs, group ids and file ids are inputs. The outcome of each disk write is an input: a boolean for the store and file-system operations and for the upload's card, mirror, record and index writes (`GroupsEndpoints.UploadDisk`), and a `MlEntrypoint.SaveOutcome` for the OCR result file.
- The neural networks are not modelled: the transformer, TrOCR, the language model of the post-processing service and its schemas, and the layout detector. `predict`'s argmax and the model calls are functions passed in.
- OpenCV and PIL image reading, resizing and `process_image` are not modelled. An image is its size plus an identity.
- Floating-point rounding is not modelled. The percentile rectangles of ml/ocr_page.py:21-29 and CER/WER through editdistance are left out. `_is_potential_line_break` (`TextConcatenator.PotentialLineBreak`) and `average_line_breaks_per_region` are modelled on exact real numbers, so a comparison that float rounding would tip the other way is not captured. The training scripts' `int(val_split * len(dataset))` is an input to `TrainTrocr.SplitSizes`.
- `int(float(x))` in ml-training/prepare_data.py is modelled as truncation of an exact real number. Parsing a numeric string is a function passed in.
- `pageData`'s readers that use `self.root` and `self.base` are not modelled. These attributes are never assigned, so `get_region`, `get_zones`, `get_size`, `get_coords`, `get_polygons`, both mask builders, `get_text`, `get_transcription` and `write_transcriptions` cannot run. `get_id` and `get_region_type` are modelled on an element.
- `PageXml.PageData.RemoveElement`: a page element that was itself removed from the document is no longer addressable, so removing from it without a parent is not modelled.
- ElementTree aliasing is not modelled. Elements are addressed by child-index paths in one tree, and a returned element is its path.
- `_resolve_fid_by_filename` and the `configs` attributes that the code uses but does not define are parameters.
- `pipeline_processor.process_scan`, `_load_and_prepare_image`, `_detect_layout`, `_process_ocr` and `_create_ocr_xml` are not modelled as such. The OCR entry point treats a whole scan's processing as an oracle. The crop naming, region coordinates, result combination and PAGE building they rely on are modelled.
- `_copy2` in backend/src/utils/files.py is not modelled, because it is a plain file copy with nothing to state beyond the copy.
- `report.py`'s `_pick_entities` is not modelled, because nothing calls it.
- The iteration order of dicts, sets and directory listings is not modelled. Where the code iterates over one of these, the model takes whatever order it is given (`Collections.Enumerate`) and states only order-free properties.
- ReportBuilder.ListOf: `list()` of a non-empty dict (its keys, in insertion order) is modelled as an error, because the model's dicts keep no order.
- Glob metacharacters inside file names, `Path.resolve` on symbolic links, and group ids that are not single path components are not modelled.
- Lower-casing covers ASCII and basic Cyrillic only; full Unicode case mapping is not modelled.
- TextConcatenator.IsTextContinuous: `str.isupper()` on the first character is modelled for the capitals of ASCII, Latin-1, Latin Extended-A, basic Greek and Cyrillic (U+0400..U+04FF). A capital from any other block, such as Latin Extended-B, Armenian or Georgian, counts as not upper case, so such a text is treated as continuous where Python would break it.
- Common.FileSystem.ExtractZipFiltered: conflicts between files and directories are not modelled. Two cases are affected: a member whose target is already a directory, and a member whose target's parent would have to be a directory where a file already is ("a.jpg" followed by "a.jpg/b.jpg"). Python's mkdir or open raises there, and upload_zip answers 500. The model's file system lets one path be both a file and a directory, so the extraction is taken as succeeding. Only `Common.FileSystem.RemoveTree` distinguishes a directory from a file.
- OcrCoords.ParseDecimal: only plain decimal notation is read. `float()` also accepts exponents ("1e2"), digit-group underscores ("1_0") and "inf"/"nan". For those, `int()` gives a value that depends on binary rounding, or raises OverflowError (inf) or ValueError (nan). The model reads all of them as ValueError.
- OcrCoords.CoordTokens: inherits the gap of `OcrCoords.ParseDecimal`. Its statement that ValueError is the only error does not cover the OverflowError that "inf,1" raises in Python.
- OcrCoords.ParseCoordinates: inherits the gap of `OcrCoords.ParseDecimal`. "1e2,3" gives the point (100, 3) in Python and ValueError here.
- GroupsEndpoints.UploadZip: the extraction into raw_data is taken to succeed. A disk failure while writing an extracted member (Python's open or write raising) would answer 500 with the card written and part of the archive extracted; the model has no outcome input there. The card, mirror, record and index writes do have one (`GroupsEndpoints.UploadDisk`).
- MlEntrypoint.ImageStep: a failing `dest.mkdir` is folded into `OpenFails`, so the destination's directories are counted as created even then.
- FilesUtils.StripIndex: the index is read as ASCII digits only. Python's `\d` also matches other Unicode decimal digits (such as Arabic-Indic ones), and `$` also matches just before a final newline, so "a_123\n" loses its index in Python and keeps it here.
- FilesUtils.StripResult: `$` is read as the end of the string. Python's `$` also matches just before a final newline, so "a_result\n" is stripped in Python and kept here.
- OcrCoords.ParseInt: after stripping whitespace and an optional sign, only ASCII digits are read. Python's `int()` also accepts digit-group underscores ("1_0") and other Unicode decimal digits; the model reads those as ValueError.
- OcrCoords.NodeCoordinates: inherits the gap of `OcrCoords.ParseInt`. A point such as "1_0,2" is read as ValueError here and as (10, 2) in Python.
- TextConcatenator.PotentialLineBreak: the KeyError that ml/text_concatenator.py:146-147 raises for a line without a "coordinates" key cannot occur, because every `OcrLine` of the model has its coordinates.
- GroupsUtils.AppendGroupIndex: an index whose "files" is not a list of strings is read as a server error. Python's `set()` would instead iterate a string's characters or a dict's keys, and fail only later: in `sorted` on mixed types, or on unhashable items. The same reading (`GroupsUtils.IndexIds`) serves `GroupsEndpoints.DeleteGroup` and `GroupsEndpoints.ListFilesInGroup`, whose loops would iterate such a value too. The service itself only ever writes lists of strings there.

## Findings

| source | as written | input that shows it | evidently intended | confidence | as-written member | corrected member |
|---|---|---|---|---|---|---|
| backend/src/services/report/report.py:159-161 | `http.HTTP_404_NOT_FOUND` does not exist in Python's `http` module, so a missing group raises AttributeError; and the class raised is `http.client.HTTPException` (report.py:2), not FastAPI's, so even `http.HTTPStatus.NOT_FOUND` would still answer 500 | a report request for a group id without a `groups/{gid}` record | answer 404, which needs both the status constant and FastAPI's HTTPException | not executed | ReportBuilder.MissingGroupIsServerError | ReportBuilder.GroupCard |
| postprocessing/main.py:67-72 | when reading or parsing the input fails, the except branch writes `data`, which was never bound; UnboundLocalError escapes after the output file was opened for writing | a source directory whose first *.json file is not valid JSON | log the failure, return False and go on with the next file | not executed | PostprocessingMain.AsWrittenAbortsBatch | PostprocessingMain.IntendedContinues |
| ml/storage_manager.py:84 | `save_cropped_image` writes `{scan_id}_region_{region_id}.jpg`, but `load_cropped_image` (ml/storage_manager.py:165) reads `{scan_id}_{region_id}.jpg` | save a crop for scan "s" and region "1", then load it | the load finds the crop that was saved | not executed | StorageManager.CropLookupMisses | StorageManager.LocalStorageManager.FindCroppedImage |
| ml-training/utils.py:15-17 | the existence check builds the transcript name as `filename[:-3] + 'txt'`, while the read uses `splitext(filename)[0] + '.txt'` | image "x.jpeg" with transcript "x.jtxt" (read fails) or "x.txt" (skipped) | both use the name without the extension plus ".txt" | not executed | TrainingTexts.JpegTranscriptCrash | TrainingTexts.EntryCorrectedSpec |
| ml-training/prepare_data.py:63-67 | a label file without a matching image calls `os.listdir(json_path)` on a file, which raises NotADirectoryError and stops the run | "scan.json" with only "scan.txt" in the image directory | report the missing image and skip the file | not executed | PrepareData.MissingImageExample | PrepareData.NoImagesNoSamples |

Behaviour that is surprising but is modelled as written, not as a finding:

- The fallback OCR alphabet of ml/ocr.py:153-157 repeats five letters, so indices and letters do not round-trip there (`OcrDecode.FallbackRepeats`).
- `process_texts` counts, in `all_word`, each occurrence of a word after its first, so a word seen once counts 0.
- The extension test of ml-training/train_trocr.py:118 accepts a file named just "png".
- The docstring of `prepare_dataset` describes `data["json"]["regions"]`, but the code reads the regions from `data["json"]["json"]`; a file nested only once raises AttributeError (`PrepareData.SingleNestingRaises`).
- `get_region_type` returns the text after the last "type:" on the first line, so a type that itself contains "type:" does not read back; `PageXml.RegionTypeOfCustom` states the exact condition.
