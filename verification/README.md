# Dabi task registry and artifact sync, modelled in Dafny

This project models the task-tracking core of the `dabi` training wrapper:

- the in-memory task registry `DabiTaskManager`;
- its post-training artifact sync `upload_model_to_oss`;
- the registry effects of the HTTP routes that create, terminate, query and count tasks.

Everything is a pure function over immutable values. The exception is the `/free` scan, a method with a loop.

Modules, in dependency order:

- `Wrappers` (`wrappers.dfy`): `Option`, and `Attempt`, which is either a returned value or an escaped Python exception.
- `Statuses` (`statuses.dfy`): one enumeration for the trainer's `CREATED`/`RUNNING`/`FINISHED`/`TERMINATED` and DabiTaskStatus's `TRAIN_FAILED`/`UPLOADED`/`UPLOAD_FAILED`, with their names and values.
- `Registry` (`registry.dfy`): tasks, records, and the registry as an insertion-ordered dictionary. It also holds `set_task_status`, `dump` and the manager's `sync_result_to_dabi`.
- `Listing` (`listing.dfy`): the prefix/extension filters over a directory listing, and Python's string order and sort.
- `ArtifactSync` (`sync.dfy`): `upload_model_to_oss`, driven by a `World`. The `World` holds the directory listings, each of which may be missing or may raise, and the status read before each file, which stands in for concurrent termination. It also holds the storage, sample-endpoint and copy outcomes, and whether the environment has a callback host. A result report counts as sent once `sync_result_to_dabi` has found the host and made its request. Whether the orchestrator received it is not modelled, because that function swallows every failure of the request (util.py:106-113).
- `SyncLaws` (`sync_laws.dfy`): properties of the sync.
- `Findings` (`findings.dfy`): concrete runs that show the two upload defects.
- `Routes` (`routes.dfy`): `/run` registration, `/tasks/terminate` and `/task/status`.
- `Availability` (`availability.dfy`): the `/free` scan.

Modelling choices:

- `DabiTask.__init__` never sets `status`, so a task's status is an `Option`. Reading an unset status raises AttributeError in `dump`, `/task/status`, `/free` and the `finally` block of `/tasks/terminate`.
- Task ids come from the JSON body, so registry keys are JSON values (`Text` or `Number`). The path routes look up `Text(id)`.
- The registry keeps insertion order, as a Python dict does. Order decides what `/free` does when a task without a status comes before a busy one.
- The sync comes in two variants, `AsWritten` and `Corrected`. The general laws are stated on `SyncWith` and hold for both variants. `Sync` (corrected) and `SyncAsWritten` appear side by side only in the concrete runs of `Findings`.

## Model

| member | source | states |
|---|---|---|
| `Statuses.ValueOf` | dabi/util/tasks.py:10-13 | TRAIN_FAILED has value 4, UPLOADED 5 and UPLOAD_FAILED 6; these three, and only these, have integer values. The trainer's statuses keep a symbolic value naming the member. |
| `Statuses.NamesAndValuesIdentify` | dabi/util/tasks.py:10-13 | Distinct statuses have distinct names and distinct values, so `dump` and `/task/status` identify the status. For values this rests on the trainer's members keeping symbolic values (`TrainerCode`): the trainer's integers are not visible, so a clash with 4, 5 or 6 cannot be ruled out from the source. |
| `Registry.FreshTask` | dabi/util/tasks.py:15-20 | A task as `DabiTask()` builds it, with its id assigned (api.py:33-34): no status at all, an empty configuration and no records. |
| `Registry.SetStatus` | dabi/util/tasks.py:107-111 | An unknown id leaves the registry unchanged. Otherwise only that task's status changes: config, records, other tasks and key order stay as they were. |
| `Registry.DumpKeys` | dabi/util/tasks.py:97-105 | The comprehension over keys in order succeeds iff every visited task has a status. Entry i then describes the i-th task. |
| `Registry.Dump` | dabi/util/tasks.py:97-105 | `dump` succeeds iff every task has a status. It then returns exactly one entry per registered task: as many entries as tasks, no repeats, each with that task's id, status name and status value. |
| `Registry.NotifyResult` | dabi/util/tasks.py:90-94 | An unknown id does nothing. A report is sent iff the task has a `dabi_env` whose callback host is configured. The report carries the given code, the id and the task's current records. |
| `Listing.Select` | dabi/util/tasks.py:37-40 | A name is a candidate iff some listing entry with that name is a regular file the filter accepts. The model filter needs both prefix and extension; the sample filter needs only the prefix. |
| `Listing.SelectCounts` | dabi/util/tasks.py:41 | The count compared with `max_train_epochs` equals the number of accepted entries, counted independently. |
| `Listing.Sort` | dabi/util/tasks.py:43 | The sorted list is in ascending code-point order and is a permutation of the candidates. |
| `Listing.SortedUnique` | dabi/util/tasks.py:68 | Two sorted permutations of the same names are equal, so the upload order is determined by the candidate set alone. |
| `Listing.SortExample` | dabi/util/tasks.py:43 | `b`, `a`, `c` `.safetensors` are visited as `a`, `b`, `c`. |
| `ArtifactSync.Walk` | dabi/util/tasks.py:45-59 | The records appended are the files whose check read FINISHED, in visiting order. Their number is that of such files before the first file that stops the loop (`FirstStop`); when none stops, that is all of them. So every upload completed before an exception keeps its record. Each record's path is the uploader's answer, `None` included, and no recorded upload raised. |
| `ArtifactSync.FirstStopIsFirst` | dabi/util/tasks.py:46-48 | `FirstStop` is the least position whose status check raises (no status) or whose FINISHED check is followed by a raising upload. No file before it stops the loop. |
| `ArtifactSync.WalkRaisesIff` | dabi/util/tasks.py:46-59 | A loop stops early iff some check finds no status, or some file whose check read FINISHED has an upload that raises. A non-FINISHED check only skips that file. |
| `ArtifactSync.CopyFailuresSwallowed` | dabi/util/tasks.py:53-57 | Whether copies to `/mnt/train_loras` fail never changes the records, the last status read, or whether the loop stops. |
| `ArtifactSync.ApprovedSorted` | dabi/util/tasks.py:43-45 | The files actually uploaded from a sorted list are in ascending order. |
| `ArtifactSync.CopiedAreRecorded` | dabi/util/tasks.py:49-57 | The models a loop copies to `/mnt/train_loras` are exactly its recorded files whose copy did not fail. |
| `ArtifactSync.ModelUpload` | dabi/util/tasks.py:48 | As written, every model upload raises. Corrected, it gives the storage's answer for the file. |
| `ArtifactSync.SampleUpload` | dabi/util/util.py:74-95 | A sample upload raises iff the environment has no callback host (line 75 is outside the `try`), or the request fails and the code is as written. Otherwise the recorded path is the endpoint's path, or `None` when its reply has no `data`/`path` or, corrected, when the request failed. |
| `ArtifactSync.ReadSettings` | dabi/util/tasks.py:28-34 | The settings are read iff the four keys are present and the directory, name and extension are strings. They then carry exactly those configuration values. |
| `ArtifactSync.EpochsMatch` | dabi/util/tasks.py:41 | A text epoch count never equals a file count; an integer one matches iff it equals the count. The same comparison is at line 66. |
| `ArtifactSync.Handler` | dabi/util/tasks.py:85-88 | With a callback host: the task is stored as the body left it, marked UPLOAD_FAILED, and one code-1 report settles it. Without one: the report raises, the exception escapes, and the task is stored as the body left it, with its status unchanged. Nothing else in the registry changes. |
| `ArtifactSync.Decide` | dabi/util/tasks.py:79-84 | A match sets UPLOADED, even when the report then fails. Without a match, the status is UPLOAD_FAILED when the report is sent and unchanged when it raises. A report is sent iff there is a host; it has code 0 exactly on a match and settles the final task. Records, key order and other tasks are unchanged. |
| `ArtifactSync.SyncWith` | dabi/util/tasks.py:26-88 | Key order and all other tasks are unchanged. The task keeps its id and config, and its earlier records stay as a prefix. At most one result report is sent, and one is sent iff the task exists, has `dabi_env` and its environment has a callback host. Without that report an exception escapes. A report carries code 0 with UPLOADED, or code 1 with UPLOAD_FAILED, plus the task's final records. |
| `SyncLaws.SyncCompletes` | dabi/util/tasks.py:41-84 | When neither listing raises and neither loop stops, every FINISHED-checked file is appended in ascending order after the earlier records. A match makes the status UPLOADED. When the report is sent, the status is UPLOADED iff the model count or the sample count matched (inclusive or), with code 0; otherwise it is UPLOAD_FAILED with code 1. |
| `SyncLaws.SyncStopsInModels` | dabi/util/tasks.py:45-88 | An exception in the model loop uploads no sample image. It keeps exactly the model records appended before the first stopping file: one per FINISHED-checked file before it. A sent report then says code 1 with UPLOAD_FAILED, whatever the counts. |
| `SyncLaws.SyncStopsInSamples` | dabi/util/tasks.py:69-88 | An exception in the sample loop, once the output directory was listed, keeps all model records. It keeps exactly the sample records appended before the first stopping image. A sent report then says code 1 with UPLOAD_FAILED. |
| `SyncLaws.SyncCopiesRecordedModels` | dabi/util/tasks.py:45-57 | Every model the sync copies to `/mnt/train_loras` is recorded on the task, and its copy did not fail. |
| `SyncLaws.UnmatchedListIsSkipped` | dabi/util/tasks.py:41-42 | A list whose candidate count is not the epoch count, or whose directory is missing, gets no uploads. |
| `SyncLaws.UploadedOverridesTermination` | dabi/util/tasks.py:79-80 | If every check reads TERMINATED, the model count matched and the `sample` listing does not raise, nothing is uploaded, yet the final status is UPLOADED. |
| `SyncLaws.SyncListingRaises` | dabi/util/tasks.py:36-63 | An `os.listdir` that raises, because the path is a regular file or cannot be read, ends in the handler whatever the counts. A sent report says code 1 with UPLOAD_FAILED. A raising output listing adds no record and copies nothing. A raising `sample` listing keeps the model loop's records and copies, and adds no sample record. |
| `SyncLaws.SyncSettingsRaise` | dabi/util/tasks.py:30-34 | A missing `max_train_epochs`, `output_dir`, `output_name` or `save_model_as` (KeyError), or a non-text `output_dir` (TypeError), ends in the handler before any listing. No record is added and nothing is copied. A sent report says code 1 with UPLOAD_FAILED. |
| `SyncLaws.NothingApproved` | dabi/util/tasks.py:46-47 | When every check reads a status other than FINISHED, no file is approved and the loop does not stop. |
| `SyncLaws.WalkWithFailingUploads` | dabi/util/tasks.py:48-52 | A loop whose every upload raises appends no record, because the upload comes before the append. |
| `SyncLaws.AsWrittenRecordsNoModel` | dabi/util/tasks.py:48 | As written, the sync never appends a model record. |
| `SyncLaws.AsWrittenFailsOnApprovedModel` | dabi/util/tasks.py:47-49 | As written, once any model file's check reads FINISHED, a sent report says code 1 and the status is UPLOAD_FAILED. |
| `SyncLaws.ApprovedNeedsFinished` | dabi/util/tasks.py:47 | Every approved file sits at a position of the visiting order whose own check read FINISHED. |
| `Findings.ModelUploadAsWrittenFails` | dabi/util/tasks.py:48 | One matching model file, status FINISHED, storage that would accept it: as written, code 1, UPLOAD_FAILED, no record. |
| `Findings.ModelUploadCorrectedSucceeds` | dabi/util/util.py:52-69 | The same run with a three-argument call: code 0, UPLOADED and one record with the stored path. |
| `Findings.SampleUploadAsWrittenFails` | dabi/util/util.py:94-95 | An output directory holding only its `sample` directory, one matching sample image, and a failing request: as written, code 1, UPLOAD_FAILED, no record. |
| `Findings.SampleUploadCorrectedSucceeds` | dabi/util/util.py:84-90 | The same file system and request, with the failure returning `None` like the function's other failure paths: code 0, UPLOADED and one record without a path. |
| `Findings.CorrectedSampleUploadNeverRaisesWithHost` | dabi/util/util.py:74-95 | When the callback host is configured, the corrected sample upload never raises. A failed request gives `None` there but raises as written. |
| `Routes.SuggestedCpuThreads` | dabi/api.py:42 | The suggestion is 2 or 8, and it is 8 iff there are more than 200 training images. |
| `Routes.Run` | dabi/api.py:30-43 | Without `dabi_task_id`: failure and an unchanged registry. With it, a fresh task with no status and empty records replaces any earlier one in place, and other entries are unchanged. Without `dabi_env`: failure, but the task stays with an empty config. Otherwise the config is the body minus the popped keys. The call proceeds iff `train_data_dir` is present, with the thread suggestion. |
| `Routes.RegisteredTaskHasNoStatus` | dabi/api.py:33-35 | Right after `/run` registers a task, before the trainer assigns a status, both `/task/status` for it and `dump` raise. |
| `Routes.Terminate` | dabi/api.py:147-161 | Only the named task changes. A task with a status ends TERMINATED even when the stop request raised. An absent id inserts nothing. A task without a status is left unchanged and the route raises. |
| `Routes.QueryStatus` | dabi/api.py:169-181 | "Task not found" iff the id is absent. The query raises iff the task has no status. Otherwise it returns that task's status name, value and records. |
| `Routes.TerminatedIsQueryable` | dabi/api.py:150-181 | After terminating a task that has a status, the status query reports TERMINATED, whether or not the stop request raised. |
| `Availability.BusyFlag` | dabi/api.py:183-197 | The insertion-order scan answers 1 iff a busy task (CREATED, RUNNING or FINISHED) comes before any task without a status. It raises iff a task without a status comes first, and answers 0 iff every task has an idle status. When all statuses are set, it answers 1 iff some task is busy. An empty registry answers 0. |
| `Availability.ScanFindsBusy` | dabi/api.py:188-193 | When every task has a status, the scan meets a busy task iff the registry holds one, whatever the order. |

## Notable behaviour of the source

- A status check that reads anything but FINISHED skips only that file; later files are checked again (tasks.py:46-59).
- `sync_result_to_dabi` reads the environment's callback configuration outside its `try` (util.py:98-99), so it raises when the environment has no callback host. The `except` branch of `upload_model_to_oss` then raises again (tasks.py:86), and the exception escapes with no report sent. In that case a matched count leaves the status UPLOADED (tasks.py:80 runs before the report), and an unmatched one leaves it unchanged.
- `upload_model_to_oss` for an unknown id, or for a task without `dabi_env`, raises out of the method. Its `except` branch reads `dabi_task`/`env`, which were never bound (tasks.py:28-29, 86).
- A registered task has no status until the trainer assigns one: `DabiTask.__init__` never sets it (tasks.py:15-20), and `/run` stores the task right away (api.py:33-35).
- `os.path.exists` is all that guards each `os.listdir` (tasks.py:36-37, 62-63). A regular file named `sample` in the output directory makes the second listing raise. The handler then reports code 1 and sets UPLOAD_FAILED, even when the model count matched.
- `set_task_status` checks no transition order (tasks.py:107-111): the final UPLOADED overwrites a concurrent TERMINATED (tasks.py:79-80).

## Findings

| source | as written | input that shows it | evidently intended | confidence | as-written member | corrected member |
|---|---|---|---|---|---|---|
| dabi/util/tasks.py:48 | `upload_local_file_to_oss_direct` is called with four arguments but takes three (util.py:52). Every model upload raises TypeError, which the handler turns into UPLOAD_FAILED. | A FINISHED task with `max_train_epochs` 1 and one file `lora-000001.safetensors` | Upload the file, record its path, end UPLOADED with code 0 | high (not executed) | `Findings.ModelUploadAsWrittenFails` | `Findings.ModelUploadCorrectedSucceeds` |
| dabi/util/util.py:94-95 | On a failed request, the `except` branch logs `oss_file_path`, which was never assigned. `upload_sample_image` raises UnboundLocalError, and the whole sync ends UPLOAD_FAILED. | A FINISHED task with `max_train_epochs` 1, one image `lora-000001.png` and a failing request | Return `None`, record the image without a path, end UPLOADED | high (not executed) | `Findings.SampleUploadAsWrittenFails` | `Findings.SampleUploadCorrectedSucceeds` |

## Left out

- dabi/wb/client.py (the reconnecting websocket client): two threads, sleeps, a lock and a socket handle. There is no sequential core to model.
- HTTP, OSS and file I/O in dabi/util/util.py: uploads, callbacks and copies appear only as outcomes in `World`. `get_url`, `upload_oss` and `copy_local_file` have no model.
- dabi/util/config_manager.py: the environment configuration appears only as `dabiHost` and the storage outcomes.
- `upload_train_data` (api.py:75-145): thread-pool downloads and file writes.
- `/run` after line 43: model validation, prompt and TOML files, and the trainer launch belong to the external trainer, which is not part of this model. `fix_config_types` (api.py:40) is treated as leaving the configuration unchanged.
- `/tasks/terminate`: the update of the trainer's own task table (api.py:153-156) is left out. The trainer's stop request appears only through whether it raised.
- The trainer's TaskStatus integer values are not visible, so they stay symbolic (`TrainerCode`).
- Timestamps from `datetime.now()` are left out; the storage outcome stands for the resulting path.
- JSON values other than strings and integers (floats, booleans, null, arrays, objects) are left out, and so is Python's `True == 1`.
- ArtifactSync.ReadSettings: a non-text `output_name` or `save_model_as` is treated as raising when the settings are read. The source raises only when a regular file is first tested against it, so the model stops slightly earlier in that case.
- Concurrency is reduced to the status read at each check. A re-registration of the same id during a sync is not modelled. In the source it would make later checks read the new task while records still go to the old one.
- Python strings may hold lone surrogates, for example names from `os.listdir` on undecodable bytes. A Dafny `char` cannot hold one, so such file names are not modelled.
- Unbounded registry growth (no eviction) holds in the model, but it is not stated as a property.
