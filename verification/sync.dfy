/** DabiTaskManager.upload_model_to_oss (dabi/util/tasks.py): after training,
    upload the model files and sample images of a task, append one record per
    upload, set the final status and report it with the result callback.

    The file system, the storage services, the callback endpoint and the
    concurrent writers of the task's status are parameters (a `World`): the
    status read before each file stands for whatever a concurrent
    termination has written by then. */
module ArtifactSync {
  import opened Wrappers
  import opened Statuses
  import opened Registry
  import opened Listing

  /** What one upload call gives back to the loop: a path, `None`, or an
      exception that escapes into the loop. */
  datatype UploadOutcome = Stored(path: string) | NoPath | Raises

  function PathOf(u: UploadOutcome): Option<string> {
    if u.Stored? then Some(u.path) else None
  }

  /** How the sample-image endpoint answers one request (util.py:77-93): with
      a path, with a reply that has no path, or by failing (a file error, an
      HTTP error, a bad reply body). */
  datatype SampleReply = PathReply(path: string) | NoPathReply | RequestFailed

  /** What `os.path.exists` followed by `os.listdir` gives for a directory
      path: it does not exist, it lists these entries, or the listing raises
      (the path is a regular file, or it cannot be read). */
  datatype Listed = Missing | Entries(entries: seq<DirEntry>) | Unlistable

  /** Everything upload_model_to_oss observes from outside the registry. The
      `sample` directory lies inside the output directory (tasks.py:61), so a
      world whose `sample` path exists has an existing output path too. */
  datatype World = World(
    modelListing: Listed,                      // the output directory
    sampleListing: Listed,                     // its `sample` sub-directory; Missing when modelListing is
    modelCheck: nat -> Option<Status>,         // the status read before the i-th model file (None: never set)
    sampleCheck: nat -> Option<Status>,        // the status read before the i-th sample image
    storeModel: string -> UploadOutcome,       // a three-argument upload_local_file_to_oss_direct
    sampleEndpoint: string -> SampleReply,     // the sample-image endpoint
    copyFails: string -> bool,                 // whether copying a model to /mnt/train_loras fails
    dabiHost: Value -> bool)                   // whether the environment's callback host is configured

  /** A world a file system can produce: an existing `sample` path implies an
      existing output path. */
  predicate Realizable(w: World) {
    !w.sampleListing.Missing? ==> !w.modelListing.Missing?
  }

  /** Neither `os.listdir` call raises. */
  predicate Listable(w: World) {
    !w.modelListing.Unlistable? && !w.sampleListing.Unlistable?
  }

  /** The source as written, or with its two upload defects corrected. */
  datatype Variant = AsWritten | Corrected

  /** The model upload the loop performs. As written, tasks.py:48 passes four
      arguments to the three-parameter upload_local_file_to_oss_direct
      (util.py:52), so every call raises TypeError. */
  function ModelUpload(v: Variant, w: World): (u: string -> UploadOutcome)
    ensures v.AsWritten? ==> forall name :: u(name).Raises?
    ensures v.Corrected? ==> forall name :: u(name) == w.storeModel(name)
  {
    match v
    case AsWritten => (name: string) => Raises
    case Corrected => w.storeModel
  }

  /** upload_sample_image (util.py:74-95). The configuration lookup before
      its `try` raises when the environment has no callback host. As written,
      a failed request reaches a log line that reads the unassigned
      `oss_file_path` and raises UnboundLocalError; corrected, it returns
      `None` as the function's other failure paths do. */
  function SampleUpload(v: Variant, w: World, env: Value): (u: string -> UploadOutcome)
    ensures forall name :: u(name).Raises? <==>
      !w.dabiHost(env) || (v.AsWritten? && w.sampleEndpoint(name).RequestFailed?)
    ensures forall name :: !u(name).Raises? ==>
      PathOf(u(name)) == (if w.sampleEndpoint(name).PathReply? then Some(w.sampleEndpoint(name).path) else None)
  {
    (name: string) =>
      if !w.dabiHost(env) then Raises
      else match w.sampleEndpoint(name)
        case PathReply(p) => Stored(p)
        case NoPathReply => NoPath
        case RequestFailed => if v.AsWritten? then Raises else NoPath
  }

  /** The files, among `files`, whose status check reads FINISHED, when the
      i-th file is checked at position `k + i` of `check`. */
  function Approved(files: seq<string>, k: nat, check: nat -> Option<Status>): (a: seq<string>)
    ensures |a| <= |files|
    ensures forall x :: x in a ==> x in files
    decreases |files|
  {
    if |files| == 0 then []
    else (if check(k) == Some(Finished) then [files[0]] else []) + Approved(files[1..], k + 1, check)
  }

  /** Whether a file whose check read `seen` stops a loop by itself. */
  predicate StopsAt(f: string, seen: Option<Status>, upload: string -> UploadOutcome) {
    seen.None? || (seen == Some(Finished) && upload(f).Raises?)
  }

  /** Some file stops the loop: its status check raises (no status set), or
      the check reads FINISHED and its upload raises. */
  predicate Stops(files: seq<string>, k: nat, check: nat -> Option<Status>, upload: string -> UploadOutcome) {
    exists i :: 0 <= i < |files| && StopsAt(files[i], check(k + i), upload)
  }

  /** The position of the first file that stops the loop, or `|files|` when
      none does. */
  function FirstStop(files: seq<string>, k: nat, check: nat -> Option<Status>, upload: string -> UploadOutcome): (n: nat)
    ensures n <= |files|
    decreases |files|
  {
    if |files| == 0 || StopsAt(files[0], check(k), upload) then 0
    else 1 + FirstStop(files[1..], k + 1, check, upload)
  }

  /** FirstStop is the least stopping position: no file before it stops the
      loop, and the file at it does. */
  lemma {:induction false} FirstStopIsFirst(files: seq<string>, k: nat, check: nat -> Option<Status>,
                                            upload: string -> UploadOutcome)
    ensures var n := FirstStop(files, k, check, upload);
            && (forall i :: 0 <= i < n ==> !StopsAt(files[i], check(k + i), upload))
            && (n < |files| ==> StopsAt(files[n], check(k + n), upload))
    decreases |files|
  {
    if |files| > 0 && !StopsAt(files[0], check(k), upload) {
      var tail := files[1..];
      FirstStopIsFirst(tail, k + 1, check, upload);
      var n := FirstStop(files, k, check, upload);
      forall i | 0 <= i < n
        ensures !StopsAt(files[i], check(k + i), upload)
      {
        if i > 0 {
          assert files[i] == tail[i - 1] && k + i == (k + 1) + (i - 1);
        }
      }
      if n < |files| {
        assert files[n] == tail[n - 1] && k + n == (k + 1) + (n - 1);
      }
    }
  }

  /** The approved files of a non-empty prefix: the first file if its check
      read FINISHED, then those of the rest of the prefix. */
  lemma ApprovedPrefixStep(files: seq<string>, k: nat, check: nat -> Option<Status>, m: nat)
    requires m < |files|
    ensures Approved(files[..m + 1], k, check)
         == (if check(k) == Some(Finished) then [files[0]] else []) + Approved(files[1..][..m], k + 1, check)
  {
    assert files[..m + 1][1..] == files[1..][..m];
  }

  /** The effect of one upload loop: the records appended, the models copied
      to /mnt/train_loras, the status last read, and whether an exception left
      the loop. */
  datatype Pass = Pass(added: seq<Record>, copied: seq<string>, status: Option<Status>, raised: bool)

  /** One of the two upload loops (tasks.py:45-59 and 69-78), from file
      position `k` on, with `status` the status read most recently. */
  function Walk(files: seq<string>, k: nat, check: nat -> Option<Status>, upload: string -> UploadOutcome,
                copyFails: string -> bool, copies: bool, status: Option<Status>): (p: Pass)
    ensures |p.added| <= |Approved(files, k, check)|
    ensures forall i :: 0 <= i < |p.added| ==>
      && p.added[i].name == Approved(files, k, check)[i]
      && !upload(p.added[i].name).Raises?
      && p.added[i].ossPath == PathOf(upload(p.added[i].name))
    ensures !p.raised ==> |p.added| == |Approved(files, k, check)|
    ensures |p.added| == |Approved(files[..FirstStop(files, k, check, upload)], k, check)|
    ensures !copies ==> p.copied == []
    decreases |files|
  {
    if |files| == 0 then Pass([], [], status, false)
    else
      var seen := check(k);
      if seen.None? then Pass([], [], seen, true)
      else if seen != Some(Finished) then
        assert Approved(files, k, check) == Approved(files[1..], k + 1, check);
        ApprovedPrefixStep(files, k, check, FirstStop(files[1..], k + 1, check, upload));
        Walk(files[1..], k + 1, check, upload, copyFails, copies, seen)
      else
        var f := files[0];
        var u := upload(f);
        if u.Raises? then Pass([], [], seen, true)
        else
          var rest := Walk(files[1..], k + 1, check, upload, copyFails, copies, seen);
          var rec := Record(f, PathOf(u));
          var copied := if copies && !copyFails(f) then [f] + rest.copied else rest.copied;
          KeepTracks(files, k, check, upload, rest.added, rest.raised);
          ApprovedPrefixStep(files, k, check, FirstStop(files[1..], k + 1, check, upload));
          Pass([rec] + rest.added, copied, rest.status, rest.raised)
  }

  /** `added` holds the leading approved files of `files`, all of them unless
      the loop raised, each with the uploader's answer. */
  predicate Tracks(added: seq<Record>, raised: bool, files: seq<string>, k: nat,
                   check: nat -> Option<Status>, upload: string -> UploadOutcome) {
    && |added| <= |Approved(files, k, check)|
    && (forall i :: 0 <= i < |added| ==>
          && added[i].name == Approved(files, k, check)[i]
          && !upload(added[i].name).Raises?
          && added[i].ossPath == PathOf(upload(added[i].name)))
    && (!raised ==> |added| == |Approved(files, k, check)|)
  }

  /** Recording an approved first file keeps Tracks. */
  lemma KeepTracks(files: seq<string>, k: nat, check: nat -> Option<Status>, upload: string -> UploadOutcome,
                   added: seq<Record>, raised: bool)
    requires |files| > 0 && check(k) == Some(Finished) && !upload(files[0]).Raises?
    requires Tracks(added, raised, files[1..], k + 1, check, upload)
    ensures Tracks([Record(files[0], PathOf(upload(files[0])))] + added, raised, files, k, check, upload)
  {
    assert Approved(files, k, check) == [files[0]] + Approved(files[1..], k + 1, check);
  }

  /** The models copied to /mnt/train_loras are exactly the recorded ones
      whose copy did not fail: a copy follows its record's append. */
  lemma CopiedAreRecorded(files: seq<string>, k: nat, check: nat -> Option<Status>,
                          upload: string -> UploadOutcome, copyFails: string -> bool,
                          copies: bool, status: Option<Status>)
    ensures var p := Walk(files, k, check, upload, copyFails, copies, status);
      && (forall x :: x in p.copied ==> !copyFails(x) && exists i :: 0 <= i < |p.added| && p.added[i].name == x)
      && (copies ==> forall i :: 0 <= i < |p.added| && !copyFails(p.added[i].name) ==> p.added[i].name in p.copied)
  {
    CopiedWereRecorded(files, k, check, upload, copyFails, copies, status);
    RecordedWereCopied(files, k, check, upload, copyFails, copies, status);
  }

  /** Every copied model is a recorded one whose copy did not fail. */
  lemma {:induction false} CopiedWereRecorded(files: seq<string>, k: nat, check: nat -> Option<Status>,
                                              upload: string -> UploadOutcome, copyFails: string -> bool,
                                              copies: bool, status: Option<Status>)
    ensures var p := Walk(files, k, check, upload, copyFails, copies, status);
      forall x :: x in p.copied ==> !copyFails(x) && exists i :: 0 <= i < |p.added| && p.added[i].name == x
    decreases |files|
  {
    if |files| > 0 && check(k).Some? {
      var seen := check(k);
      CopiedWereRecorded(files[1..], k + 1, check, upload, copyFails, copies, seen);
      if seen == Some(Finished) && !upload(files[0]).Raises? {
        var rest := Walk(files[1..], k + 1, check, upload, copyFails, copies, seen);
        var p := Walk(files, k, check, upload, copyFails, copies, status);
        assert p.added == [Record(files[0], PathOf(upload(files[0])))] + rest.added;
        forall x | x in p.copied
          ensures !copyFails(x) && exists i :: 0 <= i < |p.added| && p.added[i].name == x
        {
          if x in rest.copied {
            var i :| 0 <= i < |rest.added| && rest.added[i].name == x;
            assert p.added[i + 1].name == x;
          } else {
            assert p.added[0].name == x;
          }
        }
      }
    }
  }

  /** Every record of `p` whose copy did not fail is among its copies. */
  predicate CopiesEveryRecord(p: Pass, copyFails: string -> bool) {
    forall i :: 0 <= i < |p.added| && !copyFails(p.added[i].name) ==> p.added[i].name in p.copied
  }

  /** When the loop copies, every recorded model whose copy did not fail was
      copied. */
  lemma {:induction false} RecordedWereCopied(files: seq<string>, k: nat, check: nat -> Option<Status>,
                                              upload: string -> UploadOutcome, copyFails: string -> bool,
                                              copies: bool, status: Option<Status>)
    ensures copies ==> CopiesEveryRecord(Walk(files, k, check, upload, copyFails, copies, status), copyFails)
    decreases |files|
  {
    if |files| > 0 && check(k).Some? && copies {
      var seen := check(k);
      var rest := Walk(files[1..], k + 1, check, upload, copyFails, copies, seen);
      RecordedWereCopied(files[1..], k + 1, check, upload, copyFails, copies, seen);
      if seen == Some(Finished) && !upload(files[0]).Raises? {
        var p := Walk(files, k, check, upload, copyFails, copies, status);
        assert p.added == [Record(files[0], PathOf(upload(files[0])))] + rest.added;
        assert p.copied == (if copyFails(files[0]) then rest.copied else [files[0]] + rest.copied);
        forall i | 0 <= i < |p.added| && !copyFails(p.added[i].name)
          ensures p.added[i].name in p.copied
        {
          if i > 0 {
            assert p.added[i] == rest.added[i - 1];
          }
        }
      }
    }
  }

  lemma StopsUnfold(files: seq<string>, k: nat, check: nat -> Option<Status>, upload: string -> UploadOutcome)
    requires |files| > 0
    ensures Stops(files, k, check, upload) <==>
      StopsAt(files[0], check(k), upload) || Stops(files[1..], k + 1, check, upload)
  {
    if Stops(files[1..], k + 1, check, upload) {
      var i :| 0 <= i < |files[1..]| && StopsAt(files[1..][i], check(k + 1 + i), upload);
      assert files[i + 1] == files[1..][i] && k + (i + 1) == k + 1 + i;
    }
    if StopsAt(files[0], check(k), upload) {
      assert files[0] == files[0] && k + 0 == k;
    }
    if Stops(files, k, check, upload) {
      var i :| 0 <= i < |files| && StopsAt(files[i], check(k + i), upload);
      if i > 0 {
        assert files[1..][i - 1] == files[i] && (k + 1) + (i - 1) == k + i;
      }
    }
  }

  /** A loop stops early exactly when some file's check raises or some
      approved file's upload raises. */
  lemma {:induction false} WalkRaisesIff(files: seq<string>, k: nat, check: nat -> Option<Status>,
                                         upload: string -> UploadOutcome, copyFails: string -> bool,
                                         copies: bool, status: Option<Status>)
    ensures Walk(files, k, check, upload, copyFails, copies, status).raised <==> Stops(files, k, check, upload)
    decreases |files|
  {
    if |files| > 0 {
      StopsUnfold(files, k, check, upload);
      WalkRaisesIff(files[1..], k + 1, check, upload, copyFails, copies, check(k));
    }
  }

  /** A failed copy to /mnt/train_loras never changes what is uploaded,
      recorded or read, nor whether the loop stops. */
  lemma {:induction false} CopyFailuresSwallowed(files: seq<string>, k: nat, check: nat -> Option<Status>,
                                                 upload: string -> UploadOutcome,
                                                 copyFails1: string -> bool, copyFails2: string -> bool,
                                                 copies: bool, status: Option<Status>)
    ensures var p1 := Walk(files, k, check, upload, copyFails1, copies, status);
            var p2 := Walk(files, k, check, upload, copyFails2, copies, status);
            p1.added == p2.added && p1.status == p2.status && p1.raised == p2.raised
    decreases |files|
  {
    if |files| > 0 {
      CopyFailuresSwallowed(files[1..], k + 1, check, upload, copyFails1, copyFails2, copies, check(k));
    }
  }

  /** The approved files of a sorted list are themselves sorted: uploads
      happen in ascending name order. */
  lemma {:induction false} ApprovedSorted(files: seq<string>, k: nat, check: nat -> Option<Status>)
    requires Sorted(files)
    ensures Sorted(Approved(files, k, check))
    decreases |files|
  {
    if |files| > 0 {
      var tail := files[1..];
      assert Sorted(tail) by {
        forall i, j | 0 <= i < j < |tail|
          ensures LexLe(tail[i], tail[j])
        {
          assert tail[i] == files[i + 1] && tail[j] == files[j + 1];
        }
      }
      ApprovedSorted(tail, k + 1, check);
      var rest := Approved(tail, k + 1, check);
      forall x | x in rest
        ensures LexLe(files[0], x)
      {
        var j :| 0 <= j < |tail| && tail[j] == x;
        assert files[j + 1] == x;
      }
    }
  }

  /** The configuration values read at tasks.py:30-34. */
  datatype Settings = Settings(epochs: Value, outputDir: string, outputName: string, extension: string)

  /** A missing key raises KeyError; a non-text output directory raises
      TypeError in `os.path.join`. */
  function ReadSettings(c: Config): (r: Option<Settings>)
    ensures r.Some? <==>
      && "max_train_epochs" in c && "output_dir" in c && "output_name" in c && "save_model_as" in c
      && c["output_dir"].Text? && c["output_name"].Text? && c["save_model_as"].Text?
    ensures r.Some? ==>
      && r.value.epochs == c["max_train_epochs"]
      && Text(r.value.outputDir) == c["output_dir"]
      && Text(r.value.outputName) == c["output_name"]
      && Text(r.value.extension) == c["save_model_as"]
  {
    if "max_train_epochs" !in c || "output_dir" !in c || "output_name" !in c || "save_model_as" !in c then None
    else if !c["output_dir"].Text? || !c["output_name"].Text? || !c["save_model_as"].Text? then None
    else Some(Settings(c["max_train_epochs"], c["output_dir"].text, c["output_name"].text, c["save_model_as"].text))
  }

  /** `max_train_epochs == len(files)`: only an integer equal to the count
      matches; a string never equals an int in Python. */
  function EpochsMatch(epochs: Value, count: nat): (r: bool)
    ensures epochs.Text? ==> !r
    ensures epochs.Number? ==> (r <==> epochs.n == count)
  {
    epochs == Number(count)
  }

  function ModelCandidates(w: World, s: Settings): seq<string>
    requires w.modelListing.Entries?
  {
    Select(w.modelListing.entries, ModelFilter(s.outputName, s.extension))
  }

  function SampleCandidates(w: World, s: Settings): seq<string>
    requires w.sampleListing.Entries?
  {
    Select(w.sampleListing.entries, SampleFilter(s.outputName))
  }

  predicate ModelsMatch(w: World, s: Settings) {
    w.modelListing.Entries? && EpochsMatch(s.epochs, |ModelCandidates(w, s)|)
  }

  predicate SamplesMatch(w: World, s: Settings) {
    w.sampleListing.Entries? && EpochsMatch(s.epochs, |SampleCandidates(w, s)|)
  }

  /** The model files the first loop visits, in visiting order. */
  function ModelQueue(w: World, s: Settings): seq<string> {
    if ModelsMatch(w, s) then Sort(ModelCandidates(w, s)) else []
  }

  /** The sample images the second loop visits, in visiting order. */
  function SampleQueue(w: World, s: Settings): seq<string> {
    if SamplesMatch(w, s) then Sort(SampleCandidates(w, s)) else []
  }

  /** What one call of upload_model_to_oss leaves behind: the registry, the
      result callbacks sent, the models copied, and whether an exception
      escaped the method. A report counts as sent once sync_result_to_dabi got
      past its configuration lookup (util.py:98-99) and made its request; the
      request's own outcome is not modelled, because sync_result_to_dabi
      swallows every failure of it (util.py:106-113). */
  datatype SyncOutcome = SyncOutcome(registry: Registry, reports: seq<Report>, copied: seq<string>, escaped: bool)

  /** The `except` branch (tasks.py:85-88), for a task `t` as the body left
      it: report code 1, then mark UPLOAD_FAILED. Without a callback host the
      report itself raises and escapes, and the status is left as it was. */
  function Handler(reg: Registry, t: Task, host: bool, copied: seq<string>): (o: SyncOutcome)
    requires t.id in reg.tasks
    ensures o.registry.order == reg.order && o.registry.tasks.Keys == reg.tasks.Keys
    ensures forall k :: k in reg.tasks && k != t.id ==> o.registry.tasks[k] == reg.tasks[k]
    ensures o.copied == copied
    ensures host ==>
      && !o.escaped
      && o.registry.tasks[t.id] == t.(status := Some(UploadFailed))
      && |o.reports| == 1 && o.reports[0].code == 1
      && Settles(o.reports[0], o.registry.tasks[t.id])
    ensures !host ==> o.escaped && o.reports == [] && o.registry.tasks[t.id] == t
  {
    if host then SyncOutcome(Put(reg, t.(status := Some(UploadFailed))), [ReportOf(t, 1)], copied, false)
    else SyncOutcome(Put(reg, t), [], copied, true)
  }

  /** The final decision (tasks.py:79-84). With a match: mark UPLOADED, then
      report 0; a raising report sends control to the handler, whose own report
      raises again. Without one: report 1, then mark UPLOAD_FAILED, which is
      what the handler does too. */
  function Decide(reg: Registry, t: Task, matched: bool, host: bool, copied: seq<string>): (o: SyncOutcome)
    requires t.id in reg.tasks
    ensures o.registry.order == reg.order && o.registry.tasks.Keys == reg.tasks.Keys
    ensures forall k :: k in reg.tasks && k != t.id ==> o.registry.tasks[k] == reg.tasks[k]
    ensures o.copied == copied
    ensures o.registry.tasks[t.id].models == t.models && o.registry.tasks[t.id].sampleImages == t.sampleImages
    ensures o.escaped <==> !host
    ensures |o.reports| == 1 <==> host
    ensures |o.reports| <= 1
    ensures matched ==> o.registry.tasks[t.id].status == Some(Uploaded)
    ensures !matched && host ==> o.registry.tasks[t.id].status == Some(UploadFailed)
    ensures !matched && !host ==> o.registry.tasks[t.id] == t
    ensures host ==> o.reports[0].code == (if matched then 0 else 1) && Settles(o.reports[0], o.registry.tasks[t.id])
  {
    if matched then
      var done := t.(status := Some(Uploaded));
      if host then SyncOutcome(Put(reg, done), [ReportOf(done, 0)], copied, false)
      else SyncOutcome(Put(reg, done), [], copied, true)
    else Handler(reg, t, host, copied)
  }

  /** The task reached the point where a result is reported: it is registered,
      has a `dabi_env` (otherwise the handler itself fails on the unbound
      `env`), and its environment has a callback host. */
  predicate Reports(reg: Registry, id: Value, w: World) {
    id in reg.tasks && "dabi_env" in reg.tasks[id].config && w.dabiHost(reg.tasks[id].config["dabi_env"])
  }

  /** `t2` is `t1` with records appended and nothing else changed except the
      status. */
  predicate Extends(t1: Task, t2: Task) {
    && t2.id == t1.id && t2.config == t1.config
    && IsPrefix(t1.models, t2.models)
    && IsPrefix(t1.sampleImages, t2.sampleImages)
  }

  /** A sent report agrees with the task it settles: code 0 with
      UPLOADED, code 1 with UPLOAD_FAILED, and the task's final records. */
  predicate Settles(rep: Report, t: Task) {
    && rep.taskId == t.id && rep.models == t.models && rep.sampleImages == t.sampleImages
    && ((rep.code == 0 && t.status == Some(Uploaded)) || (rep.code == 1 && t.status == Some(UploadFailed)))
  }

  /** upload_model_to_oss for one task id. The output directory is listed
      before any upload and the `sample` directory after the model loop; a
      listing that raises goes to the handler like any other exception. */
  function SyncWith(v: Variant, reg: Registry, id: Value, w: World): (o: SyncOutcome)
    ensures o.registry.order == reg.order && o.registry.tasks.Keys == reg.tasks.Keys
    ensures forall k :: k in reg.tasks && k != id ==> o.registry.tasks[k] == reg.tasks[k]
    ensures id in reg.tasks ==> Extends(reg.tasks[id], o.registry.tasks[id])
    ensures |o.reports| <= 1
    ensures |o.reports| == 1 <==> Reports(reg, id, w)
    ensures o.escaped <==> !Reports(reg, id, w)
    ensures |o.reports| == 1 ==> Settles(o.reports[0], o.registry.tasks[id])
  {
    if id !in reg.tasks || "dabi_env" !in reg.tasks[id].config then SyncOutcome(reg, [], [], true)
    else
      var t := reg.tasks[id];
      var env := t.config["dabi_env"];
      var host := w.dabiHost(env);
      match ReadSettings(t.config)
      case None => Handler(reg, t, host, [])
      case Some(s) =>
        if w.modelListing.Unlistable? then Handler(reg, t, host, [])
        else
        var mp := Walk(ModelQueue(w, s), 0, w.modelCheck, ModelUpload(v, w), w.copyFails, true, t.status);
        var t1 := t.(models := t.models + mp.added, status := mp.status);
        if mp.raised then Handler(reg, t1, host, mp.copied)
        else if w.sampleListing.Unlistable? then Handler(reg, t1, host, mp.copied)
        else
          var sp := Walk(SampleQueue(w, s), 0, w.sampleCheck, SampleUpload(v, w, env), w.copyFails, false, t1.status);
          var t2 := t1.(sampleImages := t1.sampleImages + sp.added, status := sp.status);
          if sp.raised then Handler(reg, t2, host, mp.copied)
          else Decide(reg, t2, ModelsMatch(w, s) || SamplesMatch(w, s), host, mp.copied)
  }

  /** With readable settings and listings, the body ends in its handler when
      a loop raises and in the final decision otherwise. */
  lemma SyncUnfolds(v: Variant, reg: Registry, id: Value, w: World, s: Settings)
    requires id in reg.tasks && "dabi_env" in reg.tasks[id].config
    requires ReadSettings(reg.tasks[id].config) == Some(s)
    requires Listable(w)
    ensures var t := reg.tasks[id];
            var env := t.config["dabi_env"];
            var mp := Walk(ModelQueue(w, s), 0, w.modelCheck, ModelUpload(v, w), w.copyFails, true, t.status);
            var sp := Walk(SampleQueue(w, s), 0, w.sampleCheck, SampleUpload(v, w, env), w.copyFails, false, mp.status);
            var t2 := t.(models := t.models + mp.added, sampleImages := t.sampleImages + sp.added, status := sp.status);
            && (mp.raised ==>
                  SyncWith(v, reg, id, w) == Handler(reg, t.(models := t.models + mp.added, status := mp.status), w.dabiHost(env), mp.copied))
            && (!mp.raised && sp.raised ==> SyncWith(v, reg, id, w) == Handler(reg, t2, w.dabiHost(env), mp.copied))
            && (!mp.raised && !sp.raised ==>
                  SyncWith(v, reg, id, w) == Decide(reg, t2, ModelsMatch(w, s) || SamplesMatch(w, s), w.dabiHost(env), mp.copied))
  {
    var t := reg.tasks[id];
    var mp := Walk(ModelQueue(w, s), 0, w.modelCheck, ModelUpload(v, w), w.copyFails, true, t.status);
    var t1 := t.(models := t.models + mp.added, status := mp.status);
    var sp := Walk(SampleQueue(w, s), 0, w.sampleCheck, SampleUpload(v, w, t.config["dabi_env"]), w.copyFails, false, t1.status);
    assert t1.(sampleImages := t1.sampleImages + sp.added, status := sp.status)
        == t.(models := t.models + mp.added, sampleImages := t.sampleImages + sp.added, status := sp.status);
  }

  /** The method with both upload defects corrected. The general laws hold
      for both variants; the concrete runs compare this one with the method as
      written. */
  function Sync(reg: Registry, id: Value, w: World): SyncOutcome {
    SyncWith(Corrected, reg, id, w)
  }

  /** The method as the source writes it. */
  function SyncAsWritten(reg: Registry, id: Value, w: World): SyncOutcome {
    SyncWith(AsWritten, reg, id, w)
  }
}
