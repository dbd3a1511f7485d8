/** Properties of upload_model_to_oss (dabi/util/tasks.py:26-88) as modelled
    by ArtifactSync: which files are uploaded and recorded, the inclusive-or
    rule for the final status, and the effect of the two upload defects. */
module SyncLaws {
  import opened Wrappers
  import opened Statuses
  import opened Registry
  import opened Listing
  import opened ArtifactSync

  /** The check at position `j` read FINISHED. */
  predicate ReadsFinished(check: nat -> Option<Status>, j: nat) {
    check(j) == Some(Finished)
  }

  /** A file is approved only at a position of its own whose check read
      FINISHED. */
  lemma {:induction false} ApprovedNeedsFinished(files: seq<string>, k: nat, check: nat -> Option<Status>)
    ensures forall x :: x in Approved(files, k, check) ==>
      exists j :: 0 <= j < |files| && files[j] == x && ReadsFinished(check, k + j)
    decreases |files|
  {
    if |files| > 0 {
      var tail := files[1..];
      ApprovedNeedsFinished(tail, k + 1, check);
      forall x | x in Approved(files, k, check)
        ensures exists j :: 0 <= j < |files| && files[j] == x && ReadsFinished(check, k + j)
      {
        if x in Approved(tail, k + 1, check) {
          var j :| 0 <= j < |tail| && tail[j] == x && ReadsFinished(check, k + 1 + j);
          assert files[j + 1] == x && k + (j + 1) == k + 1 + j;
        } else {
          assert files[0] == x && ReadsFinished(check, k + 0);
        }
      }
    }
  }

  /** When the body runs to the final decision without an exception, every
      file whose check read FINISHED is uploaded and recorded, in ascending
      name order after the records that were already there; the status is
      UPLOADED when the model count or the sample count matched the epoch
      count, and the single report carries code 0 exactly then. */
  lemma SyncCompletes(v: Variant, reg: Registry, id: Value, w: World, s: Settings)
    requires id in reg.tasks && "dabi_env" in reg.tasks[id].config
    requires ReadSettings(reg.tasks[id].config) == Some(s)
    requires Listable(w)
    requires !Stops(ModelQueue(w, s), 0, w.modelCheck, ModelUpload(v, w))
    requires !Stops(SampleQueue(w, s), 0, w.sampleCheck, SampleUpload(v, w, reg.tasks[id].config["dabi_env"]))
    ensures var t := reg.tasks[id];
            var o := SyncWith(v, reg, id, w);
            var t' := o.registry.tasks[id];
            var ms := Approved(ModelQueue(w, s), 0, w.modelCheck);
            var ss := Approved(SampleQueue(w, s), 0, w.sampleCheck);
            && |t'.models| == |t.models| + |ms|
            && (forall i :: 0 <= i < |ms| ==> t'.models[|t.models| + i].name == ms[i])
            && |t'.sampleImages| == |t.sampleImages| + |ss|
            && (forall i :: 0 <= i < |ss| ==> t'.sampleImages[|t.sampleImages| + i].name == ss[i])
            && Sorted(ms) && Sorted(ss)
            && (ModelsMatch(w, s) || SamplesMatch(w, s) ==> t'.status == Some(Uploaded))
            && (Reports(reg, id, w) ==>
                  && o.reports[0].code == (if ModelsMatch(w, s) || SamplesMatch(w, s) then 0 else 1)
                  && t'.status == Some(if ModelsMatch(w, s) || SamplesMatch(w, s) then Uploaded else UploadFailed))
  {
    var t := reg.tasks[id];
    var env := t.config["dabi_env"];
    var mp := Walk(ModelQueue(w, s), 0, w.modelCheck, ModelUpload(v, w), w.copyFails, true, t.status);
    WalkRaisesIff(ModelQueue(w, s), 0, w.modelCheck, ModelUpload(v, w), w.copyFails, true, t.status);
    var t1 := t.(models := t.models + mp.added, status := mp.status);
    var sp := Walk(SampleQueue(w, s), 0, w.sampleCheck, SampleUpload(v, w, env), w.copyFails, false, t1.status);
    WalkRaisesIff(SampleQueue(w, s), 0, w.sampleCheck, SampleUpload(v, w, env), w.copyFails, false, t1.status);
    ApprovedSorted(ModelQueue(w, s), 0, w.modelCheck);
    ApprovedSorted(SampleQueue(w, s), 0, w.sampleCheck);
  }

  /** When the model loop stops early (a status check raises or an upload
      raises), no sample image is uploaded, the model records gained are the
      leading approved files, and a sent report says code 1 with
      UPLOAD_FAILED, whatever the counts were. */
  lemma SyncStopsInModels(v: Variant, reg: Registry, id: Value, w: World, s: Settings)
    requires id in reg.tasks && "dabi_env" in reg.tasks[id].config
    requires ReadSettings(reg.tasks[id].config) == Some(s)
    requires Stops(ModelQueue(w, s), 0, w.modelCheck, ModelUpload(v, w))
    ensures var t := reg.tasks[id];
            var o := SyncWith(v, reg, id, w);
            var t' := o.registry.tasks[id];
            var ms := Approved(ModelQueue(w, s), 0, w.modelCheck);
            var kept := Approved(ModelQueue(w, s)[..FirstStop(ModelQueue(w, s), 0, w.modelCheck, ModelUpload(v, w))], 0, w.modelCheck);
            && t'.sampleImages == t.sampleImages
            && |t'.models| == |t.models| + |kept| <= |t.models| + |ms|
            && (forall i :: |t.models| <= i < |t'.models| ==> t'.models[i].name == ms[i - |t.models|])
            && (Reports(reg, id, w) ==> o.reports[0].code == 1 && t'.status == Some(UploadFailed))
  {
    var t := reg.tasks[id];
    assert ModelQueue(w, s) != [] && w.modelListing.Entries?;
    WalkRaisesIff(ModelQueue(w, s), 0, w.modelCheck, ModelUpload(v, w), w.copyFails, true, t.status);
    var mp := Walk(ModelQueue(w, s), 0, w.modelCheck, ModelUpload(v, w), w.copyFails, true, t.status);
    var t1 := t.(models := t.models + mp.added, status := mp.status);
    assert SyncWith(v, reg, id, w) == Handler(reg, t1, w.dabiHost(t.config["dabi_env"]), mp.copied);
  }

  /** When the sample loop stops early, every approved model file is
      recorded, the sample records gained are the leading approved images, and
      a sent report says code 1 with UPLOAD_FAILED. */
  lemma SyncStopsInSamples(v: Variant, reg: Registry, id: Value, w: World, s: Settings)
    requires id in reg.tasks && "dabi_env" in reg.tasks[id].config
    requires ReadSettings(reg.tasks[id].config) == Some(s)
    requires !w.modelListing.Unlistable?
    requires !Stops(ModelQueue(w, s), 0, w.modelCheck, ModelUpload(v, w))
    requires Stops(SampleQueue(w, s), 0, w.sampleCheck, SampleUpload(v, w, reg.tasks[id].config["dabi_env"]))
    ensures var t := reg.tasks[id];
            var o := SyncWith(v, reg, id, w);
            var t' := o.registry.tasks[id];
            var upload := SampleUpload(v, w, reg.tasks[id].config["dabi_env"]);
            var ms := Approved(ModelQueue(w, s), 0, w.modelCheck);
            var ss := Approved(SampleQueue(w, s), 0, w.sampleCheck);
            var kept := Approved(SampleQueue(w, s)[..FirstStop(SampleQueue(w, s), 0, w.sampleCheck, upload)], 0, w.sampleCheck);
            && |t'.models| == |t.models| + |ms|
            && (forall i :: 0 <= i < |ms| ==> t'.models[|t.models| + i].name == ms[i])
            && |t'.sampleImages| == |t.sampleImages| + |kept| <= |t.sampleImages| + |ss|
            && (forall i :: |t.sampleImages| <= i < |t'.sampleImages| ==>
                  t'.sampleImages[i].name == ss[i - |t.sampleImages|])
            && (Reports(reg, id, w) ==> o.reports[0].code == 1 && t'.status == Some(UploadFailed))
  {
    var t := reg.tasks[id];
    var env := t.config["dabi_env"];
    var mp := Walk(ModelQueue(w, s), 0, w.modelCheck, ModelUpload(v, w), w.copyFails, true, t.status);
    var sp := Walk(SampleQueue(w, s), 0, w.sampleCheck, SampleUpload(v, w, env), w.copyFails, false, mp.status);
    SamplesStopHandled(v, reg, id, w, s);
  }

  /** When the sample loop stops early, the body ends in its handler with both
      loops' records. */
  lemma SamplesStopHandled(v: Variant, reg: Registry, id: Value, w: World, s: Settings)
    requires id in reg.tasks && "dabi_env" in reg.tasks[id].config
    requires ReadSettings(reg.tasks[id].config) == Some(s)
    requires !w.modelListing.Unlistable?
    requires !Stops(ModelQueue(w, s), 0, w.modelCheck, ModelUpload(v, w))
    requires Stops(SampleQueue(w, s), 0, w.sampleCheck, SampleUpload(v, w, reg.tasks[id].config["dabi_env"]))
    ensures var t := reg.tasks[id];
            var env := t.config["dabi_env"];
            var mp := Walk(ModelQueue(w, s), 0, w.modelCheck, ModelUpload(v, w), w.copyFails, true, t.status);
            var sp := Walk(SampleQueue(w, s), 0, w.sampleCheck, SampleUpload(v, w, env), w.copyFails, false, mp.status);
            && !mp.raised && sp.raised
            && SyncWith(v, reg, id, w)
               == Handler(reg, t.(models := t.models + mp.added, sampleImages := t.sampleImages + sp.added, status := sp.status),
                          w.dabiHost(env), mp.copied)
  {
    var t := reg.tasks[id];
    var env := t.config["dabi_env"];
    var mp := Walk(ModelQueue(w, s), 0, w.modelCheck, ModelUpload(v, w), w.copyFails, true, t.status);
    WalkRaisesIff(ModelQueue(w, s), 0, w.modelCheck, ModelUpload(v, w), w.copyFails, true, t.status);
    WalkRaisesIff(SampleQueue(w, s), 0, w.sampleCheck, SampleUpload(v, w, env), w.copyFails, false, mp.status);
    var t1 := t.(models := t.models + mp.added, status := mp.status);
    var sp := Walk(SampleQueue(w, s), 0, w.sampleCheck, SampleUpload(v, w, env), w.copyFails, false, t1.status);
    assert SampleQueue(w, s) != [] && w.sampleListing.Entries?;
    var t2 := t1.(sampleImages := t1.sampleImages + sp.added, status := sp.status);
    assert t2 == t.(models := t.models + mp.added, sampleImages := t.sampleImages + sp.added, status := sp.status);
    assert SyncWith(v, reg, id, w) == Handler(reg, t2, w.dabiHost(env), mp.copied);
  }

  /** A listing that raises (the path is a regular file, or cannot be read)
      ends the body in its handler, whatever the counts. A raising output
      listing comes before any upload, so no record is added; a raising
      `sample` listing comes after the model loop, whose records stay. */
  lemma SyncListingRaises(v: Variant, reg: Registry, id: Value, w: World, s: Settings)
    requires id in reg.tasks && "dabi_env" in reg.tasks[id].config
    requires ReadSettings(reg.tasks[id].config) == Some(s)
    requires !Listable(w)
    ensures var t := reg.tasks[id];
            var o := SyncWith(v, reg, id, w);
            var t' := o.registry.tasks[id];
            var mp := Walk(ModelQueue(w, s), 0, w.modelCheck, ModelUpload(v, w), w.copyFails, true, t.status);
            && t'.sampleImages == t.sampleImages
            && (w.modelListing.Unlistable? ==> t'.models == t.models && o.copied == [])
            && (!w.modelListing.Unlistable? ==> t'.models == t.models + mp.added && o.copied == mp.copied)
            && (Reports(reg, id, w) ==> o.reports[0].code == 1 && t'.status == Some(UploadFailed))
  {
    var t := reg.tasks[id];
    var env := t.config["dabi_env"];
    if w.modelListing.Unlistable? {
      assert SyncWith(v, reg, id, w) == Handler(reg, t, w.dabiHost(env), []);
    } else {
      var mp := Walk(ModelQueue(w, s), 0, w.modelCheck, ModelUpload(v, w), w.copyFails, true, t.status);
      var t1 := t.(models := t.models + mp.added, status := mp.status);
      assert SyncWith(v, reg, id, w) == Handler(reg, t1, w.dabiHost(env), mp.copied);
    }
  }

  /** A missing setting (KeyError) or a non-text output directory (TypeError)
      at tasks.py:30-34 sends the body to its handler before any listing or
      upload: no record is added, nothing is copied, and a sent report says
      code 1 with UPLOAD_FAILED. */
  lemma SyncSettingsRaise(v: Variant, reg: Registry, id: Value, w: World)
    requires id in reg.tasks && "dabi_env" in reg.tasks[id].config && ReadSettings(reg.tasks[id].config).None?
    ensures var o := SyncWith(v, reg, id, w);
            var t' := o.registry.tasks[id];
            && t'.models == reg.tasks[id].models && t'.sampleImages == reg.tasks[id].sampleImages
            && o.copied == []
            && (Reports(reg, id, w) ==> o.reports[0].code == 1 && t'.status == Some(UploadFailed))
  {
  }

  /** Every model copied to /mnt/train_loras is one the task records, and its
      copy did not fail. */
  lemma SyncCopiesRecordedModels(v: Variant, reg: Registry, id: Value, w: World)
    requires id in reg.tasks
    ensures var o := SyncWith(v, reg, id, w);
            forall x :: x in o.copied ==> !w.copyFails(x) && RecordsName(o.registry.tasks[id].models, x)
  {
    var t := reg.tasks[id];
    if "dabi_env" in t.config && ReadSettings(t.config).Some? {
      CopiesRecordedWithSettings(v, reg, id, w, ReadSettings(t.config).value);
    } else if "dabi_env" in t.config {
      assert SyncWith(v, reg, id, w) == Handler(reg, t, w.dabiHost(t.config["dabi_env"]), []);
    } else {
      assert SyncWith(v, reg, id, w).copied == [];
    }
  }

  /** Some record of `records` carries the name `x`. */
  predicate RecordsName(records: seq<Record>, x: string) {
    exists i :: 0 <= i < |records| && records[i].name == x
  }

  lemma CopiesRecordedWithSettings(v: Variant, reg: Registry, id: Value, w: World, s: Settings)
    requires id in reg.tasks && "dabi_env" in reg.tasks[id].config
    requires ReadSettings(reg.tasks[id].config) == Some(s)
    ensures var o := SyncWith(v, reg, id, w);
            forall x :: x in o.copied ==> !w.copyFails(x) && RecordsName(o.registry.tasks[id].models, x)
  {
    var t := reg.tasks[id];
    var mp := Walk(ModelQueue(w, s), 0, w.modelCheck, ModelUpload(v, w), w.copyFails, true, t.status);
    CopiedAreRecorded(ModelQueue(w, s), 0, w.modelCheck, ModelUpload(v, w), w.copyFails, true, t.status);
    SyncKeepsModelPass(v, reg, id, w, s);
    var o := SyncWith(v, reg, id, w);
    var models := o.registry.tasks[id].models;
    forall x | x in o.copied
      ensures !w.copyFails(x) && RecordsName(models, x)
    {
      var i :| 0 <= i < |mp.added| && mp.added[i].name == x;
      assert models[|t.models| + i].name == x;
    }
  }

  /** The copies and model records the sync leaves are those of its model
      loop. */
  lemma SyncKeepsModelPass(v: Variant, reg: Registry, id: Value, w: World, s: Settings)
    requires id in reg.tasks && "dabi_env" in reg.tasks[id].config
    requires ReadSettings(reg.tasks[id].config) == Some(s)
    ensures var t := reg.tasks[id];
            var mp := Walk(ModelQueue(w, s), 0, w.modelCheck, ModelUpload(v, w), w.copyFails, true, t.status);
            var o := SyncWith(v, reg, id, w);
            o.copied == mp.copied && o.registry.tasks[id].models == t.models + mp.added
  {
    var t := reg.tasks[id];
    var env := t.config["dabi_env"];
    var mp := Walk(ModelQueue(w, s), 0, w.modelCheck, ModelUpload(v, w), w.copyFails, true, t.status);
    var t1 := t.(models := t.models + mp.added, status := mp.status);
    if w.modelListing.Unlistable? {
      assert mp == Pass([], [], t.status, false);
      assert SyncWith(v, reg, id, w) == Handler(reg, t, w.dabiHost(env), []);
    } else if mp.raised || w.sampleListing.Unlistable? {
      assert SyncWith(v, reg, id, w) == Handler(reg, t1, w.dabiHost(env), mp.copied);
    } else {
      var sp := Walk(SampleQueue(w, s), 0, w.sampleCheck, SampleUpload(v, w, env), w.copyFails, false, t1.status);
      var t2 := t1.(sampleImages := t1.sampleImages + sp.added, status := sp.status);
      if sp.raised {
        assert SyncWith(v, reg, id, w) == Handler(reg, t2, w.dabiHost(env), mp.copied);
      } else {
        assert SyncWith(v, reg, id, w) == Decide(reg, t2, ModelsMatch(w, s) || SamplesMatch(w, s), w.dabiHost(env), mp.copied);
      }
    }
  }

  /** A list whose candidate count differs from the epoch count (or whose
      directory is missing) is never uploaded from. */
  lemma UnmatchedListIsSkipped(v: Variant, reg: Registry, id: Value, w: World, s: Settings)
    requires id in reg.tasks && "dabi_env" in reg.tasks[id].config
    requires ReadSettings(reg.tasks[id].config) == Some(s)
    ensures var t' := SyncWith(v, reg, id, w).registry.tasks[id];
            && (!ModelsMatch(w, s) ==> t'.models == reg.tasks[id].models)
            && (!SamplesMatch(w, s) ==> t'.sampleImages == reg.tasks[id].sampleImages)
  {
    assert !ModelsMatch(w, s) ==> ModelQueue(w, s) == [];
    assert !SamplesMatch(w, s) ==> SampleQueue(w, s) == [];
  }

  /** A termination that lands while the files are checked skips every
      upload, yet a matching count still ends in UPLOADED: the final status
      overwrites TERMINATED. */
  lemma UploadedOverridesTermination(v: Variant, reg: Registry, id: Value, w: World, s: Settings)
    requires id in reg.tasks && "dabi_env" in reg.tasks[id].config
    requires ReadSettings(reg.tasks[id].config) == Some(s)
    requires ModelsMatch(w, s) && !w.sampleListing.Unlistable?
    requires forall i :: w.modelCheck(i) == Some(Terminated)
    requires forall i :: w.sampleCheck(i) == Some(Terminated)
    ensures var t' := SyncWith(v, reg, id, w).registry.tasks[id];
            && t'.status == Some(Uploaded)
            && t'.models == reg.tasks[id].models
            && t'.sampleImages == reg.tasks[id].sampleImages
  {
    var env := reg.tasks[id].config["dabi_env"];
    NothingApproved(ModelQueue(w, s), 0, w.modelCheck, ModelUpload(v, w));
    NothingApproved(SampleQueue(w, s), 0, w.sampleCheck, SampleUpload(v, w, env));
    SyncCompletes(v, reg, id, w, s);
  }

  /** When no check reads FINISHED or leaves the status unset, no file is
      approved and the loop does not stop. */
  lemma {:induction false} NothingApproved(files: seq<string>, k: nat, check: nat -> Option<Status>,
                                           upload: string -> UploadOutcome)
    requires forall i :: check(i).Some? && check(i) != Some(Finished)
    ensures Approved(files, k, check) == []
    ensures !Stops(files, k, check, upload)
    decreases |files|
  {
    if |files| > 0 {
      NothingApproved(files[1..], k + 1, check, upload);
      StopsUnfold(files, k, check, upload);
    }
  }

  /** As written, no model record is ever appended: the four-argument call
      raises before the append. */
  lemma AsWrittenRecordsNoModel(reg: Registry, id: Value, w: World)
    requires id in reg.tasks
    ensures SyncAsWritten(reg, id, w).registry.tasks[id].models == reg.tasks[id].models
  {
    var t := reg.tasks[id];
    if "dabi_env" in t.config && ReadSettings(t.config).Some? && w.modelListing.Unlistable? {
      assert SyncAsWritten(reg, id, w) == Handler(reg, t, w.dabiHost(t.config["dabi_env"]), []);
    } else if "dabi_env" in t.config && ReadSettings(t.config).Some? {
      var s := ReadSettings(t.config).value;
      var mp := Walk(ModelQueue(w, s), 0, w.modelCheck, ModelUpload(AsWritten, w), w.copyFails, true, t.status);
      WalkWithFailingUploads(ModelQueue(w, s), 0, w.modelCheck, ModelUpload(AsWritten, w), w.copyFails, true, t.status);
      var t1 := t.(models := t.models + mp.added, status := mp.status);
      assert t1.models == t.models;
      var o := SyncAsWritten(reg, id, w);
      if !mp.raised && !w.sampleListing.Unlistable? {
        var env := t.config["dabi_env"];
        var sp := Walk(SampleQueue(w, s), 0, w.sampleCheck, SampleUpload(AsWritten, w, env), w.copyFails, false, t1.status);
        var t2 := t1.(sampleImages := t1.sampleImages + sp.added, status := sp.status);
        assert o.registry.tasks[id].models == t2.models;
      }
    }
  }

  /** A loop whose every upload raises appends nothing. */
  lemma {:induction false} WalkWithFailingUploads(files: seq<string>, k: nat, check: nat -> Option<Status>,
                                                  upload: string -> UploadOutcome, copyFails: string -> bool,
                                                  copies: bool, status: Option<Status>)
    requires forall f :: upload(f).Raises?
    ensures Walk(files, k, check, upload, copyFails, copies, status).added == []
    decreases |files|
  {
    if |files| > 0 {
      WalkWithFailingUploads(files[1..], k + 1, check, upload, copyFails, copies, check(k));
    }
  }

  /** As written, once some model file is approved for upload the call ends
      in UPLOAD_FAILED with code 1, whatever the counts and the storage do. */
  lemma AsWrittenFailsOnApprovedModel(reg: Registry, id: Value, w: World, s: Settings)
    requires Reports(reg, id, w)
    requires ReadSettings(reg.tasks[id].config) == Some(s)
    requires Approved(ModelQueue(w, s), 0, w.modelCheck) != []
    ensures var o := SyncAsWritten(reg, id, w);
            o.reports[0].code == 1 && o.registry.tasks[id].status == Some(UploadFailed)
  {
    var files := ModelQueue(w, s);
    ApprovedNeedsFinished(files, 0, w.modelCheck);
    assert Approved(files, 0, w.modelCheck)[0] in Approved(files, 0, w.modelCheck);
    var j :| 0 <= j < |files| && files[j] == Approved(files, 0, w.modelCheck)[0] && ReadsFinished(w.modelCheck, 0 + j);
    assert StopsAt(files[j], w.modelCheck(0 + j), ModelUpload(AsWritten, w));
    SyncStopsInModels(AsWritten, reg, id, w, s);
  }
}
