/** Two concrete runs of upload_model_to_oss that separate the source as
    written from its corrected form. */
module Findings {
  import opened Wrappers
  import opened Statuses
  import opened Registry
  import opened Listing
  import opened ArtifactSync

  const TaskKey: Value := Text("t1")

  /** A finished task whose configuration asks for one epoch of `lora*.safetensors`. */
  function OneEpochTask(): Task {
    Task(TaskKey, Some(Finished),
         map["dabi_env" := Text("prod"), "max_train_epochs" := Number(1), "output_dir" := Text("output"),
             "output_name" := Text("lora"), "save_model_as" := Text(".safetensors")],
         [], [])
  }

  function OneTaskRegistry(): (r: Registry)
    ensures r.tasks == map[TaskKey := OneEpochTask()]
  {
    Rep([TaskKey], map[TaskKey := OneEpochTask()])
  }

  const OneSettings := Settings(Number(1), "output", "lora", ".safetensors")

  /** One model file, no sample directory, storage that stores it at a fixed path, and a
      status that stays FINISHED. */
  function ModelWorld(): World {
    World(Entries([DirEntry("lora-000001.safetensors", true)]), Missing,
          (i: nat) => Some(Finished), (i: nat) => Some(Finished),
          (f: string) => Stored("lora/20261010/lora-000001.safetensors"),
          (f: string) => NoPathReply,
          (f: string) => false,
          (env: Value) => true)
  }

  /** An output directory holding only its `sample` sub-directory, one sample
      image there, and an endpoint request that fails. */
  function SampleWorld(): World {
    World(Entries([DirEntry("sample", false)]), Entries([DirEntry("lora-000001.png", true)]),
          (i: nat) => Some(Finished), (i: nat) => Some(Finished),
          (f: string) => NoPath,
          (f: string) => RequestFailed,
          (f: string) => false,
          (env: Value) => true)
  }

  lemma ModelQueueOfModelWorld()
    ensures Realizable(ModelWorld())
    ensures ModelsMatch(ModelWorld(), OneSettings)
    ensures ModelQueue(ModelWorld(), OneSettings) == ["lora-000001.safetensors"]
  {
    var name := "lora-000001.safetensors";
    assert name[..4] == "lora";
    assert name[|name| - 12..] == ".safetensors";
    assert Accepts(ModelFilter("lora", ".safetensors"), DirEntry(name, true));
    assert Select([DirEntry(name, true)], ModelFilter("lora", ".safetensors")) == [name];
  }

  lemma SampleQueueOfSampleWorld()
    ensures Realizable(SampleWorld())
    ensures SamplesMatch(SampleWorld(), OneSettings)
    ensures SampleQueue(SampleWorld(), OneSettings) == ["lora-000001.png"]
    ensures !ModelsMatch(SampleWorld(), OneSettings)
    ensures ModelQueue(SampleWorld(), OneSettings) == []
  {
    assert !Accepts(ModelFilter("lora", ".safetensors"), DirEntry("sample", false));
    assert Select([DirEntry("sample", false)], ModelFilter("lora", ".safetensors")) == [];
    var name := "lora-000001.png";
    assert name[..4] == "lora";
    assert Accepts(SampleFilter("lora"), DirEntry(name, true));
    assert Select([DirEntry(name, true)], SampleFilter("lora")) == [name];
  }

  /** The registered task, its settings and its environment. */
  lemma OneTaskSettings()
    ensures OneTaskRegistry().tasks[TaskKey] == OneEpochTask()
    ensures "dabi_env" in OneEpochTask().config && OneEpochTask().config["dabi_env"] == Text("prod")
    ensures ReadSettings(OneEpochTask().config) == Some(OneSettings)
  {
  }

  /** As written, a complete, matching set of model files ends in
      UPLOAD_FAILED with code 1 and no model record. */
  lemma ModelUploadAsWrittenFails()
    ensures var o := SyncAsWritten(OneTaskRegistry(), TaskKey, ModelWorld());
            && o.reports == [Report(1, TaskKey, [], [])]
            && o.registry.tasks[TaskKey].status == Some(UploadFailed)
  {
    var w := ModelWorld();
    var t := OneEpochTask();
    OneTaskSettings();
    ModelPassAsWritten();
    SyncUnfolds(AsWritten, OneTaskRegistry(), TaskKey, w, OneSettings);
    assert t.(models := t.models + [], status := Some(Finished)) == t;
    assert SyncAsWritten(OneTaskRegistry(), TaskKey, w) == Handler(OneTaskRegistry(), t, true, []);
  }

  /** As written, the model pass of ModelWorld raises before recording anything. */
  lemma ModelPassAsWritten()
    ensures var w := ModelWorld();
            Walk(ModelQueue(w, OneSettings), 0, w.modelCheck, ModelUpload(AsWritten, w), w.copyFails, true, Some(Finished))
            == Pass([], [], Some(Finished), true)
  {
    var w := ModelWorld();
    ModelQueueOfModelWorld();
    assert ModelUpload(AsWritten, w)("lora-000001.safetensors") == Raises;
  }

  /** Corrected, the same run ends in UPLOADED with code 0 and one record. */
  lemma ModelUploadCorrectedSucceeds()
    ensures var o := Sync(OneTaskRegistry(), TaskKey, ModelWorld());
            var rec := Record("lora-000001.safetensors", Some("lora/20261010/lora-000001.safetensors"));
            && o.reports == [Report(0, TaskKey, [rec], [])]
            && o.registry.tasks[TaskKey].status == Some(Uploaded)
  {
    var rec := Record("lora-000001.safetensors", Some("lora/20261010/lora-000001.safetensors"));
    ModelWorldDecides();
    var o := Decide(OneTaskRegistry(), OneEpochTask().(models := [rec]), true, true, ["lora-000001.safetensors"]);
    assert o.reports[0] == Report(0, TaskKey, [rec], []);
  }

  /** Corrected, the model pass of ModelWorld records its file with the stored
      path and copies it. */
  lemma ModelPassCorrected()
    ensures var w := ModelWorld();
            var rec := Record("lora-000001.safetensors", Some("lora/20261010/lora-000001.safetensors"));
            Walk(ModelQueue(w, OneSettings), 0, w.modelCheck, ModelUpload(Corrected, w), w.copyFails, true, Some(Finished))
            == Pass([rec], ["lora-000001.safetensors"], Some(Finished), false)
  {
    var w := ModelWorld();
    var name := "lora-000001.safetensors";
    ModelQueueOfModelWorld();
    assert Walk([name][1..], 1, w.modelCheck, ModelUpload(Corrected, w), w.copyFails, true, Some(Finished))
        == Pass([], [], Some(Finished), false);
  }

  /** Corrected, ModelWorld records its model file, finds no sample, and
      reaches the final decision with a match. */
  lemma ModelWorldDecides()
    ensures var rec := Record("lora-000001.safetensors", Some("lora/20261010/lora-000001.safetensors"));
            Sync(OneTaskRegistry(), TaskKey, ModelWorld())
            == Decide(OneTaskRegistry(), OneEpochTask().(models := [rec]), true, true, ["lora-000001.safetensors"])
  {
    var w := ModelWorld();
    var t := OneEpochTask();
    var rec := Record("lora-000001.safetensors", Some("lora/20261010/lora-000001.safetensors"));
    OneTaskSettings();
    ModelPassCorrected();
    assert SampleQueue(w, OneSettings) == [];
    SyncUnfolds(Corrected, OneTaskRegistry(), TaskKey, w, OneSettings);
    assert t.(models := t.models + [rec], sampleImages := t.sampleImages + [], status := Some(Finished))
        == t.(models := [rec]);
  }

  /** As written, the failing request of SampleWorld stops the sample pass. */
  lemma SamplePassAsWritten()
    ensures var w := SampleWorld();
            Walk(SampleQueue(w, OneSettings), 0, w.sampleCheck, SampleUpload(AsWritten, w, Text("prod")),
                 w.copyFails, false, Some(Finished))
            == Pass([], [], Some(Finished), true)
  {
    var w := SampleWorld();
    SampleQueueOfSampleWorld();
    assert SampleUpload(AsWritten, w, Text("prod"))("lora-000001.png") == Raises;
  }

  /** As written, a sample image whose request fails ends the call in
      UPLOAD_FAILED with code 1. */
  lemma SampleUploadAsWrittenFails()
    ensures Realizable(SampleWorld())
    ensures var o := SyncAsWritten(OneTaskRegistry(), TaskKey, SampleWorld());
            && o.reports == [Report(1, TaskKey, [], [])]
            && o.registry.tasks[TaskKey].status == Some(UploadFailed)
  {
    var w := SampleWorld();
    var t := OneEpochTask();
    OneTaskSettings();
    SampleQueueOfSampleWorld();
    assert Walk([], 0, w.modelCheck, ModelUpload(AsWritten, w), w.copyFails, true, Some(Finished))
        == Pass([], [], Some(Finished), false);
    SamplePassAsWritten();
    SyncUnfolds(AsWritten, OneTaskRegistry(), TaskKey, w, OneSettings);
    assert t.(models := t.models + [], sampleImages := t.sampleImages + [], status := Some(Finished)) == t;
    assert SyncAsWritten(OneTaskRegistry(), TaskKey, w) == Handler(OneTaskRegistry(), t, true, []);
  }

  /** Corrected, the image is recorded without a path and the call ends in
      UPLOADED with code 0. */
  lemma SampleUploadCorrectedSucceeds()
    ensures Realizable(SampleWorld())
    ensures var o := Sync(OneTaskRegistry(), TaskKey, SampleWorld());
            && o.reports == [Report(0, TaskKey, [], [Record("lora-000001.png", None)])]
            && o.registry.tasks[TaskKey].status == Some(Uploaded)
  {
    var rec := Record("lora-000001.png", None);
    SampleQueueOfSampleWorld();
    SampleWorldDecides();
    var o := Decide(OneTaskRegistry(), OneEpochTask().(sampleImages := [rec]), true, true, []);
    assert o.reports[0] == Report(0, TaskKey, [], [rec]);
  }

  /** Corrected, SampleWorld finds no model file, records its sample image,
      and reaches the final decision with a match. */
  lemma SampleWorldDecides()
    ensures Sync(OneTaskRegistry(), TaskKey, SampleWorld())
            == Decide(OneTaskRegistry(), OneEpochTask().(sampleImages := [Record("lora-000001.png", None)]), true, true, [])
  {
    var w := SampleWorld();
    var t := OneEpochTask();
    var rec := Record("lora-000001.png", None);
    OneTaskSettings();
    SampleQueueOfSampleWorld();
    assert Walk([], 0, w.modelCheck, ModelUpload(Corrected, w), w.copyFails, true, Some(Finished))
        == Pass([], [], Some(Finished), false);
    SamplePassCorrected();
    SyncUnfolds(Corrected, OneTaskRegistry(), TaskKey, w, OneSettings);
    assert t.(models := t.models + [], sampleImages := t.sampleImages + [rec], status := Some(Finished))
        == t.(sampleImages := [rec]);
  }

  /** Corrected, the sample pass of SampleWorld records the image without a path. */
  lemma SamplePassCorrected()
    ensures var w := SampleWorld();
            Walk(SampleQueue(w, OneSettings), 0, w.sampleCheck, SampleUpload(Corrected, w, Text("prod")),
                 w.copyFails, false, Some(Finished))
            == Pass([Record("lora-000001.png", None)], [], Some(Finished), false)
  {
    var w := SampleWorld();
    var env := Text("prod");
    var name := "lora-000001.png";
    SampleQueueOfSampleWorld();
    assert SampleUpload(Corrected, w, env)(name) == NoPath;
    assert Walk([name][1..], 1, w.sampleCheck, SampleUpload(Corrected, w, env), w.copyFails, false, Some(Finished))
        == Pass([], [], Some(Finished), false);
  }

  /** Corrected, a failed sample request never stops the loop: it is recorded
      with no path, like the endpoint's other failures. */
  lemma CorrectedSampleUploadNeverRaisesWithHost(w: World, env: Value, name: string)
    requires w.dabiHost(env)
    ensures !SampleUpload(Corrected, w, env)(name).Raises?
    ensures w.sampleEndpoint(name).RequestFailed? ==>
      SampleUpload(Corrected, w, env)(name) == NoPath && SampleUpload(AsWritten, w, env)(name) == Raises
  {
  }
}
