/** The registry-facing parts of the route handlers in dabi/api.py:
    registering a task in `/run`, `/tasks/terminate/{task_id}` and
    `/task/status/{task_id}`. Path parameters are strings, so those
    routes look the task up under a text key. */
module Routes {
  import opened Wrappers
  import opened Statuses
  import opened Registry

  /** The CPU thread count suggested to the trainer: 8 for a training set of
      more than 200 images, 2 otherwise. */
  function SuggestedCpuThreads(imageCount: nat): (n: nat)
    ensures n == 2 || n == 8
    ensures n == 8 <==> imageCount > 200
  {
    if imageCount > 200 then 8 else 2
  }

  /** How `/run` ends as far as this model follows it: a failure response, an
      exception, or hand-over to the trainer with a thread suggestion. */
  datatype RunReply = Rejected(message: string) | RunRaised | Proceeds(cpuThreads: nat)

  datatype Admission = Admission(registry: Registry, reply: RunReply)

  /** `after` is `before` with a fresh task under `id`, replacing any earlier
      task with that id in place; every other entry is unchanged. */
  predicate Installs(before: Registry, after: Registry, id: Value) {
    && id in after.tasks
    && after.tasks[id].status.None?
    && after.tasks[id].models == [] && after.tasks[id].sampleImages == []
    && after.tasks.Keys == before.tasks.Keys + {id}
    && (id in before.tasks ==> after.order == before.order)
    && (id !in before.tasks ==> after.order == before.order + [id])
    && (forall k :: k in before.tasks && k != id ==> after.tasks[k] == before.tasks[k])
  }

  /** The keys `/run` removes from the request body with `pop` after the body
      became the task's configuration (the dictionary is shared). */
  predicate Popped(key: string, trainDirGiven: bool) {
    key == "gpu_ids" || (trainDirGiven && key == "model_train_type")
  }

  /** create_toml_file, lines 30-43 of dabi/api.py: the registry effects and
      the thread suggestion. `imageCount` is the number of images the trainer
      finds in `train_data_dir`. */
  function Run(reg: Registry, body: Config, imageCount: nat): (a: Admission)
    ensures "dabi_task_id" !in body ==> a == Admission(reg, Rejected("dabi_task_id is required"))
    ensures "dabi_task_id" in body ==> Installs(reg, a.registry, body["dabi_task_id"])
    ensures "dabi_task_id" in body && "dabi_env" !in body ==>
      && a.reply == Rejected("dabi_env is required")
      && a.registry.tasks[body["dabi_task_id"]].config == map[]
    ensures "dabi_task_id" in body && "dabi_env" in body ==>
      var c := a.registry.tasks[body["dabi_task_id"]].config;
      && c.Keys <= body.Keys
      && (forall key :: key in body && !Popped(key, "train_data_dir" in body) ==> key in c && c[key] == body[key])
      && (forall key :: key in c ==> !Popped(key, "train_data_dir" in body))
    ensures a.reply.Proceeds? <==> "dabi_task_id" in body && "dabi_env" in body && "train_data_dir" in body
    ensures a.reply.Proceeds? ==> a.reply.cpuThreads == SuggestedCpuThreads(imageCount)
    ensures a.reply.RunRaised? <==> "dabi_task_id" in body && "dabi_env" in body && "train_data_dir" !in body
  {
    if "dabi_task_id" !in body then Admission(reg, Rejected("dabi_task_id is required"))
    else
      var id := body["dabi_task_id"];
      var blank := FreshTask(id);
      if "dabi_env" !in body then Admission(Put(reg, blank), Rejected("dabi_env is required"))
      else
        var withoutGpus := body - {"gpu_ids"};
        if "train_data_dir" !in withoutGpus then
          Admission(Put(reg, blank.(config := withoutGpus)), RunRaised)
        else
          var config := withoutGpus - {"model_train_type"};
          Admission(Put(reg, blank.(config := config)), Proceeds(SuggestedCpuThreads(imageCount)))
  }

  /** Right after `/run` registers a task, before the trainer assigns it a
      status, both the status query and `dump` raise on it. */
  lemma RegisteredTaskHasNoStatus(reg: Registry, body: Config, imageCount: nat, id: string)
    requires "dabi_task_id" in body && body["dabi_task_id"] == Text(id)
    ensures var after := Run(reg, body, imageCount).registry;
            QueryStatus(after, id).QueryRaised? && Dump(after).Raised?
  {
  }

  datatype Termination = Termination(registry: Registry, escaped: bool)

  /** terminate_task: the trainer's stop request (`stopRaises` says whether it
      raised) and then, in the `finally` block, TERMINATED for the task. The
      block first compares the current status, so a task whose status was
      never set raises AttributeError there and keeps no status. */
  function Terminate(reg: Registry, id: string, stopRaises: bool): (r: Termination)
    ensures r.registry.order == reg.order && r.registry.tasks.Keys == reg.tasks.Keys
    ensures forall k :: k in reg.tasks && k != Text(id) ==> r.registry.tasks[k] == reg.tasks[k]
    ensures Text(id) in reg.tasks && reg.tasks[Text(id)].status.Some? ==>
      r.registry.tasks[Text(id)] == reg.tasks[Text(id)].(status := Some(Terminated))
    ensures Text(id) !in reg.tasks || reg.tasks[Text(id)].status.None? ==> r.registry == reg
    ensures r.escaped <==> stopRaises || (Text(id) in reg.tasks && reg.tasks[Text(id)].status.None?)
  {
    var key := Text(id);
    if key !in reg.tasks then Termination(reg, stopRaises)
    else match reg.tasks[key].status
      case None => Termination(reg, true)
      case Some(s) =>
        var after := if s == Terminated then reg else SetStatus(reg, key, Terminated);
        Termination(after, stopRaises)
  }

  /** The response of `/task/status/{task_id}`. */
  datatype StatusReply =
    | NotFound(message: string)
    | Found(statusName: string, statusValue: StatusValue, models: seq<Record>, sampleImages: seq<Record>)
    | QueryRaised

  /** task_status: "Task not found" exactly for an absent id; otherwise the
      task's status name and value and its records. */
  function QueryStatus(reg: Registry, id: string): (r: StatusReply)
    ensures r.NotFound? <==> Text(id) !in reg.tasks
    ensures r.NotFound? ==> r.message == "Task not found"
    ensures r.QueryRaised? <==> Text(id) in reg.tasks && reg.tasks[Text(id)].status.None?
    ensures r.Found? ==>
      var t := reg.tasks[Text(id)];
      && Describes(Summary(Text(id), r.statusName, r.statusValue), t)
      && r.models == t.models && r.sampleImages == t.sampleImages
  {
    var key := Text(id);
    if key !in reg.tasks then NotFound("Task not found")
    else
      var t := reg.tasks[key];
      match t.status
      case None => QueryRaised
      case Some(s) => Found(Name(s), ValueOf(s), t.models, t.sampleImages)
  }

  /** A status query after a termination of a task with a status reports
      TERMINATED, even when the stop request raised. */
  lemma TerminatedIsQueryable(reg: Registry, id: string, stopRaises: bool)
    requires Text(id) in reg.tasks && reg.tasks[Text(id)].status.Some?
    ensures var q := QueryStatus(Terminate(reg, id, stopRaises).registry, id);
            q.Found? && q.statusName == "TERMINATED" && q.statusValue == TrainerCode(Terminated)
  {
  }
}
