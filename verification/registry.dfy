/** The task registry of dabi/util/tasks.py: DabiTaskManager's dictionary from
    task id to DabiTask, with set_task_status, dump and the manager's
    sync_result_to_dabi method. */
module Registry {
  import opened Wrappers
  import opened Statuses

  /** A JSON scalar from a request body. A task id is whatever the body's
      `dabi_task_id` holds, so registry keys are values, not strings. */
  datatype Value = Text(text: string) | Number(n: int)

  /** A request body or a task's configuration: a JSON object. */
  type Config = map<string, Value>

  /** One uploaded artifact, `{"name": ..., "oss_path": ...}`; the path is
      `None` when the uploader returned nothing. */
  datatype Record = Record(name: string, ossPath: Option<string>)

  /** A DabiTask. Its constructor never assigns `status`, so a task starts
      with no status at all (`None`); reading it then raises AttributeError. */
  datatype Task = Task(
    id: Value,
    status: Option<Status>,
    config: Config,
    models: seq<Record>,
    sampleImages: seq<Record>)

  /** A task as `DabiTask()` builds it once its id is assigned. */
  function FreshTask(id: Value): (t: Task)
    ensures t.id == id && t.status.None?
    ensures t.config == map[] && t.models == [] && t.sampleImages == []
  {
    Task(id, None, map[], [], [])
  }

  predicate Distinct<T(==)>(s: seq<T>) {
    forall i, j :: 0 <= i < j < |s| ==> s[i] != s[j]
  }

  /** The representation of a Python dict: the keys in insertion order and the
      key/value map. Overwriting a key keeps its position. */
  datatype Rep = Rep(order: seq<Value>, tasks: map<Value, Task>)

  predicate Coherent(r: Rep) {
    && Distinct(r.order)
    && (forall k :: k in r.tasks ==> k in r.order)
    && (forall i :: 0 <= i < |r.order| ==> r.order[i] in r.tasks)
    && (forall k :: k in r.tasks ==> r.tasks[k].id == k)
  }

  type Registry = r: Rep | Coherent(r) witness Rep([], map[])

  /** `tasks[t.id] = t`: replaces the entry in place or appends a new key. */
  function Put(reg: Registry, t: Task): Registry {
    var order := if t.id in reg.tasks then reg.order else reg.order + [t.id];
    Rep(order, reg.tasks[t.id := t])
  }

  /** set_task_status: nothing happens for an unknown id; otherwise only that
      task's status changes. */
  function SetStatus(reg: Registry, id: Value, s: Status): (r: Registry)
    ensures id !in reg.tasks ==> r == reg
    ensures r.order == reg.order && r.tasks.Keys == reg.tasks.Keys
    ensures id in reg.tasks ==>
      && r.tasks[id].status == Some(s)
      && r.tasks[id] == reg.tasks[id].(status := r.tasks[id].status)
    ensures forall k :: k in reg.tasks && k != id ==> r.tasks[k] == reg.tasks[k]
  {
    if id !in reg.tasks then reg
    else Put(reg, reg.tasks[id].(status := Some(s)))
  }

  /** One element of the list `dump` returns. */
  datatype Summary = Summary(id: Value, statusName: string, statusValue: StatusValue)

  /** `e` is the summary of task `t`, whose status is set. */
  predicate Describes(e: Summary, t: Task) {
    && t.status.Some?
    && e.id == t.id
    && e.statusName == Name(t.status.value)
    && e.statusValue == ValueOf(t.status.value)
  }

  /** The list comprehension of `dump` over the tasks with keys `ids`: it
      raises at the first task whose status was never set. */
  function DumpKeys(tasks: map<Value, Task>, ids: seq<Value>): (r: Attempt<seq<Summary>>)
    requires forall k :: k in ids ==> k in tasks
    ensures r.Done? <==> forall i :: 0 <= i < |ids| ==> tasks[ids[i]].status.Some?
    ensures r.Done? ==> |r.value| == |ids|
    ensures r.Done? ==> forall i :: 0 <= i < |ids| ==> Describes(r.value[i], tasks[ids[i]])
    decreases |ids|
  {
    if |ids| == 0 then Done([])
    else
      var t := tasks[ids[0]];
      match t.status
      case None => Raised
      case Some(s) =>
        match DumpKeys(tasks, ids[1..])
        case Raised => Raised
        case Done(rest) => Done([Summary(t.id, Name(s), ValueOf(s))] + rest)
  }

  /** dump: one summary per registered task, or an exception when some task
      has no status. */
  function Dump(reg: Registry): (r: Attempt<seq<Summary>>)
    ensures r.Done? <==> forall k :: k in reg.tasks ==> reg.tasks[k].status.Some?
    ensures r.Done? ==> |r.value| == |reg.tasks|
    ensures r.Done? ==> forall e :: e in r.value ==> e.id in reg.tasks && Describes(e, reg.tasks[e.id])
    ensures r.Done? ==> forall k :: k in reg.tasks ==> exists e :: e in r.value && e.id == k
    ensures r.Done? ==> Distinct(r.value)
  {
    var r := DumpKeys(reg.tasks, reg.order);
    if r.Raised? then r
    else
      DumpCovers(reg, r.value);
      r
  }

  /** Lifts the per-position facts of DumpKeys over the insertion order to
      facts about the registry's keys. */
  lemma DumpCovers(reg: Registry, v: seq<Summary>)
    requires DumpKeys(reg.tasks, reg.order) == Done(v)
    ensures |v| == |reg.tasks|
    ensures forall e :: e in v ==> e.id in reg.tasks && Describes(e, reg.tasks[e.id])
    ensures forall k :: k in reg.tasks ==> exists e :: e in v && e.id == k
    ensures Distinct(v)
  {
    DistinctCardinality(reg.order, reg.tasks.Keys);
    DumpSound(reg, v);
    DumpComplete(reg, v);
    DumpDistinct(reg, v);
  }

  lemma DumpSound(reg: Registry, v: seq<Summary>)
    requires DumpKeys(reg.tasks, reg.order) == Done(v)
    ensures forall e :: e in v ==> e.id in reg.tasks && Describes(e, reg.tasks[e.id])
  {
    forall e | e in v
      ensures e.id in reg.tasks && Describes(e, reg.tasks[e.id])
    {
      var i :| 0 <= i < |v| && v[i] == e;
      assert Describes(v[i], reg.tasks[reg.order[i]]);
    }
  }

  lemma DumpComplete(reg: Registry, v: seq<Summary>)
    requires DumpKeys(reg.tasks, reg.order) == Done(v)
    ensures forall k :: k in reg.tasks ==> exists e :: e in v && e.id == k
  {
    forall k | k in reg.tasks
      ensures exists e :: e in v && e.id == k
    {
      var i :| 0 <= i < |reg.order| && reg.order[i] == k;
      assert Describes(v[i], reg.tasks[reg.order[i]]);
      assert v[i] in v;
    }
  }

  lemma DumpDistinct(reg: Registry, v: seq<Summary>)
    requires DumpKeys(reg.tasks, reg.order) == Done(v)
    ensures Distinct(v)
  {
    forall i, j | 0 <= i < j < |v|
      ensures v[i] != v[j]
    {
      assert Describes(v[i], reg.tasks[reg.order[i]]);
      assert Describes(v[j], reg.tasks[reg.order[j]]);
    }
  }

  /** A sequence without repetitions has as many elements as the set of its
      elements. */
  lemma {:induction false} DistinctCardinality(order: seq<Value>, keys: set<Value>)
    requires Distinct(order)
    requires forall k :: k in keys <==> k in order
    ensures |keys| == |order|
    decreases |order|
  {
    if |order| > 0 {
      var last := order[|order| - 1];
      var front := order[..|order| - 1];
      assert forall k :: k in front ==> k in order;
      assert last !in front;
      forall k
        ensures k in keys - {last} <==> k in front
      {
        if k in order && k != last {
          var i :| 0 <= i < |order| && order[i] == k;
          assert i < |order| - 1;
          assert front[i] == k;
        }
      }
      DistinctCardinality(front, keys - {last});
    } else {
      assert keys == {};
    }
  }

  /** The payload of the result callback: the task's id, its records and a
      code (0 for success, 1 for failure). */
  datatype Report = Report(code: int, taskId: Value, models: seq<Record>, sampleImages: seq<Record>)

  function ReportOf(t: Task, code: int): Report {
    Report(code, t.id, t.models, t.sampleImages)
  }

  /** What DabiTaskManager.sync_result_to_dabi does. */
  datatype Notice = NotRegistered | Sent(report: Report) | NoticeRaised

  /** The manager's sync_result_to_dabi method: nothing for an unknown id; a
      KeyError when the task has no `dabi_env`; otherwise the module-level
      callback, which raises when the environment has no callback host
      (`dabiHost`) and sends the report otherwise. The registry is only read. */
  function NotifyResult(reg: Registry, id: Value, code: int, dabiHost: Value -> bool): (n: Notice)
    ensures n.NotRegistered? <==> id !in reg.tasks
    ensures n.Sent? <==>
      id in reg.tasks && "dabi_env" in reg.tasks[id].config
      && dabiHost(reg.tasks[id].config["dabi_env"])
    ensures n.Sent? ==>
      && n.report.code == code && n.report.taskId == id
      && n.report.models == reg.tasks[id].models
      && n.report.sampleImages == reg.tasks[id].sampleImages
  {
    if id !in reg.tasks then NotRegistered
    else
      var t := reg.tasks[id];
      if "dabi_env" !in t.config || !dabiHost(t.config["dabi_env"]) then NoticeRaised
      else Sent(ReportOf(t, code))
  }
}
