/** The `/free` route of dabi/api.py: whether the node is busy, read off the
    task registry in insertion order. */
module Availability {
  import opened Wrappers
  import opened Statuses
  import opened Registry

  /** The statuses `/free` treats as occupying the node. */
  predicate Busy(t: Task) {
    t.status == Some(Created) || t.status == Some(Running) || t.status == Some(Finished)
  }

  /** The first `n` tasks in insertion order all have a status and are idle. */
  predicate IdleBefore(reg: Registry, n: int) {
    forall j :: 0 <= j < n && j < |reg.order| ==>
      reg.tasks[reg.order[j]].status.Some? && !Busy(reg.tasks[reg.order[j]])
  }

  /** `/free`: scan the tasks in insertion order and answer 1 at the
      first busy one; a task without a status stops the scan with
      AttributeError; 0 when the scan finishes. */
  method BusyFlag(reg: Registry) returns (r: Attempt<int>)
    ensures r == Done(1) <==>
      exists i :: 0 <= i < |reg.order| && Busy(reg.tasks[reg.order[i]]) && IdleBefore(reg, i)
    ensures r == Raised <==>
      exists i :: 0 <= i < |reg.order| && reg.tasks[reg.order[i]].status.None? && IdleBefore(reg, i)
    ensures r == Done(0) <==> IdleBefore(reg, |reg.order|)
    ensures r == Done(0) || r == Done(1) || r == Raised
    ensures (forall k :: k in reg.tasks ==> reg.tasks[k].status.Some?) ==>
      (r == Done(1) <==> exists k :: k in reg.tasks && Busy(reg.tasks[k]))
    ensures |reg.order| == 0 ==> r == Done(0)
  {
    var i := 0;
    while i < |reg.order| && reg.tasks[reg.order[i]].status.Some? && !Busy(reg.tasks[reg.order[i]])
      invariant 0 <= i <= |reg.order|
      invariant IdleBefore(reg, i)
    {
      i := i + 1;
    }
    if i == |reg.order| {
      if forall k :: k in reg.tasks ==> reg.tasks[k].status.Some? {
        ScanFindsBusy(reg);
      }
      r := Done(0);
    } else if reg.tasks[reg.order[i]].status.None? {
      r := Raised;
    } else {
      assert reg.order[i] in reg.tasks;
      r := Done(1);
    }
  }

  /** When every task has a status, the scan meets a busy task exactly when
      some registered task is busy, whatever the insertion order. */
  lemma ScanFindsBusy(reg: Registry)
    requires forall k :: k in reg.tasks ==> reg.tasks[k].status.Some?
    ensures (exists k :: k in reg.tasks && Busy(reg.tasks[k])) <==>
            exists i :: 0 <= i < |reg.order| && Busy(reg.tasks[reg.order[i]]) && IdleBefore(reg, i)
    ensures (exists k :: k in reg.tasks && Busy(reg.tasks[k])) <==> !IdleBefore(reg, |reg.order|)
  {
    if exists k :: k in reg.tasks && Busy(reg.tasks[k]) {
      var k :| k in reg.tasks && Busy(reg.tasks[k]);
      var j :| 0 <= j < |reg.order| && reg.order[j] == k;
      assert !IdleBefore(reg, |reg.order|);
      var i := FirstBusy(reg, j);
      assert Busy(reg.tasks[reg.order[i]]) && IdleBefore(reg, i);
    }
  }

  /** The first busy position at or before a busy position `j`, when every task
      has a status. */
  lemma {:induction false} FirstBusy(reg: Registry, j: nat) returns (i: nat)
    requires forall k :: k in reg.tasks ==> reg.tasks[k].status.Some?
    requires j < |reg.order| && Busy(reg.tasks[reg.order[j]])
    ensures i <= j && Busy(reg.tasks[reg.order[i]]) && IdleBefore(reg, i)
    decreases j
  {
    if IdleBefore(reg, j) {
      i := j;
    } else {
      var m :| 0 <= m < j && !(reg.tasks[reg.order[m]].status.Some? && !Busy(reg.tasks[reg.order[m]]));
      i := FirstBusy(reg, m);
    }
  }
}
