/** The operations of job.c on a transaction, as loops over its list of jobs, against the
    transaction model; and a run in which a failing .prepare splits a transaction. */
module JobTxn {
  import opened JobGroup

  class Txn {
    var jobs: seq<Job>
    var aborting: bool
    var initiator: nat
    ghost var blamed: bool
    ghost var prepareFailed: bool

    ghost function Model(): Group
      reads this
    {
      Group(jobs, aborting, initiator, blamed, prepareFailed)
    }

    /** job_completed_txn_abort_locked up to its waiting loop. */
    method StartAbort(a: nat)
      modifies this
      ensures Model() == TxnAbort(old(Model()), a)
    {
      if aborting {
        return;
      }
      aborting, initiator := true, a;
      var k := 0;
      while k < |jobs|
        invariant 0 <= k <= |jobs| == |old(jobs)|
        invariant forall i | 0 <= i < k :: jobs[i] == CancelOthers(old(jobs), a)[i]
        invariant forall i | k <= i < |jobs| :: jobs[i] == old(jobs)[i]
        invariant aborting && initiator == a && blamed == old(blamed) && prepareFailed == old(prepareFailed)
      {
        if jobs[k].inTxn && k != a {
          jobs := jobs[k := CancelAsync(jobs[k], true)];
        }
        k := k + 1;
      }
      assert jobs == CancelOthers(old(jobs), a);
    }

    /** One turn of the waiting loop of job_completed_txn_abort_locked, once the job at the
        head of the list is completed. */
    method AbortTurn(ghost first: nat) returns (i: nat)
      requires aborting && IsFirst(jobs, first) && Completed(jobs[first].status)
      modifies this
      ensures AbortStep(old(Model()), Model(), i)
    {
      i := 0;
      while !jobs[i].inTxn
        invariant 0 <= i <= first
        decreases first - i
      {
        i := i + 1;
      }
      jobs := jobs[i := FinalizeSingle(jobs[i])];
    }

    /** job_txn_apply_locked with job_prepare_locked: stops at the first failure. */
    method PrepareAll(prep: seq<int>) returns (f: nat)
      requires |prep| == |jobs|
      modifies `jobs
      ensures f == FirstFailing(old(jobs), prep, 0) <= |jobs|
      ensures jobs == PreparedTo(old(jobs), prep, if f < |prep| then f + 1 else f)
    {
      f := 0;
      while f < |jobs|
        invariant 0 <= f <= |jobs| == |old(jobs)|
        invariant FirstFailing(old(jobs), prep, 0) == FirstFailing(old(jobs), prep, f)
        invariant jobs == PreparedTo(old(jobs), prep, f)
      {
        if jobs[f].inTxn {
          jobs := jobs[f := Prepare(jobs[f], prep[f])];
          assert jobs == PreparedTo(old(jobs), prep, f + 1);
          if jobs[f].ret != 0 {
            return;
          }
        } else {
          assert PreparedTo(old(jobs), prep, f) == PreparedTo(old(jobs), prep, f + 1);
        }
        f := f + 1;
      }
    }

    /** job_txn_apply_locked with a callback that always succeeds. */
    method ApplyAll(fn: Job -> Job)
      modifies `jobs
      ensures jobs == MapTxn(old(jobs), fn)
    {
      var k := 0;
      while k < |jobs|
        invariant 0 <= k <= |jobs| == |old(jobs)|
        invariant forall i | 0 <= i < k :: jobs[i] == if old(jobs)[i].inTxn then fn(old(jobs)[i]) else old(jobs)[i]
        invariant forall i | k <= i < |jobs| :: jobs[i] == old(jobs)[i]
      {
        if jobs[k].inTxn {
          jobs := jobs[k := fn(jobs[k])];
        }
        k := k + 1;
      }
    }

    /** job_do_finalize_locked */
    method FinalizeTxn(a: nat, prep: seq<int>)
      requires |prep| == |jobs|
      modifies this
      ensures Model() == DoFinalize(old(Model()), a, prep)
    {
      hide FinalizeSingle, Prepare;
      var f := PrepareAll(prep);
      if f < |jobs| {
        blamed, prepareFailed := blamed && f == a, true;
        StartAbort(a);
      } else {
        ApplyAll(FinalizeSingle);
      }
    }

    /** job_completed_locked */
    method Complete(i: nat, prep: seq<int>)
      requires i < |jobs| == |prep|
      modifies this
      ensures Model() == CompleteJob(old(Model()), i, prep)
    {
      hide UpdateRc, TxnAbort, TxnSuccess;
      jobs := jobs[i := UpdateRc(jobs[i])];
      if jobs[i].ret != 0 {
        StartAbort(i);
      } else {
        Succeed(i, prep);
      }
    }

    /** job_completed_txn_success_locked.  Every completed job is checked for success, where the
        source stops checking at the first that is not completed. */
    method Succeed(i: nat, prep: seq<int>)
      requires i < |jobs| == |prep|
      modifies this
      ensures Model() == TxnSuccess(old(Model()), i, prep)
    {
      hide Go, AllWaiting, CheckRet, MapTxn;
      jobs := jobs[i := Go(jobs[i], Waiting)];
      MapLength(jobs, CheckRet);
      ApplyAll(CheckRet);
      var waiting := Any((x: Job) => !Completed(x.status));
      if !waiting {
        FinishWaiting(i, prep);
      }
    }

    method FinishWaiting(i: nat, prep: seq<int>)
      requires |jobs| == |prep|
      modifies this
      ensures Model() == AllWaiting(old(Model()), i, prep)
    {
      hide ToPending, MapTxn, DoFinalize;
      MapLength(jobs, ToPending);
      ApplyAll(ToPending);
      var manual := Any((x: Job) => !x.autoFinalize);
      if !manual {
        FinalizeTxn(i, prep);
      }
    }

    /** Whether some job of the transaction has a property. */
    method Any(p: Job -> bool) returns (found: bool)
      ensures found <==> exists k | 0 <= k < |jobs| :: jobs[k].inTxn && p(jobs[k])
    {
      var k := 0;
      while k < |jobs|
        invariant 0 <= k <= |jobs|
        invariant forall i | 0 <= i < k :: !(jobs[i].inTxn && p(jobs[i]))
      {
        if jobs[k].inTxn && p(jobs[k]) {
          return true;
        }
        k := k + 1;
      }
      return false;
    }

    /** job_cancel_locked */
    method Cancel(i: nat, force: bool, prep: seq<int>)
      requires i < |jobs| == |prep|
      modifies this
      ensures Model() == CancelJob(old(Model()), i, force, prep)
    {
      hide CompleteJob, TxnAbort;
      var j := CancelAsync(jobs[i], force);
      jobs := jobs[i := j.(userForced := j.userForced || j.force)];
      if !j.started {
        Complete(i, prep);
      } else if j.deferred && j.force {
        StartAbort(i);
      }
    }
  }

  lemma MapLength(js: seq<Job>, f: Job -> Job)
    ensures |MapTxn(js, f)| == |js|
  {
  }

  // ----- a transaction that is split -----

  const NEW := Job(Created, 0, false, false, false, false, true, false, true, 0, 0, 0, false, false)
  const RUNNING := NEW.(status := Running, started := true)
  const RETURNED := RUNNING.(deferred := true)
  const WAITING := RETURNED.(status := Waiting)
  const PENDING := RETURNED.(status := Pending)
  const FAILED := RETURNED.(status := Aborting, ret := 1, cancelled := true, force := true)

  function Pair(a: Job, b: Job): Group {
    Group([a, b], false, 0, true, false)
  }

  function Split(a: Job, b: Job): Group {
    Group([a, b], true, 1, false, true)
  }

  lemma MapPair(a: Job, b: Job, f: Job -> Job)
    requires a.inTxn && b.inTxn
    ensures MapTxn([a, b], f) == [f(a), f(b)]
  {
  }

  lemma StartSteps()
    ensures Next(Pair(NEW, NEW), Pair(RUNNING, NEW)) && Next(Pair(RUNNING, NEW), Pair(RUNNING, RUNNING))
    ensures Next(Pair(RUNNING, RUNNING), Pair(RETURNED, RUNNING))
            && Next(Pair(RETURNED, RUNNING), Pair(RETURNED, RETURNED))
  {
    assert Go(NEW.(started := true), Running) == RUNNING;
    assert StartStep(Pair(NEW, NEW), Pair(RUNNING, NEW), 0);
    assert StartStep(Pair(RUNNING, NEW), Pair(RUNNING, RUNNING), 1);
    assert ReturnStep(Pair(RUNNING, RUNNING), Pair(RETURNED, RUNNING), 0, 0);
    assert ReturnStep(Pair(RETURNED, RUNNING), Pair(RETURNED, RETURNED), 1, 0);
  }

  lemma FirstWaits()
    ensures Next(Pair(RETURNED, RETURNED), Pair(WAITING, RETURNED))
  {
    var g := Pair(RETURNED, RETURNED);
    assert UpdateRc(RETURNED) == RETURNED && Go(RETURNED, Waiting) == WAITING;
    assert [RETURNED, RETURNED][0 := WAITING] == [WAITING, RETURNED];
    MapPair(WAITING, RETURNED, CheckRet);
    assert CheckRet(WAITING) == WAITING && CheckRet(RETURNED) == RETURNED;
    assert Set(g, 0, RETURNED) == g;
    var w := Pair(WAITING, RETURNED);
    assert TxnSuccess(g, 0, [0, 0]) == w by {
      assert !Completed(w.jobs[1].status);
    }
    assert ExitStep(g, w, 0, [0, 0]);
  }

  lemma BothWait()
    ensures CompleteJob(Pair(WAITING, RETURNED), 1, [1, 0]) == AllWaiting(Pair(WAITING, WAITING), 1, [1, 0])
  {
    var g := Pair(WAITING, RETURNED);
    assert UpdateRc(RETURNED) == RETURNED && Go(RETURNED, Waiting) == WAITING;
    assert [WAITING, RETURNED][1 := WAITING] == [WAITING, WAITING];
    MapPair(WAITING, WAITING, CheckRet);
    assert CheckRet(WAITING) == WAITING;
    assert Set(g, 1, RETURNED) == g;
  }

  lemma BothPending()
    ensures AllWaiting(Pair(WAITING, WAITING), 1, [1, 0]) == DoFinalize(Pair(PENDING, PENDING), 1, [1, 0])
  {
    MapPair(WAITING, WAITING, ToPending);
    assert ToPending(WAITING) == PENDING;
  }

  lemma FirstFails()
    ensures DoFinalize(Pair(PENDING, PENDING), 1, [1, 0]) == Split(FAILED, PENDING)
  {
  }

  lemma AbortSteps(gone: Job, kept: Job)
    requires gone == FAILED.(status := Concluded, aborts := 1, inTxn := false)
    requires kept == PENDING.(status := Concluded, commits := 1, inTxn := false)
    ensures Next(Split(FAILED, PENDING), Split(gone, PENDING)) && Next(Split(gone, PENDING), Split(gone, kept))
  {
    assert FinalizeSingle(FAILED) == gone;
    assert FinalizeSingle(PENDING) == kept;
    assert AbortStep(Split(FAILED, PENDING), Split(gone, PENDING), 0);
    assert AbortStep(Split(gone, PENDING), Split(gone, kept), 1);
  }

  lemma SecondExits()
    ensures Next(Pair(WAITING, RETURNED), Split(FAILED, PENDING)) && Init(Pair(NEW, NEW))
  {
    BothWait();
    BothPending();
    FirstFails();
    hide CompleteJob, AllWaiting, DoFinalize;
    assert ExitStep(Pair(WAITING, RETURNED), Split(FAILED, PENDING), 1, [1, 0]);
  }

  lemma RunOf(r: seq<Group>)
    requires |r| == 9 && Init(r[0]) && Next(r[0], r[1]) && Next(r[1], r[2]) && Next(r[2], r[3]) && Next(r[3], r[4])
    requires Next(r[4], r[5]) && Next(r[5], r[6]) && Next(r[6], r[7]) && Next(r[7], r[8])
    ensures Run(r)
  {
    hide Init, Next;
  }

  /** All-or-nothing fails: both jobs run successfully, the .prepare of the first fails while
      the group is finalized for the second, and the second is committed all the same. */
  lemma PrepareCanSplit() returns (r: seq<Group>)
    ensures Run(r)
    ensures var jobs := r[|r| - 1].jobs; |jobs| == 2 && jobs[0].aborts == 1 && jobs[1].commits == 1
  {
    hide Init, Next, Run;
    StartSteps();
    FirstWaits();
    SecondExits();
    var gone := FAILED.(status := Concluded, aborts := 1, inTxn := false);
    var kept := PENDING.(status := Concluded, commits := 1, inTxn := false);
    AbortSteps(gone, kept);
    r := [Pair(NEW, NEW), Pair(RUNNING, NEW), Pair(RUNNING, RUNNING), Pair(RETURNED, RUNNING), Pair(RETURNED, RETURNED),
          Pair(WAITING, RETURNED), Split(FAILED, PENDING), Split(gone, PENDING), Split(gone, kept)];
    RunOf(r);
  }
}
