/** What the completion, the cancellation and the finalization of jobs do, job by job, and that a
    transaction can always be brought to its end (job.c). */
module JobEnd {
  import opened JobGroup

  // ----- completing a job, while nothing has gone wrong -----

  /** job_exit of a job that failed or was force-cancelled: it is aborting, with its own error if
      it has one, and every other job is told to stop. */
  lemma FailureAborts(g: Group, g': Group, i: nat, prep: seq<int>)
    requires Inv(g) && !g.aborting && ExitStep(g, g', i, prep) && (g.jobs[i].ret != 0 || g.jobs[i].force)
    ensures g'.aborting && g'.initiator == i && |g'.jobs| == |g.jobs|
    ensures g'.blamed == g.blamed && g'.prepareFailed == g.prepareFailed
    ensures g'.jobs[i] == g.jobs[i].(status := Aborting,
                                     ret := if g.jobs[i].ret != 0 then g.jobs[i].ret else -125)
    ensures forall n | 0 <= n < |g.jobs| && n != i :: g'.jobs[n] == g.jobs[n].(cancelled := true, force := true)
  {
    var j := g.jobs[i];
    assert JobOk(j) && Live(g);
    UpdatedRc(j);
    forall n | 0 <= n < |g.jobs|
      ensures g.jobs[n].inTxn
    {
      assert Quiet(g.jobs[n]);
    }
    hide UpdateRc, JobOk, Quiet, TxnSuccess;
  }

  /** While a transaction aborts, a job that ends has failed, and nothing else happens. */
  lemma EndWhileAborting(g: Group, g': Group, i: nat, prep: seq<int>)
    requires Inv(g) && g.aborting && ExitStep(g, g', i, prep)
    ensures g.jobs[i].ret != 0 || g.jobs[i].force
    ensures g' == g.(jobs := g'.jobs) && |g'.jobs| == |g.jobs|
    ensures g'.jobs[i] == g.jobs[i].(status := Aborting,
                                     ret := if g.jobs[i].ret != 0 then g.jobs[i].ret else -125)
    ensures forall n | 0 <= n < |g.jobs| && n != i :: g'.jobs[n] == g.jobs[n]
  {
    var j := g.jobs[i];
    assert JobOk(j) && Doing(g);
    assert g.blamed || i != g.initiator;
    FailedFate(j);
    UpdatedRc(j);
    hide UpdateRc, JobOk, TxnSuccess, Doomed, Spared;
  }

  /** The job waits, and nobody is found at fault. */
  lemma WaitedIs(g: Group, i: nat)
    requires Inv(g) && Live(g) && i < |g.jobs| && !Completed(g.jobs[i].status) && g.jobs[i].deferred
    requires g.jobs[i].ret == 0 && !g.jobs[i].force
    ensures Waited(g.jobs, i) == g.jobs[i := g.jobs[i].(status := Waiting)]
  {
    assert JobOk(g.jobs[i]) && Quiet(g.jobs[i]);
    WaitingOk(g.jobs[i]);
    assert Go(g.jobs[i], Waiting) == g.jobs[i].(status := Waiting);
    forall n | 0 <= n < |g.jobs|
      ensures CheckRet(g.jobs[n]) == g.jobs[n] && g.jobs[n].inTxn
    {
      assert JobOk(g.jobs[n]) && Quiet(g.jobs[n]);
      CheckedOk(g.jobs[n]);
    }
    hide CheckRet, Go, JobOk, Quiet;
  }

  /** The completion of a job that succeeded. */
  lemma SucceededIs(g: Group, g': Group, i: nat, prep: seq<int>)
    requires Inv(g) && !g.aborting && ExitStep(g, g', i, prep) && g.jobs[i].ret == 0 && !g.jobs[i].force
    ensures Live(g) && g' == TxnSuccess(g, i, prep)
    ensures Waited(g.jobs, i) == g.jobs[i := g.jobs[i].(status := Waiting)]
  {
    assert JobOk(g.jobs[i]) && Live(g);
    UpdatedRc(g.jobs[i]);
    WaitedIs(g, i);
    hide UpdateRc, TxnSuccess, JobOk, Live;
    assert Set(g, i, g.jobs[i]) == g;
  }

  /** A job that succeeded waits for the others: as long as one of them is at work nothing else
      happens. */
  lemma SuccessWaits(g: Group, g': Group, i: nat, prep: seq<int>)
    requires Inv(g) && !g.aborting && ExitStep(g, g', i, prep) && g.jobs[i].ret == 0 && !g.jobs[i].force
    requires exists n | 0 <= n < |g.jobs| && n != i :: !Completed(g.jobs[n].status)
    ensures g' == g.(jobs := g.jobs[i := g.jobs[i].(status := Waiting)])
  {
    SucceededIs(g, g', i, prep);
    var n :| 0 <= n < |g.jobs| && n != i && !Completed(g.jobs[n].status);
    assert Quiet(g.jobs[n]);
    hide Waited, AllWaiting;
    assert Waited(g.jobs, i)[n] == g.jobs[n];
  }

  /** The jobs with every one of them pending, and nothing else changed. */
  function Pended(jobs: seq<Job>): (r: seq<Job>)
    ensures |r| == |jobs|
  {
    seq(|jobs|, n requires 0 <= n < |jobs| => jobs[n].(status := Pending))
  }

  /** All jobs but i are completed. */
  predicate LastOne(g: Group, i: nat) {
    forall n | 0 <= n < |g.jobs| && n != i :: Completed(g.jobs[n].status)
  }

  predicate SomeByHand(jobs: seq<Job>) {
    exists m | 0 <= m < |jobs| :: !jobs[m].autoFinalize
  }

  /** Once the last job has succeeded all are pending; if one of them has to be finalized by hand
      they stay so, and none is committed; otherwise they are finalized on behalf of the last. */
  lemma LastOnePends(g: Group, g': Group, i: nat, prep: seq<int>)
    requires Inv(g) && !g.aborting && ExitStep(g, g', i, prep) && g.jobs[i].ret == 0 && !g.jobs[i].force
    requires LastOne(g, i)
    ensures AllPending(g.(jobs := Pended(g.jobs)))
    ensures SomeByHand(g.jobs) ==> g' == g.(jobs := Pended(g.jobs))
    ensures !SomeByHand(g.jobs) ==> g' == DoFinalize(g.(jobs := Pended(g.jobs)), i, prep)
  {
    SucceededIs(g, g', i, prep);
    WaitKeepsInv(g, i);
    var w := g.(jobs := Waited(g.jobs, i));
    WaitedLast(g, i, w);
    PendKeepsInv(w);
    PendedIs(g, i, w);
    AutoIs(g);
    hide Waited, DoFinalize, AllPending, Inv, Live, MapTxn, Pended, AllAuto, SomeByHand, AllCompleted;
  }

  lemma WaitedLast(g: Group, i: nat, w: Group)
    requires Live(g) && LastOne(g, i) && i < |g.jobs| && w.jobs == g.jobs[i := g.jobs[i].(status := Waiting)]
    ensures AllCompleted(w.jobs)
  {
  }

  lemma PendedIs(g: Group, i: nat, w: Group)
    requires Live(g) && i < |g.jobs| && w == g.(jobs := g.jobs[i := g.jobs[i].(status := Waiting)])
    requires Inv(w) && Live(w) && AllCompleted(w.jobs) && forall n | 0 <= n < |w.jobs| :: w.jobs[n].status != Pending
    ensures MapTxn(w.jobs, ToPending) == Pended(g.jobs)
  {
    forall n | 0 <= n < |g.jobs|
      ensures w.jobs[n].inTxn && ToPending(w.jobs[n]) == g.jobs[n].(status := Pending)
    {
      assert JobOk(w.jobs[n]) && Quiet(w.jobs[n]);
    }
    hide ToPending, JobOk, Quiet;
  }

  lemma AutoIs(g: Group)
    requires Live(g)
    ensures AllAuto(Pended(g.jobs)) <==> !SomeByHand(g.jobs)
  {
    forall n | 0 <= n < |g.jobs|
      ensures Pended(g.jobs)[n].inTxn && Pended(g.jobs)[n].autoFinalize == g.jobs[n].autoFinalize
    {
      assert Quiet(g.jobs[n]);
    }
  }

  /** If nothing has to be done by hand, and every .prepare succeeds, all are committed at once. */
  lemma LastOneCommits(g: Group, g': Group, i: nat, prep: seq<int>)
    requires Inv(g) && !g.aborting && ExitStep(g, g', i, prep) && g.jobs[i].ret == 0 && !g.jobs[i].force
    requires LastOne(g, i) && !SomeByHand(g.jobs) && forall m | 0 <= m < |prep| :: prep[m] == 0
    ensures |g'.jobs| == |g.jobs| && AllCommitted(g'.jobs)
  {
    LastOnePends(g, g', i, prep);
    hide Inv, ExitStep, LastOne, SomeByHand, Pended, DoFinalize, FirstFailing, AllPending;
    FinalizeSplits(g.(jobs := Pended(g.jobs)), i, prep);
    FirstFailingPending(g.(jobs := Pended(g.jobs)), prep, 0);
  }

  // ----- commands -----

  /** What a cancel command does: a job at work is told to stop, and stops being so only if it is
      forced; for a job that has returned a soft cancel comes too late; a forced one, and any
      cancel of a job not yet started, aborts the transaction. */
  lemma CancelMeans(g: Group, g': Group, i: nat, force: bool, prep: seq<int>)
    requires Inv(g) && CancelStep(g, g', i, force, prep)
    ensures g.jobs[i].started && !g.jobs[i].deferred ==>
              && g' == g.(jobs := g'.jobs) && |g'.jobs| == |g.jobs|
              && g'.jobs[i].cancelled && g'.jobs[i].force == (g.jobs[i].force || force)
              && g'.jobs[i] == g.jobs[i].(cancelled := true, force := g'.jobs[i].force, userForced := g'.jobs[i].force)
              && forall n | 0 <= n < |g.jobs| && n != i :: g'.jobs[n] == g.jobs[n]
    ensures g.jobs[i].deferred && !force && !g.jobs[i].force ==> g' == g
    ensures (g.jobs[i].deferred && (force || g.jobs[i].force)) || !g.jobs[i].started ==>
              && g'.aborting && g'.initiator == i && |g'.jobs| == |g.jobs|
              && g'.jobs[i].cancelled && g'.jobs[i].force
              && forall n | 0 <= n < |g.jobs| && n != i :: g'.jobs[n] == g.jobs[n].(cancelled := true, force := true)
    ensures !g.jobs[i].started ==> g'.jobs[i].status == Aborting && g'.jobs[i].ret == -125
  {
    var j := g.jobs[i];
    assert JobOk(j);
    MayCancelIsLive(g, i);
    CancelledOk(j, force);
    forall n | 0 <= n < |g.jobs|
      ensures g.jobs[n].inTxn
    {
      assert Quiet(g.jobs[n]);
    }
    var a := CancelAsync(j, force);
    var c := a.(userForced := a.userForced || a.force);
    if j.deferred && !force && !j.force {
      assert Set(g, i, j) == g;
    } else if !j.started {
      UpdatedRc(c);
      var u := UpdateRc(c);
      assert Set(Set(g, i, c), i, u) == Set(g, i, u);
      hide UpdateRc, JobOk, Quiet, TxnSuccess, Inv, Live;
    }
  }

  /** A finalize command: if every .prepare succeeds all jobs are committed, and otherwise the
      transaction aborts on behalf of the job named in the command. */
  lemma FinalizeMeans(g: Group, g': Group, i: nat, prep: seq<int>)
    requires Inv(g) && FinalizeStep(g, g', i, prep)
    ensures |g'.jobs| == |g.jobs|
    ensures (forall n | 0 <= n < |prep| :: prep[n] == 0) ==> !g'.aborting && AllCommitted(g'.jobs)
    ensures (exists n | 0 <= n < |prep| :: prep[n] != 0) ==> g'.aborting && g'.initiator == i
    ensures g'.blamed <==> ((forall n | 0 <= n < |prep| :: prep[n] == 0) ||
                            (prep[i] != 0 && forall n | 0 <= n < i :: prep[n] == 0))
  {
    assert JobOk(g.jobs[i]);
    assert AllPending(g);
    FinalizeSplits(g, i, prep);
    FirstFailingPending(g, prep, 0);
    FinalizedBlame(g, i, prep);
    hide DoFinalize, FirstFailing, AllPending, Inv, Doing;
  }

  lemma FinalizedBlame(g: Group, i: nat, prep: seq<int>)
    requires AllPending(g) && i < |g.jobs| == |prep|
    ensures !DoFinalize(g, i, prep).aborting ==> DoFinalize(g, i, prep).blamed
  {
  }

  /** A transaction in which some job has to be finalized by hand, and nothing has gone wrong, is
      committed by a finalize command and by nothing else. */
  lemma OnlyTheCommandCommits(g: Group, g': Group, m: nat, x: nat)
    requires Inv(g) && Live(g) && Next(g, g') && m < |g.jobs| && !g.jobs[m].autoFinalize
    requires x < |g'.jobs| && g'.jobs[x].commits == 1
    ensures exists i, prep :: FinalizeStep(g, g', i, prep)
  {
    forall n | 0 <= n < |g.jobs|
      ensures g.jobs[n].commits == 0
    {
      assert JobOk(g.jobs[n]) && Quiet(g.jobs[n]);
    }
    hide JobOk, Quiet, Go, CompleteJob, CancelJob, DoFinalize, FinalizeSingle;
    if i: nat, prep :| FinalizeStep(g, g', i, prep) {
    } else if i: nat, prep :| ExitStep(g, g', i, prep) {
      ExitCommitsNone(g, g', i, prep, m);
    } else if i: nat, force, prep :| CancelStep(g, g', i, force, prep) {
      CancelMeans(g, g', i, force, prep);
      CancelCommitsNone(g, g', i, force, prep);
    } else {
      OwnCommitsNone(g, g');
    }
  }

  lemma ExitCommitsNone(g: Group, g': Group, i: nat, prep: seq<int>, m: nat)
    requires Inv(g) && Live(g) && ExitStep(g, g', i, prep) && m < |g.jobs| && !g.jobs[m].autoFinalize
    requires forall n | 0 <= n < |g.jobs| :: g.jobs[n].commits == 0
    ensures |g'.jobs| == |g.jobs| && forall n | 0 <= n < |g'.jobs| :: g'.jobs[n].commits == 0
  {
    hide Inv, CompleteJob, DoFinalize, AllPending, Completed;
    if g.jobs[i].ret != 0 || g.jobs[i].force {
      FailureAborts(g, g', i, prep);
    } else if LastOne(g, i) {
      LastOnePends(g, g', i, prep);
      assert SomeByHand(g.jobs);
    } else {
      SuccessWaits(g, g', i, prep);
    }
  }

  lemma CancelCommitsNone(g: Group, g': Group, i: nat, force: bool, prep: seq<int>)
    requires Inv(g) && CancelStep(g, g', i, force, prep)
    requires forall n | 0 <= n < |g.jobs| :: g.jobs[n].commits == 0
    ensures forall n | 0 <= n < |g'.jobs| :: g'.jobs[n].commits == 0
  {
    assert JobOk(g.jobs[i]);
    var a := CancelAsync(g.jobs[i], force);
    if !a.started {
      MayCancelIsLive(g, i);
      CancelledOk(g.jobs[i], force);
      UpdatedRc(a.(userForced := a.userForced || a.force));
      hide TxnSuccess;
    }
  }

  lemma OwnCommitsNone(g: Group, g': Group)
    requires Live(g) && Next(g, g') && forall n | 0 <= n < |g.jobs| :: g.jobs[n].commits == 0
    requires forall i, prep :: !FinalizeStep(g, g', i, prep)
    requires forall i, prep :: !ExitStep(g, g', i, prep)
    requires forall i, force, prep :: !CancelStep(g, g', i, force, prep)
    ensures forall n | 0 <= n < |g'.jobs| :: g'.jobs[n].commits == 0
  {
    hide CompleteJob, CancelJob, DoFinalize, FinalizeSingle, Stt;
  }

  // ----- nothing is left waiting -----

  /** While nothing has gone wrong some job is still at work, or all are pending. */
  predicate Awaited(g: Group) {
    Live(g) ==>
      || (exists i | 0 <= i < |g.jobs| :: !Completed(g.jobs[i].status))
      || (forall i | 0 <= i < |g.jobs| :: g.jobs[i].status == Pending)
  }

  lemma CommittedIsNotLive(g: Group)
    requires Inv(g) && AllCommitted(g.jobs) && g.jobs != []
    ensures !Live(g)
  {
    assert JobOk(g.jobs[0]);
  }

  lemma ExitKeepsAwaited(g: Group, g': Group, i: nat, prep: seq<int>)
    requires Inv(g) && ExitStep(g, g', i, prep)
    ensures Awaited(g')
  {
    ExitKeepsInv(g, g', i, prep);
    hide Inv, CompleteJob, DoFinalize, FirstFailing;
    if g.aborting {
      EndWhileAborting(g, g', i, prep);
    } else if g.jobs[i].ret != 0 || g.jobs[i].force {
      FailureAborts(g, g', i, prep);
    } else if LastOne(g, i) {
      LastOnePends(g, g', i, prep);
      if !SomeByHand(g.jobs) {
        hide AllPending, SomeByHand, LastOne;
        FinalizeSplits(g.(jobs := Pended(g.jobs)), i, prep);
        if !g'.aborting {
          CommittedIsNotLive(g');
        }
      }
    } else {
      SuccessWaits(g, g', i, prep);
      var n :| 0 <= n < |g.jobs| && n != i && !Completed(g.jobs[n].status);
      assert g'.jobs[n] == g.jobs[n];
    }
  }

  lemma CancelKeepsAwaited(g: Group, g': Group, i: nat, force: bool, prep: seq<int>)
    requires Inv(g) && Awaited(g) && CancelStep(g, g', i, force, prep)
    ensures Awaited(g')
  {
    MayCancelIsLive(g, i);
    CancelMeans(g, g', i, force, prep);
    assert JobOk(g.jobs[i]);
    hide Inv, CancelJob, JobOk;
    if g.jobs[i].started && !g.jobs[i].deferred {
      forall n | 0 <= n < |g.jobs|
        ensures g'.jobs[n].status == g.jobs[n].status
      {
      }
      hide Live, Completed;
      if n :| 0 <= n < |g.jobs| && !Completed(g.jobs[n].status) {
        assert !Completed(g'.jobs[n].status);
      }
    }
  }

  lemma OwnKeepsAwaited(g: Group, g': Group, i: nat, r: int)
    requires Inv(g)
    requires || StartStep(g, g', i) || ReadyStep(g, g', i) || PauseStep(g, g', i) || UnpauseStep(g, g', i)
             || ReturnStep(g, g', i, r) || DismissStep(g, g', i)
    ensures Awaited(g')
  {
    assert JobOk(g.jobs[i]);
    if DismissStep(g, g', i) {
      assert !g'.jobs[i].inTxn;
      assert !Quiet(g'.jobs[i]);
    } else {
      assert !Completed(g'.jobs[i].status);
    }
  }

  lemma NextKeepsAwaited(g: Group, g': Group)
    requires Inv(g) && Awaited(g) && Next(g, g')
    ensures Awaited(g')
  {
    hide Inv, Awaited, StartStep, ReadyStep, PauseStep, UnpauseStep, ReturnStep, ExitStep, CancelStep, DismissStep;
    hide DoFinalize, FinalizeSingle;
    if i: nat, prep :| ExitStep(g, g', i, prep) {
      ExitKeepsAwaited(g, g', i, prep);
    } else if i: nat, force, prep :| CancelStep(g, g', i, force, prep) {
      CancelKeepsAwaited(g, g', i, force, prep);
    } else if i: nat, prep :| FinalizeStep(g, g', i, prep) {
      FinalizeStepKeepsInv(g, g', i, prep);
      FinalizeMeans(g, g', i, prep);
      if !g'.aborting { CommittedIsNotLive(g'); }
      AbortingOrNot(g');
    } else if i: nat :| AbortStep(g, g', i) {
      AbortingOrNot(g');
    } else if i: nat, r :| ReturnStep(g, g', i, r) {
      OwnKeepsAwaited(g, g', i, r);
    } else {
      var i :| StartStep(g, g', i) || ReadyStep(g, g', i) || PauseStep(g, g', i) || UnpauseStep(g, g', i)
          || DismissStep(g, g', i);
      OwnKeepsAwaited(g, g', i, 0);
    }
  }

  lemma AbortingOrNot(g: Group)
    requires g.aborting || !Live(g)
    ensures Awaited(g)
  {
  }

  /** In every run: as long as nothing has gone wrong, the group is waiting for a job that is
      still at work, or all jobs are pending and wait for the command. */
  lemma {:induction false} NothingIsLeftWaiting(r: seq<Group>, k: nat)
    requires Run(r) && k < |r|
    ensures Awaited(r[k])
  {
    hide Next, Inv;
    if k == 0 {
      if r[0].jobs != [] {
        assert !Completed(r[0].jobs[0].status);
      }
    } else {
      NothingIsLeftWaiting(r, k - 1);
      RunInvariant(r, k - 1);
      assert Next(r[k - 1], r[k - 1 + 1]);
      NextKeepsAwaited(r[k - 1], r[k]);
    }
  }

  // ----- every transaction can be brought to its end -----

  function Work(jobs: seq<Job>): nat {
    if jobs == [] then 0 else Rank(jobs[0]) + Work(jobs[1..])
  }

  lemma {:induction false} WorkStays(js: seq<Job>, js': seq<Job>)
    requires |js'| == |js| && forall n | 0 <= n < |js| :: Rank(js'[n]) <= Rank(js[n])
    ensures Work(js') <= Work(js)
  {
    hide Rank;
    if js != [] {
      WorkStays(js[1..], js'[1..]);
    }
  }

  lemma {:induction false} WorkShrinks(js: seq<Job>, js': seq<Job>, i: nat)
    requires |js'| == |js| && i < |js| && Rank(js'[i]) < Rank(js[i])
    requires forall n | 0 <= n < |js| :: Rank(js'[n]) <= Rank(js[n])
    ensures Work(js') < Work(js)
  {
    hide Rank;
    if i == 0 {
      WorkStays(js[1..], js'[1..]);
    } else {
      WorkShrinks(js[1..], js'[1..], i - 1);
    }
  }

  lemma {:induction false} FirstInTxn(jobs: seq<Job>, i: nat) returns (f: nat)
    requires i < |jobs| && jobs[i].inTxn
    ensures IsFirst(jobs, f)
  {
    if k :| 0 <= k < i && jobs[k].inTxn {
      f := FirstInTxn(jobs, k);
    } else {
      f := i;
    }
  }

  /** While the transaction aborts, some job can come closer to its end. */
  lemma AbortingProceeds(g: Group, i: nat) returns (g': Group)
    requires Inv(g) && g.aborting && IsFirst(g.jobs, i)
    ensures Next(g, g') && |g'.jobs| == |g.jobs| && Rank(g'.jobs[i]) < Rank(g.jobs[i])
    ensures forall n | 0 <= n < |g'.jobs| && n != i :: g'.jobs[n] == g.jobs[n]
  {
    hide Next, Inv, Rank;
    if g.jobs[i].started {
      g' := AbortProceeds(g, i);
    } else {
      var j := UnstartedProceeds(g, i);
      g' := Set(g, i, j);
    }
  }

  /** A job that was never started is finalized, or can still be started. */
  lemma UnstartedProceeds(g: Group, i: nat) returns (j': Job)
    requires Inv(g) && g.aborting && IsFirst(g.jobs, i) && !g.jobs[i].started
    ensures Next(g, Set(g, i, j')) && Rank(j') < Rank(g.jobs[i])
  {
    var j := g.jobs[i];
    assert JobOk(j) && Doing(g) && (Doomed(j) || Spared(j));
    j' := UnstartedJob(j);
    hide Inv, Doing, JobOk, Doomed, Spared, FinalizeSingle, Go, Rank;
    var g' := Set(g, i, j');
    assert AbortStep(g, g', i) || StartStep(g, g', i);
  }

  lemma UnstartedJob(j: Job) returns (j': Job)
    requires JobOk(j) && j.inTxn && !j.started && (Doomed(j) || Spared(j))
    ensures Rank(j') < Rank(j)
    ensures || (Completed(j.status) && j' == FinalizeSingle(j))
            || (j.status == Created && j' == Go(j.(started := true), Running))
  {
    if Completed(j.status) {
      DoomedOrSpared(j);
      FinalizedFate(j);
      hide FinalizeSingle;
      j' := FinalizeSingle(j);
    } else {
      j' := Go(j.(started := true), Running);
    }
  }

  /** A job that is not completed can come closer to its end, and takes no other further away. */
  lemma AtWorkProceeds(g: Group, i: nat) returns (g': Group)
    requires Inv(g) && Live(g) && i < |g.jobs| && !Completed(g.jobs[i].status)
    ensures Next(g, g') && |g'.jobs| == |g.jobs| && Rank(g'.jobs[i]) < Rank(g.jobs[i])
    ensures forall n | 0 <= n < |g'.jobs| :: Rank(g'.jobs[n]) <= Rank(g.jobs[n])
  {
    var j := g.jobs[i];
    assert JobOk(j) && Quiet(j);
    if j.deferred {
      g' := ExitProceeds(g, i);
    } else {
      hide Inv, Live;
      if !j.started {
        g' := Set(g, i, Go(j.(started := true), Running));
        assert StartStep(g, g', i);
      } else if j.status.Paused? || j.status.Standby? {
        g' := Set(g, i, Go(j, if j.status == Standby then Ready else Running));
        assert UnpauseStep(g, g', i);
      } else {
        g' := Set(g, i, j.(ret := 0, runRet := 0, deferred := true));
        assert ReturnStep(g, g', i, 0);
      }
    }
  }

  lemma ExitProceeds(g: Group, i: nat) returns (g': Group)
    requires Inv(g) && Live(g) && i < |g.jobs| && g.jobs[i].deferred && !Completed(g.jobs[i].status)
    ensures Next(g, g') && |g'.jobs| == |g.jobs| && Rank(g'.jobs[i]) < Rank(g.jobs[i])
    ensures forall n | 0 <= n < |g'.jobs| :: Rank(g'.jobs[n]) <= Rank(g.jobs[n])
  {
    var zero := seq(|g.jobs|, _ => 0);
    g' := CompleteJob(g, i, zero);
    assert ExitStep(g, g', i, zero);
    hide Next, CompleteJob, Inv, Live, Rank, Completed;
    if g.jobs[i].ret != 0 || g.jobs[i].force || !LastOne(g, i) {
      ExitAlone(g, g', i, zero);
    } else {
      ExitTogether(g, g', i, zero);
    }
  }

  /** The job fails, or waits for others. */
  lemma ExitAlone(g: Group, g': Group, i: nat, prep: seq<int>)
    requires Inv(g) && Live(g) && ExitStep(g, g', i, prep)
    requires g.jobs[i].ret != 0 || g.jobs[i].force || !LastOne(g, i)
    ensures |g'.jobs| == |g.jobs| && Rank(g'.jobs[i]) < Rank(g.jobs[i])
    ensures forall n | 0 <= n < |g'.jobs| :: Rank(g'.jobs[n]) <= Rank(g.jobs[n])
  {
    assert Quiet(g.jobs[i]);
    hide CompleteJob, Inv, Live;
    if g.jobs[i].ret != 0 || g.jobs[i].force {
      FailureAborts(g, g', i, prep);
    } else {
      SuccessWaits(g, g', i, prep);
    }
  }

  /** The job was the last one. */
  lemma ExitTogether(g: Group, g': Group, i: nat, prep: seq<int>)
    requires Inv(g) && Live(g) && ExitStep(g, g', i, prep) && forall m | 0 <= m < |prep| :: prep[m] == 0
    requires g.jobs[i].ret == 0 && !g.jobs[i].force && LastOne(g, i)
    ensures |g'.jobs| == |g.jobs| && Rank(g'.jobs[i]) < Rank(g.jobs[i])
    ensures forall n | 0 <= n < |g'.jobs| :: Rank(g'.jobs[n]) <= Rank(g.jobs[n])
  {
    forall n | 0 <= n < |g.jobs|
      ensures g.jobs[n].inTxn
    {
      assert Quiet(g.jobs[n]);
    }
    ExitKeepsInv(g, g', i, prep);
    hide CompleteJob, Inv, Live, LastOne, AllPending, DoFinalize, Rank;
    PendedRank(g.jobs[i]);
    if SomeByHand(g.jobs) {
      LastOnePends(g, g', i, prep);
      forall n | 0 <= n < |g'.jobs|
        ensures Rank(g'.jobs[n]) <= Rank(g.jobs[n]) && Rank(g'.jobs[n]) == 1
      {
        PendedRank(g.jobs[n]);
      }
    } else {
      LastOneCommits(g, g', i, prep);
      forall n | 0 <= n < |g'.jobs|
        ensures Rank(g'.jobs[n]) == 0
      {
        CommittedRank(g', n);
      }
    }
  }

  lemma PendedRank(j: Job)
    requires j.inTxn
    ensures Rank(j.(status := Pending)) == 1 <= Rank(j) && (!Completed(j.status) ==> 1 < Rank(j))
  {
  }

  lemma CommittedRank(g: Group, n: nat)
    requires Inv(g) && AllCommitted(g.jobs) && n < |g.jobs|
    ensures Rank(g.jobs[n]) == 0 && !g.jobs[n].inTxn
  {
    assert JobOk(g.jobs[n]);
  }

  lemma FinalizeProceeds(g: Group) returns (g': Group)
    requires Inv(g) && Live(g) && g.jobs != [] && forall i | 0 <= i < |g.jobs| :: g.jobs[i].status == Pending
    ensures Next(g, g') && |g'.jobs| == |g.jobs| && forall n | 0 <= n < |g'.jobs| :: Rank(g'.jobs[n]) == 0
    ensures Rank(g.jobs[0]) > 0
  {
    assert Quiet(g.jobs[0]);
    var zero := seq(|g.jobs|, _ => 0);
    g' := DoFinalize(g, 0, zero);
    assert FinalizeStep(g, g', 0, zero);
    FinalizeStepKeepsInv(g, g', 0, zero);
    FinalizeMeans(g, g', 0, zero);
    hide DoFinalize, Inv, Live, Quiet;
    forall n | 0 <= n < |g'.jobs|
      ensures Rank(g'.jobs[n]) == 0
    {
      CommittedRank(g', n);
    }
  }

  /** As long as a job is in the transaction, there is a step that brings the transaction closer to
      its end. */
  lemma CanProceed(g: Group, x: nat) returns (g': Group)
    requires Inv(g) && Awaited(g) && x < |g.jobs| && g.jobs[x].inTxn
    ensures Next(g, g') && |g'.jobs| == |g.jobs| && Work(g'.jobs) < Work(g.jobs)
  {
    assert JobOk(g.jobs[x]);
    assert g.aborting || Live(g);
    hide Next, Rank, Inv, JobOk, Completed;
    if g.aborting {
      var i := FirstInTxn(g.jobs, x);
      g' := AbortingProceeds(g, i);
      WorkShrinks(g.jobs, g'.jobs, i);
    } else if i :| 0 <= i < |g.jobs| && !Completed(g.jobs[i].status) {
      g' := AtWorkProceeds(g, i);
      WorkShrinks(g.jobs, g'.jobs, i);
    } else {
      g' := FinalizeProceeds(g);
      WorkShrinks(g.jobs, g'.jobs, 0);
    }
  }

  lemma RunGrows(r: seq<Group>, g: Group)
    requires Run(r) && Next(r[|r| - 1], g)
    ensures Run(r + [g])
  {
    hide Next, Init;
    var t := r + [g];
    forall k | 0 <= k < |t| - 1
      ensures Next(t[k], t[k + 1])
    {
      if k < |r| - 1 {
        assert Next(r[k], r[k + 1]);
      }
    }
  }

  /** However a run has gone, it can go on until every job has left the transaction. */
  lemma {:induction false} CanConclude(r: seq<Group>) returns (t: seq<Group>)
    requires Run(r)
    ensures Run(t) && r <= t && AllLeft(t[|t| - 1])
    decreases Work(r[|r| - 1].jobs)
  {
    hide Next, Init, Inv, Awaited, AllLeft, Work;
    var g := r[|r| - 1];
    RunInvariant(r, |r| - 1);
    NothingIsLeftWaiting(r, |r| - 1);
    if AllLeft(g) {
      t := r;
    } else {
      var x := StillIn(g);
      var g' := CanProceed(g, x);
      RunGrows(r, g');
      hide Run;
      var more := r + [g'];
      assert more[|more| - 1] == g';
      t := CanConclude(more);
    }
  }

  lemma StillIn(g: Group) returns (x: nat)
    requires !AllLeft(g)
    ensures x < |g.jobs| && g.jobs[x].inTxn
  {
    x :| 0 <= x < |g.jobs| && g.jobs[x].inTxn;
  }

  /** Every job has left the transaction. */
  predicate AllLeft(g: Group) {
    forall n | 0 <= n < |g.jobs| :: !g.jobs[n].inTxn
  }

  // ----- results -----

  /** The result of a job that was aborted is its own error, or that it was cancelled. */
  predicate ResultOk(j: Job) {
    Completed(j.status) && j.ret != 0 ==> j.ret == if j.runRet != 0 then j.runRet else -125
  }

  predicate ResultsOk(g: Group) {
    g.prepareFailed || forall i | 0 <= i < |g.jobs| :: ResultOk(g.jobs[i])
  }

  lemma FailedResult(j: Job, j': Job)
    requires JobOk(j) && j.deferred && !Completed(j.status) && (j.ret != 0 || j.force)
    requires j' == j.(status := Aborting, ret := if j.ret != 0 then j.ret else -125)
    ensures ResultOk(j')
  {
  }

  lemma ExitKeepsResults(g: Group, g': Group, i: nat, prep: seq<int>)
    requires Inv(g) && ResultsOk(g) && ExitStep(g, g', i, prep)
    ensures ResultsOk(g')
  {
    ExitKeepsInv(g, g', i, prep);
    assert JobOk(g.jobs[i]);
    hide CompleteJob, DoFinalize, FirstFailing, JobOk;
    if g.aborting {
      EndWhileAborting(g, g', i, prep);
      FailedResult(g.jobs[i], g'.jobs[i]);
    } else if g.jobs[i].ret != 0 || g.jobs[i].force {
      FailureAborts(g, g', i, prep);
      FailedResult(g.jobs[i], g'.jobs[i]);
    } else if !LastOne(g, i) {
      SuccessWaits(g, g', i, prep);
    } else {
      LastOnePends(g, g', i, prep);
      if !SomeByHand(g.jobs) {
        FinalizedResults(g.(jobs := Pended(g.jobs)), i, prep);
      } else {
        forall n | 0 <= n < |g'.jobs|
          ensures ResultOk(g'.jobs[n])
        {
          assert JobOk(g'.jobs[n]);
          PendingResult(g'.jobs[n]);
        }
      }
    }
  }

  lemma PendingResult(j: Job)
    requires JobOk(j) && j.status == Pending
    ensures ResultOk(j)
  {
  }

  lemma FinalizedResults(g: Group, i: nat, prep: seq<int>)
    requires AllPending(g) && i < |g.jobs| == |prep|
    ensures ResultsOk(DoFinalize(g, i, prep))
  {
    var d := DoFinalize(g, i, prep);
    FinalizeKeepsInv(g, i, prep);
    FinalizeSplits(g, i, prep);
    assert d.aborting ==> d.prepareFailed;
    hide DoFinalize, FirstFailing, AllPending;
    if !d.aborting {
      forall n | 0 <= n < |d.jobs|
        ensures ResultOk(d.jobs[n])
      {
        assert JobOk(d.jobs[n]);
      }
    }
  }

  lemma CancelKeepsResults(g: Group, g': Group, i: nat, force: bool, prep: seq<int>)
    requires Inv(g) && ResultsOk(g) && CancelStep(g, g', i, force, prep)
    ensures ResultsOk(g')
  {
    CancelMeans(g, g', i, force, prep);
    CancelledResult(g, g', i, force, prep);
    hide CancelJob, Inv;
  }

  lemma CancelledResult(g: Group, g': Group, i: nat, force: bool, prep: seq<int>)
    requires Inv(g) && ResultsOk(g) && CancelStep(g, g', i, force, prep)
    ensures g'.prepareFailed == g.prepareFailed && i < |g'.jobs| && (g.prepareFailed || ResultOk(g'.jobs[i]))
  {
    var j := g.jobs[i];
    assert JobOk(j);
    MayCancelIsLive(g, i);
    CancelledOk(j, force);
    var a := CancelAsync(j, force);
    var c := a.(userForced := a.userForced || a.force);
    if !j.started {
      UpdatedRc(c);
      hide UpdateRc, TxnSuccess, Inv, Live, JobOk;
    } else {
      hide CompleteJob, Inv, Live;
    }
  }

  lemma FinalizedResult(j: Job)
    requires JobOk(j) && Finalizable(j) && ResultOk(j)
    ensures ResultOk(FinalizeSingle(j))
  {
    FinalizedIs(j);
    hide FinalizeSingle;
  }

  lemma AbortKeepsResults(g: Group, g': Group, i: nat)
    requires Inv(g) && ResultsOk(g) && AbortStep(g, g', i)
    ensures ResultsOk(g')
  {
    var j := g.jobs[i];
    assert JobOk(j) && Doing(g) && (Doomed(j) || Spared(j));
    hide FinalizeSingle, Inv, Doing, Doomed, Spared, Finalizable, JobOk, ResultOk;
    DoomedOrSpared(j);
    if !g.prepareFailed {
      FinalizedResult(j);
    }
  }

  lemma OwnKeepsResults(g: Group, g': Group, i: nat, r: int)
    requires Inv(g) && ResultsOk(g)
    requires || StartStep(g, g', i) || ReadyStep(g, g', i) || PauseStep(g, g', i) || UnpauseStep(g, g', i)
             || ReturnStep(g, g', i, r) || DismissStep(g, g', i)
    ensures ResultsOk(g')
  {
    assert JobOk(g.jobs[i]);
    hide Inv;
    assert g.prepareFailed || ResultOk(g'.jobs[i]);
    hide JobOk, ResultOk, Stt;
  }

  lemma NextKeepsResults(g: Group, g': Group)
    requires Inv(g) && ResultsOk(g) && Next(g, g')
    ensures ResultsOk(g')
  {
    hide Inv, ResultsOk, StartStep, ReadyStep, PauseStep, UnpauseStep, ReturnStep, ExitStep, CancelStep, DismissStep;
    hide AbortStep;
    if i: nat, prep :| ExitStep(g, g', i, prep) {
      ExitKeepsResults(g, g', i, prep);
    } else if i: nat, force, prep :| CancelStep(g, g', i, force, prep) {
      CancelKeepsResults(g, g', i, force, prep);
    } else if i: nat, prep :| FinalizeStep(g, g', i, prep) {
      PendingTogether(g, i);
      FinalizedResults(g, i, prep);
    } else if i: nat :| AbortStep(g, g', i) {
      AbortKeepsResults(g, g', i);
    } else if i: nat, r :| ReturnStep(g, g', i, r) {
      OwnKeepsResults(g, g', i, r);
    } else {
      var i :| StartStep(g, g', i) || ReadyStep(g, g', i) || PauseStep(g, g', i) || UnpauseStep(g, g', i)
          || DismissStep(g, g', i);
      OwnKeepsResults(g, g', i, 0);
    }
  }

  lemma PendingTogether(g: Group, i: nat)
    requires Inv(g) && i < |g.jobs| && g.jobs[i].status == Pending && !g.aborting
    ensures AllPending(g)
  {
    assert JobOk(g.jobs[i]);
  }

  lemma {:induction false} RunResults(r: seq<Group>, k: nat)
    requires Run(r) && k < |r|
    ensures ResultsOk(r[k])
  {
    hide Next, Inv;
    if k > 0 {
      RunResults(r, k - 1);
      RunInvariant(r, k - 1);
      assert Next(r[k - 1], r[k - 1 + 1]);
      NextKeepsResults(r[k - 1], r[k]);
    }
  }

  /** Unless a .prepare failed, a job that was committed ends with result 0, and one that was
      aborted with its own error, or with -ECANCELED if it had none. */
  lemma FinalResult(r: seq<Group>, k: nat, i: nat)
    requires Run(r) && k < |r| && !r[k].prepareFailed && i < |r[k].jobs| && !r[k].jobs[i].inTxn
    ensures var j := r[k].jobs[i];
            && (j.commits == 1 ==> j.ret == 0 && j.runRet == 0)
            && (j.aborts == 1 ==> j.ret == if j.runRet != 0 then j.runRet else -125)
  {
    RunInvariant(r, k);
    RunResults(r, k);
    hide Next;
    assert JobOk(r[k].jobs[i]) && ResultOk(r[k].jobs[i]);
  }
}
