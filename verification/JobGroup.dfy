/** Job transactions (job.c): a group of jobs that completes together.

    The jobs of a group run in their own coroutines and finish in any order.  Everything
    under the job mutex is one step here, and driver callbacks are part of the step that
    makes them; only the abort loop, which waits for other jobs, is several steps. */
module JobGroup {
  datatype Status = Undefined | Created | Running | Paused | Ready | Standby | Waiting | Pending | Aborting
    | Concluded | Null

  /** JobSTT */
  predicate Stt(s0: Status, s1: Status) {
    || (s0.Undefined? && s1.Created?)
    || (s0.Created? && (s1.Running? || s1.Aborting? || s1.Null?))
    || (s0.Running? && (s1.Paused? || s1.Ready? || s1.Waiting? || s1.Aborting?))
    || (s0.Paused? && s1.Running?)
    || (s0.Ready? && (s1.Standby? || s1.Waiting? || s1.Aborting?))
    || (s0.Standby? && s1.Ready?)
    || (s0.Waiting? && (s1.Pending? || s1.Aborting?))
    || (s0.Pending? && (s1.Aborting? || s1.Concluded?))
    || (s0.Aborting? && (s1.Aborting? || s1.Concluded?))
    || (s0.Concluded? && s1.Null?)
  }

  /** The row of JobVerbTable for cancellation. */
  predicate MayCancel(s: Status) {
    s.Created? || s.Running? || s.Paused? || s.Ready? || s.Standby? || s.Waiting? || s.Pending?
  }

  /** Whoever has not begun to abort, and has not concluded, can be cancelled. */
  lemma CancelVerb(s: Status)
    ensures MayCancel(s) <==> s !in {Undefined, Aborting, Concluded, Null}
  {
    match s
    case _ => assert MayCancel(s) <==> s !in {Undefined, Aborting, Concluded, Null};
  }

  /** job_is_completed_locked */
  predicate Completed(s: Status) {
    s.Waiting? || s.Pending? || s.Aborting? || s.Concluded? || s.Null?
  }

  /** A job.  fault records a failed assertion; commits and aborts count the calls of
      .commit and .abort; runRet what .run returned; userForced that a cancel command took effect as a forced one. */
  datatype Job = Job(
    status: Status,
    ret: int,
    started: bool,
    deferred: bool,
    cancelled: bool,
    force: bool,
    autoFinalize: bool,
    autoDismiss: bool,
    inTxn: bool,
    commits: nat,
    aborts: nat,
    runRet: int,
    userForced: bool,
    fault: bool)

  const ECANCELED := 125

  /** job_state_transition_locked */
  function Go(j: Job, s: Status): Job {
    j.(status := if Stt(j.status, s) then s else j.status, fault := j.fault || !Stt(j.status, s))
  }

  /** The result of a job that is force-cancelled but has not failed. */
  function UpdatedRet(j: Job): int {
    if j.ret == 0 && j.force then -ECANCELED else j.ret
  }

  /** job_update_rc_locked */
  function UpdateRc(j: Job): Job {
    var ret := UpdatedRet(j);
    if ret != 0 then Go(j.(ret := ret), Aborting) else j
  }

  /** job_conclude_locked, with job_do_dismiss_locked */
  function Conclude(j: Job): Job {
    if j.autoDismiss || !j.started then Go(Go(j, Concluded), Null) else Go(j, Concluded)
  }

  function AssertCompleted(j: Job): Job {
    j.(fault := j.fault || !Completed(j.status))
  }

  /** .commit or .abort is called, and the job leaves the transaction. */
  function Settle(j: Job): Job {
    j.(commits := j.commits + (if j.ret == 0 then 1 else 0), aborts := j.aborts + (if j.ret != 0 then 1 else 0),
      inTxn := false)
  }

  /** job_finalize_single_locked */
  function FinalizeSingle(j: Job): Job {
    Conclude(Settle(UpdateRc(AssertCompleted(j))))
  }

  /** job_cancel_async_locked, where force is what .cancel returned. */
  function CancelAsync(j: Job, force: bool): Job {
    if force || !j.deferred then j.(cancelled := true, force := j.force || force) else j
  }

  /** job_prepare_locked, where r is what .prepare returns. */
  function Prepare(j: Job, r: int): Job {
    if j.ret == 0 then UpdateRc(j.(ret := r)) else j
  }

  /** A transaction.  initiator is the job on whose behalf it aborts; blamed is false if a
      failing .prepare made it abort on behalf of a job that had not failed. */
  datatype Group = Group(jobs: seq<Job>, aborting: bool, initiator: nat, blamed: bool, prepareFailed: bool)

  function Set(g: Group, i: nat, j: Job): Group
    requires i < |g.jobs|
  {
    g.(jobs := g.jobs[i := j])
  }

  /** The jobs of the transaction changed by f, the others left alone. */
  function MapTxn(jobs: seq<Job>, f: Job -> Job): seq<Job> {
    seq(|jobs|, i requires 0 <= i < |jobs| => if jobs[i].inTxn then f(jobs[i]) else jobs[i])
  }

  /** The jobs with all but a force-cancelled. */
  function CancelOthers(jobs: seq<Job>, a: nat): seq<Job> {
    seq(|jobs|, i requires 0 <= i < |jobs| => if jobs[i].inTxn && i != a then CancelAsync(jobs[i], true) else jobs[i])
  }

  /** The start of job_completed_txn_abort_locked. */
  function TxnAbort(g: Group, a: nat): Group {
    if g.aborting then g
    else g.(aborting := true, initiator := a, jobs := CancelOthers(g.jobs, a))
  }

  /** The job at which job_txn_apply_locked stops when it prepares the jobs in order. */
  function FirstFailing(jobs: seq<Job>, prep: seq<int>, k: nat): nat
    requires k <= |jobs| == |prep|
    decreases |jobs| - k
  {
    if k == |jobs| || (jobs[k].inTxn && Prepare(jobs[k], prep[k]).ret != 0) then k
    else FirstFailing(jobs, prep, k + 1)
  }

  /** The jobs once the first n of them are prepared. */
  function PreparedTo(jobs: seq<Job>, prep: seq<int>, n: nat): seq<Job>
    requires |jobs| == |prep|
  {
    seq(|jobs|, i requires 0 <= i < |jobs| => if jobs[i].inTxn && i < n then Prepare(jobs[i], prep[i]) else jobs[i])
  }

  /** job_do_finalize_locked on behalf of job a. */
  function DoFinalize(g: Group, a: nat, prep: seq<int>): Group
    requires |g.jobs| == |prep|
  {
    var f := FirstFailing(g.jobs, prep, 0);
    if f < |g.jobs| then
      TxnAbort(g.(jobs := PreparedTo(g.jobs, prep, f + 1), blamed := g.blamed && f == a, prepareFailed := true), a)
    else
      g.(jobs := MapTxn(PreparedTo(g.jobs, prep, f), FinalizeSingle))
  }

  predicate AllCompleted(jobs: seq<Job>) {
    forall i | 0 <= i < |jobs| && jobs[i].inTxn :: Completed(jobs[i].status)
  }

  predicate AllAuto(jobs: seq<Job>) {
    forall i | 0 <= i < |jobs| && jobs[i].inTxn :: jobs[i].autoFinalize
  }

  /** The assertion that a completed job has not failed. */
  function CheckRet(j: Job): Job {
    if Completed(j.status) && j.ret != 0 then j.(fault := true) else j
  }

  /** job_transition_to_pending_locked */
  function ToPending(j: Job): Job {
    Go(j, Pending)
  }

  /** The jobs once i waits, with the others checked for success. */
  function Waited(jobs: seq<Job>, i: nat): seq<Job>
    requires i < |jobs|
  {
    MapTxn(jobs[i := Go(jobs[i], Waiting)], CheckRet)
  }

  /** The end of job_completed_txn_success_locked, when no job is left to wait for. */
  function AllWaiting(g: Group, i: nat, prep: seq<int>): Group
    requires |g.jobs| == |prep|
  {
    var p := g.(jobs := MapTxn(g.jobs, ToPending));
    if AllAuto(p.jobs) then DoFinalize(p, i, prep) else p
  }

  /** job_completed_txn_success_locked */
  function TxnSuccess(g: Group, i: nat, prep: seq<int>): Group
    requires i < |g.jobs| == |prep|
  {
    var w := g.(jobs := Waited(g.jobs, i));
    if AllCompleted(w.jobs) then AllWaiting(w, i, prep) else w
  }

  /** job_completed_locked */
  function CompleteJob(g: Group, i: nat, prep: seq<int>): Group
    requires i < |g.jobs| == |prep|
  {
    var u := Set(g, i, UpdateRc(g.jobs[i]));
    if u.jobs[i].ret != 0 then TxnAbort(u, i) else TxnSuccess(u, i, prep)
  }

  // ----- the steps -----

  /** The job's coroutine is running driver code. */
  predicate InDriver(j: Job) {
    j.started && !j.deferred && (j.status.Running? || j.status.Ready?)
  }

  predicate StartStep(g: Group, g': Group, i: nat) {
    && i < |g.jobs| && !g.jobs[i].started && g.jobs[i].status == Created
    && g' == Set(g, i, Go(g.jobs[i].(started := true), Running))
  }

  /** Drivers become ready from RUNNING only. */
  predicate ReadyStep(g: Group, g': Group, i: nat) {
    && i < |g.jobs| && InDriver(g.jobs[i]) && g.jobs[i].status == Running
    && g' == Set(g, i, Go(g.jobs[i], Ready))
  }

  /** job_pause_point_locked up to its yield, if the job is to pause and is not cancelled. */
  predicate PauseStep(g: Group, g': Group, i: nat) {
    && i < |g.jobs| && InDriver(g.jobs[i]) && !g.jobs[i].force
    && g' == Set(g, i, Go(g.jobs[i], if g.jobs[i].status == Ready then Standby else Paused))
  }

  /** job_pause_point_locked from its yield on. */
  predicate UnpauseStep(g: Group, g': Group, i: nat) {
    && i < |g.jobs| && g.jobs[i].started && (g.jobs[i].status.Paused? || g.jobs[i].status.Standby?)
    && g' == Set(g, i, Go(g.jobs[i], if g.jobs[i].status == Standby then Ready else Running))
  }

  /** .run returns r, and job_exit is scheduled. */
  predicate ReturnStep(g: Group, g': Group, i: nat, r: int) {
    && i < |g.jobs| && InDriver(g.jobs[i])
    && g' == Set(g, i, g.jobs[i].(ret := r, runRet := r, deferred := true))
  }

  /** job_exit runs in the main loop. */
  predicate ExitStep(g: Group, g': Group, i: nat, prep: seq<int>) {
    && i < |g.jobs| == |prep| && g.jobs[i].deferred && !Completed(g.jobs[i].status)
    && g' == CompleteJob(g, i, prep)
  }

  /** job_cancel_locked; force is what .cancel returned. */
  function CancelJob(g: Group, i: nat, force: bool, prep: seq<int>): Group
    requires i < |g.jobs| == |prep|
  {
    var j := CancelAsync(g.jobs[i], force);
    var c := Set(g, i, j.(userForced := j.userForced || j.force));
    if !j.started then CompleteJob(c, i, prep)
    else if j.deferred && j.force then TxnAbort(c, i)
    else c
  }

  /** job_user_cancel_locked.  .cancel makes the cancellation a forced one unless the job is
      ready.  Commands do not run while an abort is waiting. */
  predicate CancelStep(g: Group, g': Group, i: nat, force: bool, prep: seq<int>) {
    && i < |g.jobs| == |prep| && MayCancel(g.jobs[i].status) && !g.aborting
    && ((!g.jobs[i].status.Ready? && !g.jobs[i].status.Standby?) ==> force)
    && g' == CancelJob(g, i, force, prep)
  }

  /** job_finalize_locked */
  predicate FinalizeStep(g: Group, g': Group, i: nat, prep: seq<int>) {
    && i < |g.jobs| == |prep| && g.jobs[i].status == Pending && !g.aborting
    && g' == DoFinalize(g, i, prep)
  }

  predicate DismissStep(g: Group, g': Group, i: nat) {
    && i < |g.jobs| && g.jobs[i].status == Concluded
    && g' == Set(g, i, Go(g.jobs[i], Null))
  }

  /** The abort loop finalizes the first job still in the transaction, once it is completed. */
  predicate AbortStep(g: Group, g': Group, i: nat) {
    && g.aborting && IsFirst(g.jobs, i) && Completed(g.jobs[i].status)
    && g' == Set(g, i, FinalizeSingle(g.jobs[i]))
  }

  predicate IsFirst(jobs: seq<Job>, i: nat) {
    i < |jobs| && jobs[i].inTxn && forall k | 0 <= k < i :: !jobs[k].inTxn
  }

  ghost predicate Next(g: Group, g': Group) {
    || (exists i :: StartStep(g, g', i))
    || (exists i :: ReadyStep(g, g', i))
    || (exists i :: PauseStep(g, g', i))
    || (exists i :: UnpauseStep(g, g', i))
    || (exists i, r :: ReturnStep(g, g', i, r))
    || (exists i, prep :: ExitStep(g, g', i, prep))
    || (exists i, force, prep :: CancelStep(g, g', i, force, prep))
    || (exists i, prep :: FinalizeStep(g, g', i, prep))
    || (exists i :: DismissStep(g, g', i))
    || (exists i :: AbortStep(g, g', i))
  }

  predicate Fresh(j: Job) {
    && j.status == Created && j.ret == 0 && j.runRet == 0 && j.inTxn && j.commits == 0 && j.aborts == 0
    && !j.started && !j.deferred && !j.cancelled && !j.force && !j.userForced && !j.fault
  }

  predicate Init(g: Group) {
    && (forall i | 0 <= i < |g.jobs| :: Fresh(g.jobs[i]))
    && !g.aborting && g.blamed && !g.prepareFailed
  }

  ghost predicate Run(r: seq<Group>) {
    && r != [] && Init(r[0])
    && forall k | 0 <= k < |r| - 1 :: Next(r[k], r[k + 1])
  }

  // ----- the invariant -----

  predicate JobOk(j: Job) {
    && !j.fault && (j.force ==> j.cancelled) && (j.userForced ==> j.force) && j.status != Undefined
    && (j.status == Created ==> !j.started && j.ret == 0)
    && (!j.started ==> (j.status.Created? || j.status.Aborting? || j.status.Null?) && !j.deferred && j.runRet == 0)
    && (j.deferred ==> (!j.status.Created? && !j.status.Paused? && !j.status.Standby?))
    && (j.started && !j.deferred ==>
          && (j.status.Running? || j.status.Paused? || j.status.Ready? || j.status.Standby?)
          && j.ret == 0 && j.runRet == 0)
    && ((j.status.Running? || j.status.Ready?) ==> j.ret == j.runRet)
    && ((j.status.Waiting? || j.status.Pending?) ==> j.ret == 0 && j.runRet == 0)
    && (j.status == Aborting ==> j.ret != 0)
    && (j.inTxn <==> (!j.status.Concluded? && !j.status.Null?))
    && j.commits + j.aborts == (if j.inTxn then 0 else 1)
    && (j.commits == 1 ==> j.ret == 0 && j.runRet == 0 && !j.force)
    && (j.aborts == 1 ==> j.ret != 0)
  }

  /** A job of a transaction in which nothing has gone wrong so far. */
  predicate Quiet(j: Job) {
    j.inTxn && j.status != Aborting && (Completed(j.status) ==> !j.force) && (j.force ==> j.userForced)
  }

  /** A job that is going to be aborted, or has been. */
  predicate Doomed(j: Job) {
    if j.inTxn then j.force || (Completed(j.status) && j.ret != 0) else j.aborts == 1
  }

  /** A job that is going to be committed although others are aborted. */
  predicate Spared(j: Job) {
    if j.inTxn then j.status == Pending && !j.force else j.commits == 1
  }

  predicate Live(g: Group) {
    && !g.aborting && g.blamed && !g.prepareFailed
    && (forall i | 0 <= i < |g.jobs| :: Quiet(g.jobs[i]))
    && (forall i, k | 0 <= i < |g.jobs| && 0 <= k < |g.jobs| && g.jobs[i].status == Pending ::
        g.jobs[k].status == Pending)
  }

  predicate Finished(g: Group) {
    && !g.aborting && g.blamed && !g.prepareFailed
    && (forall i | 0 <= i < |g.jobs| :: g.jobs[i].commits == 1)
  }

  predicate Blamable(j: Job) {
    j.userForced || j.runRet != 0
  }

  predicate Doing(g: Group) {
    && g.aborting && g.initiator < |g.jobs|
    && (forall i | 0 <= i < |g.jobs| && i != g.initiator :: Doomed(g.jobs[i]))
    && (if g.blamed then Doomed(g.jobs[g.initiator])
        else Spared(g.jobs[g.initiator]) && |g.jobs| > 1 && g.prepareFailed)
    && (g.prepareFailed || exists i :: 0 <= i < |g.jobs| && Blamable(g.jobs[i]))
  }

  predicate Inv(g: Group) {
    && (forall i | 0 <= i < |g.jobs| :: JobOk(g.jobs[i]))
    && (Live(g) || Finished(g) || Doing(g))
  }

  // ----- steps of one job -----

  /** What the steps of a job's own coroutine leave alone. */
  predicate Mild(j: Job, j': Job) {
    && j'.inTxn == j.inTxn && j'.commits == j.commits && j'.aborts == j.aborts && j'.force == j.force
       && j'.userForced == j.userForced
    && (Completed(j'.status) <==> Completed(j.status)) && (Completed(j.status) ==> j'.ret == j.ret)
    && (j'.status == Pending <==> j.status == Pending) && (j'.status == Aborting <==> j.status == Aborting)
    && (j.runRet != 0 ==> j'.runRet != 0)
  }

  /** While the transaction aborts, a job may change as long as its fate does not. */
  lemma SameFateKeepsInv(g: Group, i: nat, j: Job)
    requires Inv(g) && Doing(g) && i < |g.jobs| && JobOk(j)
    requires (Doomed(g.jobs[i]) ==> Doomed(j)) && (Spared(g.jobs[i]) ==> Spared(j))
             && (Blamable(g.jobs[i]) ==> Blamable(j))
    ensures Inv(Set(g, i, j)) && Doing(Set(g, i, j))
  {
    hide JobOk, Doomed, Spared, Blamable;
    var g' := Set(g, i, j);
    if !g.prepareFailed {
      var k :| 0 <= k < |g.jobs| && Blamable(g.jobs[k]);
      assert Blamable(g'.jobs[k]);
    }
  }

  lemma MildKeepsInv(g: Group, i: nat, j: Job)
    requires Inv(g) && i < |g.jobs| && JobOk(j) && Mild(g.jobs[i], j)
    ensures Inv(Set(g, i, j))
  {
    var g' := Set(g, i, j);
    if Doing(g) {
      SameFateKeepsInv(g, i, j);
    } else if Live(g) {
      hide JobOk;
      assert Live(g');
    } else {
      hide JobOk;
      assert Finished(g');
    }
  }

  lemma StartedOk(j: Job)
    requires JobOk(j) && !j.started && j.status.Created?
    ensures var j' := Go(j.(started := true), Running); JobOk(j') && Mild(j, j')
  {
  }

  lemma CoroutineOk(j: Job, s: Status)
    requires JobOk(j) && j.started && !j.deferred
    requires (j.status.Running? && (s.Ready? || s.Paused?)) || (j.status.Ready? && s.Standby?)
             || (j.status.Paused? && s.Running?) || (j.status.Standby? && s.Ready?)
    ensures JobOk(Go(j, s)) && Mild(j, Go(j, s))
  {
  }

  lemma ReturnedOk(j: Job, r: int)
    requires JobOk(j) && InDriver(j)
    ensures var j' := j.(ret := r, runRet := r, deferred := true); JobOk(j') && Mild(j, j')
  {
  }

  lemma DismissedOk(j: Job)
    requires JobOk(j) && j.status.Concluded?
    ensures JobOk(Go(j, Null)) && Mild(j, Go(j, Null))
  {
  }

  lemma PausedIsNotDeferred(j: Job)
    requires JobOk(j) && (j.status.Paused? || j.status.Standby?)
    ensures !j.deferred
  {
  }

  /** The steps of a job's own coroutine change that job alone, and mildly. */
  lemma OwnStepIsMild(g: Group, g': Group, i: nat, r: int)
    requires i < |g.jobs| && JobOk(g.jobs[i])
    requires StartStep(g, g', i) || ReadyStep(g, g', i) || PauseStep(g, g', i) || UnpauseStep(g, g', i)
             || ReturnStep(g, g', i, r) || DismissStep(g, g', i)
    ensures |g'.jobs| == |g.jobs| && g' == Set(g, i, g'.jobs[i])
    ensures JobOk(g'.jobs[i]) && Mild(g.jobs[i], g'.jobs[i])
  {
    hide JobOk, Mild, Go;
    var j := g.jobs[i];
    if StartStep(g, g', i) {
      StartedOk(j);
    } else if ReturnStep(g, g', i, r) {
      ReturnedOk(j, r);
    } else if DismissStep(g, g', i) {
      DismissedOk(j);
    } else if ReadyStep(g, g', i) {
      CoroutineOk(j, Ready);
    } else if PauseStep(g, g', i) {
      CoroutineOk(j, if j.status == Ready then Standby else Paused);
    } else {
      PausedIsNotDeferred(j);
      CoroutineOk(j, if j.status == Standby then Ready else Running);
    }
  }

  lemma OwnStepKeepsInv(g: Group, g': Group, i: nat, r: int)
    requires Inv(g)
             && (StartStep(g, g', i) || ReadyStep(g, g', i) || PauseStep(g, g', i) || UnpauseStep(g, g', i)
                 || ReturnStep(g, g', i, r) || DismissStep(g, g', i))
    ensures Inv(g')
  {
    assert i < |g.jobs| && JobOk(g.jobs[i]);
    hide *;
    OwnStepIsMild(g, g', i, r);
    MildKeepsInv(g, i, g'.jobs[i]);
  }

  // ----- aborting -----

  /** Aborting on behalf of a job that is doomed itself. */
  lemma TxnAbortKeepsInv(g: Group, a: nat)
    requires (forall i | 0 <= i < |g.jobs| :: JobOk(g.jobs[i])) && a < |g.jobs| && g.blamed
    requires !g.aborting && (forall i | 0 <= i < |g.jobs| && i != a :: g.jobs[i].inTxn)
    requires g.jobs[a].inTxn && Doomed(g.jobs[a]) && (g.prepareFailed || Blamable(g.jobs[a]))
    ensures Inv(TxnAbort(g, a))
  {
  }

  /** Completing a job that is going to fail, while the transaction aborts. */
  lemma FailWhileAborting(g: Group, i: nat, prep: seq<int>)
    requires Inv(g) && g.aborting && i < |g.jobs| == |prep| && g.jobs[i].deferred && !Completed(g.jobs[i].status)
    ensures Inv(CompleteJob(g, i, prep))
  {
    assert JobOk(g.jobs[i]) && Doing(g);
    assert g.blamed || i != g.initiator;
    FailedFate(g.jobs[i]);
    hide UpdateRc, JobOk, Doomed, Spared, Blamable;
    SameFateKeepsInv(g, i, UpdateRc(g.jobs[i]));
  }

  lemma FailedFate(j: Job)
    requires JobOk(j) && Doomed(j) && j.deferred && !Completed(j.status)
    ensures var u := UpdateRc(j); JobOk(u) && Doomed(u) && u.ret != 0 && (Blamable(j) ==> Blamable(u)) && !Spared(j)
  {
  }

  lemma AbortStepKeepsInv(g: Group, g': Group, i: nat)
    requires Inv(g) && AbortStep(g, g', i)
    ensures Inv(g')
  {
    assert JobOk(g.jobs[i]) && Doing(g);
    DoomedOrSpared(g.jobs[i]);
    FinalizedOk(g.jobs[i]);
    FinalizedFate(g.jobs[i]);
    hide FinalizeSingle, JobOk, Doomed, Spared, Blamable;
    SameFateKeepsInv(g, i, FinalizeSingle(g.jobs[i]));
  }

  /** A job that failed or was force-cancelled starts to abort; another is left alone. */
  lemma UpdatedRc(j: Job)
    requires JobOk(j) && j.inTxn && !j.status.Paused? && !j.status.Standby?
    ensures UpdateRc(j) == j.(ret := UpdatedRet(j), status := if UpdatedRet(j) != 0 then Aborting else j.status)
  {
  }

  /** A job that can be finalized without breaking the table. */
  predicate Finalizable(j: Job) {
    && !j.fault && j.commits == 0 && j.aborts == 0 && (j.status.Waiting? || j.status.Pending? || j.status.Aborting?)
    && (j.ret == 0 && !j.force ==> j.status.Pending?)
  }

  lemma FinalizedIs(j: Job)
    requires Finalizable(j)
    ensures var f := FinalizeSingle(j);
            && f.ret == UpdatedRet(j) && !f.inTxn
               && f.status == (if j.autoDismiss || !j.started then Null else Concluded)
            && f.commits == (if f.ret == 0 then 1 else 0) && f.aborts == (if f.ret == 0 then 0 else 1)
            && f.force == j.force && f.cancelled == j.cancelled && f.userForced == j.userForced && f.runRet == j.runRet
            && f.started == j.started && f.deferred == j.deferred && !f.fault
  {
    hide Go, Stt, UpdateRc, Conclude, Completed;
    AssertedIs(j);
    RcIs(j);
    ConcludedIs(Settle(UpdateRc(j)));
  }

  lemma AssertedIs(j: Job)
    requires Finalizable(j)
    ensures AssertCompleted(j) == j
  {
  }

  lemma RcIs(j: Job)
    requires Finalizable(j)
    ensures UpdateRc(j) == j.(ret := UpdatedRet(j), status := if UpdatedRet(j) == 0 then Pending else Aborting)
  {
  }

  lemma DoomedOrSpared(j: Job)
    requires JobOk(j) && j.inTxn && Completed(j.status) && (Doomed(j) || Spared(j))
    ensures Finalizable(j)
  {
  }

  lemma FinalizedOk(j: Job)
    requires JobOk(j) && Finalizable(j)
    ensures JobOk(FinalizeSingle(j))
  {
    FinalizedIs(j);
    hide FinalizeSingle, Finalizable;
  }

  /** What finalizing a completed job makes of it. */
  lemma FinalizedFate(j: Job)
    requires JobOk(j) && Finalizable(j) && j.inTxn
    ensures var f := FinalizeSingle(j);
            (Doomed(j) ==> Doomed(f)) && (Spared(j) ==> Spared(f)) && (Blamable(j) ==> Blamable(f)) && !f.inTxn
  {
    FinalizedIs(j);
    hide FinalizeSingle, Finalizable;
  }

  lemma ConcludedIs(j: Job)
    requires j.status.Pending? || j.status.Aborting?
    ensures Conclude(j) == j.(status := if j.autoDismiss || !j.started then Null else Concluded)
  {
  }

  // ----- finalizing -----

  predicate AllPending(g: Group) {
    Live(g) && forall i | 0 <= i < |g.jobs| :: JobOk(g.jobs[i]) && g.jobs[i].status == Pending
  }

  lemma {:induction false} FirstFailingIs(jobs: seq<Job>, prep: seq<int>, k: nat)
    requires k <= |jobs| == |prep|
    ensures var f := FirstFailing(jobs, prep, k);
            && k <= f <= |jobs|
            && (forall i | k <= i < f && jobs[i].inTxn :: Prepare(jobs[i], prep[i]).ret == 0)
            && (f < |jobs| ==> jobs[f].inTxn && Prepare(jobs[f], prep[f]).ret != 0)
    decreases |jobs| - k
  {
    if !(k == |jobs| || (jobs[k].inTxn && Prepare(jobs[k], prep[k]).ret != 0)) {
      FirstFailingIs(jobs, prep, k + 1);
    }
  }

  lemma PreparePending(j: Job, r: int)
    requires JobOk(j) && j.status == Pending && !j.force
    ensures r == 0 ==> Prepare(j, r) == j
    ensures r != 0 ==> JobOk(Prepare(j, r)) && Doomed(Prepare(j, r)) && Prepare(j, r).inTxn && Prepare(j, r).ret != 0
  {
  }

  /** All jobs are prepared and committed, or one of them fails to prepare and the
      transaction aborts. */
  lemma FinalizeKeepsInv(g: Group, a: nat, prep: seq<int>)
    requires AllPending(g) && a < |g.jobs| == |prep|
    ensures Inv(DoFinalize(g, a, prep))
  {
    var f := FirstFailing(g.jobs, prep, 0);
    FirstFailingIs(g.jobs, prep, 0);
    forall i | 0 <= i < |g.jobs|
      ensures i < f ==> PreparedTo(g.jobs, prep, f + 1)[i] == g.jobs[i] && PreparedTo(g.jobs, prep, f)[i] == g.jobs[i]
      ensures i == f ==> var j := PreparedTo(g.jobs, prep, f + 1)[i]; JobOk(j) && j.inTxn && Doomed(j)
    {
      assert JobOk(g.jobs[i]) && Quiet(g.jobs[i]);
      PreparePending(g.jobs[i], prep[i]);
    }
    if f < |g.jobs| {
      PrepareFailedKeepsInv(g, a, prep, f);
    } else {
      assert PreparedTo(g.jobs, prep, f) == g.jobs;
      CommitKeepsInv(g);
    }
  }

  lemma PrepareFailedKeepsInv(g: Group, a: nat, prep: seq<int>, f: nat)
    requires AllPending(g) && a < |g.jobs| == |prep| && f < |g.jobs|
    requires forall i | 0 <= i < f :: PreparedTo(g.jobs, prep, f + 1)[i] == g.jobs[i]
    requires var j := PreparedTo(g.jobs, prep, f + 1)[f]; JobOk(j) && j.inTxn && Doomed(j)
    ensures var jobs := PreparedTo(g.jobs, prep, f + 1);
            Inv(TxnAbort(g.(jobs := jobs, blamed := g.blamed && f == a, prepareFailed := true), a))
  {
    var p := g.(jobs := PreparedTo(g.jobs, prep, f + 1), blamed := g.blamed && f == a, prepareFailed := true);
    var g' := TxnAbort(p, a);
    forall i | 0 <= i < |g.jobs|
      ensures JobOk(p.jobs[i]) && p.jobs[i].inTxn && (i != f ==> p.jobs[i] == g.jobs[i] && Spared(p.jobs[i]))
    {
      assert JobOk(g.jobs[i]) && Quiet(g.jobs[i]);
    }
    forall i | 0 <= i < |g.jobs|
      ensures JobOk(g'.jobs[i]) && (i != a ==> Doomed(g'.jobs[i]))
    {
    }
    assert Doing(g');
  }

  lemma CommitKeepsInv(g: Group)
    requires AllPending(g)
    ensures Inv(g.(jobs := MapTxn(g.jobs, FinalizeSingle))) && Finished(g.(jobs := MapTxn(g.jobs, FinalizeSingle)))
  {
    var g' := g.(jobs := MapTxn(g.jobs, FinalizeSingle));
    forall i | 0 <= i < |g.jobs|
      ensures JobOk(g'.jobs[i]) && g'.jobs[i].commits == 1
    {
      assert JobOk(g.jobs[i]) && Quiet(g.jobs[i]) && Spared(g.jobs[i]);
      DoomedOrSpared(g.jobs[i]);
      FinalizedOk(g.jobs[i]);
      FinalizedFate(g.jobs[i]);
    }
  }

  // ----- completing a job -----

  /** Completing a job of a transaction in which nothing has gone wrong. */
  lemma CompleteKeepsInv(g: Group, i: nat, prep: seq<int>)
    requires Inv(g) && !g.aborting && i < |g.jobs| == |prep| && !Completed(g.jobs[i].status)
    requires g.jobs[i].deferred || (g.jobs[i].force && g.jobs[i].status == Created)
    requires g.jobs[i].force ==> g.jobs[i].userForced
    ensures Inv(CompleteJob(g, i, prep))
  {
    var j := UpdateRc(g.jobs[i]);
    assert JobOk(g.jobs[i]) && Live(g);
    if j.ret != 0 {
      assert JobOk(j);
      TxnAbortKeepsInv(Set(g, i, j), i);
    } else {
      assert Set(g, i, j) == g;
      hide UpdateRc, JobOk;
      WaitKeepsInv(g, i);
      var w := g.(jobs := Waited(g.jobs, i));
      if AllCompleted(w.jobs) {
        PendKeepsInv(w);
        var p := w.(jobs := MapTxn(w.jobs, ToPending));
        if AllAuto(p.jobs) {
          FinalizeKeepsInv(p, i, prep);
        }
      }
    }
  }

  lemma WaitKeepsInv(g: Group, i: nat)
    requires Inv(g) && Live(g) && i < |g.jobs| && !Completed(g.jobs[i].status) && g.jobs[i].deferred
    requires g.jobs[i].ret == 0 && !g.jobs[i].force
    ensures var w := g.(jobs := Waited(g.jobs, i));
            Inv(w) && Live(w) && forall k | 0 <= k < |w.jobs| :: w.jobs[k].status != Pending
  {
    assert JobOk(g.jobs[i]);
    var w := g.(jobs := Waited(g.jobs, i));
    forall k | 0 <= k < |w.jobs|
      ensures JobOk(w.jobs[k]) && Quiet(w.jobs[k]) && w.jobs[k].status != Pending
    {
      assert JobOk(g.jobs[k]) && Quiet(g.jobs[k]);
      CheckedOk(g.jobs[k]);
      WaitingOk(g.jobs[i]);
    }
  }

  lemma CheckedOk(j: Job)
    requires JobOk(j) && Quiet(j)
    ensures CheckRet(j) == j
  {
  }

  lemma WaitingOk(j: Job)
    requires JobOk(j) && j.inTxn && j.deferred && !Completed(j.status) && j.ret == 0 && !j.force
    ensures var w := Go(j, Waiting); JobOk(w) && Quiet(w) && w.status == Waiting && CheckRet(w) == w
  {
  }

  lemma PendKeepsInv(w: Group)
    requires Inv(w) && Live(w) && AllCompleted(w.jobs) && forall k | 0 <= k < |w.jobs| :: w.jobs[k].status != Pending
    ensures var p := w.(jobs := MapTxn(w.jobs, ToPending)); Inv(p) && AllPending(p)
  {
    var p := w.(jobs := MapTxn(w.jobs, ToPending));
    forall k | 0 <= k < |w.jobs|
      ensures JobOk(p.jobs[k]) && Quiet(p.jobs[k]) && p.jobs[k].status == Pending
    {
      assert JobOk(w.jobs[k]) && Quiet(w.jobs[k]);
    }
  }

  // ----- cancelling a job -----

  lemma CancelKeepsInv(g: Group, g': Group, i: nat, force: bool, prep: seq<int>)
    requires Inv(g) && CancelStep(g, g', i, force, prep)
    ensures Inv(g')
  {
    var j := g.jobs[i];
    var a := CancelAsync(j, force);
    var c := a.(userForced := a.userForced || a.force);
    assert JobOk(j);
    CancelledOk(j, force);
    MayCancelIsLive(g, i);
    if !j.started {
      CancelUnstartedKeepsInv(g, i, c, prep);
    } else if c.deferred && c.force {
      TxnAbortKeepsInv(Set(g, i, c), i);
    } else {
      SoftKeepsInv(g, i, c);
    }
  }

  lemma MayCancelIsLive(g: Group, i: nat)
    requires Inv(g) && !g.aborting && i < |g.jobs| && MayCancel(g.jobs[i].status)
    ensures Live(g)
  {
    assert JobOk(g.jobs[i]);
  }

  lemma CancelledOk(j: Job, force: bool)
    requires JobOk(j) && MayCancel(j.status)
    ensures var a := CancelAsync(j, force); var c := a.(userForced := a.userForced || a.force);
            && JobOk(c) && c.inTxn && (c.force ==> Doomed(c) && Blamable(c))
            && c.status == j.status && c.started == j.started && c.deferred == j.deferred
               && (!j.started ==> c.status.Created?)
            && (j.deferred && !force ==> c.force == j.force) && (force ==> c.force)
  {
  }

  /** A cancellation that does not abort the transaction at once. */
  lemma SoftKeepsInv(g: Group, i: nat, c: Job)
    requires Inv(g) && Live(g) && i < |g.jobs| && JobOk(c) && c.inTxn && c.status == g.jobs[i].status && c.started
             && !(c.deferred && c.force) && (c.force ==> c.userForced)
    ensures Inv(Set(g, i, c))
  {
    assert Quiet(g.jobs[i]);
    assert Quiet(c);
    hide JobOk, Quiet;
    assert Live(Set(g, i, c));
  }

  lemma CancelUnstartedKeepsInv(g: Group, i: nat, c: Job, prep: seq<int>)
    requires Inv(g) && Live(g) && i < |g.jobs| == |prep| && JobOk(c) && c.inTxn && c.status.Created? && c.force
             && Blamable(c)
    ensures Inv(CompleteJob(Set(g, i, c), i, prep))
  {
    UpdatedRc(c);
    var u := UpdateRc(c);
    assert u.ret != 0;
    assert JobOk(u) && Doomed(u) && Blamable(u);
    forall k | 0 <= k < |g.jobs|
      ensures g.jobs[k].inTxn
    {
      assert Quiet(g.jobs[k]);
    }
    assert CompleteJob(Set(g, i, c), i, prep) == TxnAbort(Set(g, i, u), i) by {
      assert Set(Set(g, i, c), i, u) == Set(g, i, u);
    }
    hide JobOk, Doomed, Blamable, UpdateRc;
    TxnAbortKeepsInv(Set(g, i, u), i);
  }

  // ----- all steps, all runs -----

  lemma ExitKeepsInv(g: Group, g': Group, i: nat, prep: seq<int>)
    requires Inv(g) && ExitStep(g, g', i, prep)
    ensures Inv(g')
  {
    if g.aborting {
      FailWhileAborting(g, i, prep);
    } else {
      CompleteKeepsInv(g, i, prep);
    }
  }

  lemma FinalizeStepKeepsInv(g: Group, g': Group, i: nat, prep: seq<int>)
    requires Inv(g) && FinalizeStep(g, g', i, prep)
    ensures Inv(g')
  {
    assert JobOk(g.jobs[i]);
    assert AllPending(g);
    FinalizeKeepsInv(g, i, prep);
  }

  lemma NextKeepsInv(g: Group, g': Group)
    requires Inv(g) && Next(g, g')
    ensures Inv(g')
  {
    hide Inv, StartStep, ReadyStep, PauseStep, UnpauseStep, ReturnStep, ExitStep, CancelStep, FinalizeStep,
         DismissStep, AbortStep;
    if i: nat, prep :| ExitStep(g, g', i, prep) {
      ExitKeepsInv(g, g', i, prep);
    } else if i: nat, force, prep :| CancelStep(g, g', i, force, prep) {
      CancelKeepsInv(g, g', i, force, prep);
    } else if i: nat, prep :| FinalizeStep(g, g', i, prep) {
      FinalizeStepKeepsInv(g, g', i, prep);
    } else if i: nat :| AbortStep(g, g', i) {
      AbortStepKeepsInv(g, g', i);
    } else if i: nat, r :| ReturnStep(g, g', i, r) {
      OwnStepKeepsInv(g, g', i, r);
    } else {
      var i :| StartStep(g, g', i) || ReadyStep(g, g', i) || PauseStep(g, g', i) || UnpauseStep(g, g', i)
          || DismissStep(g, g', i);
      OwnStepKeepsInv(g, g', i, 0);
    }
  }

  lemma {:induction false} RunInvariant(r: seq<Group>, k: nat)
    requires Run(r) && k < |r|
    ensures Inv(r[k])
  {
    hide Next;
    if k == 0 {
      assert Live(r[0]);
    } else {
      RunInvariant(r, k - 1);
      NextKeepsInv(r[k - 1], r[k]);
    }
  }

  // ----- what holds in every run -----

  /** No status change breaks JobSTT and no assertion fails. */
  lemma NoFault(r: seq<Group>, k: nat, i: nat)
    requires Run(r) && k < |r| && i < |r[k].jobs|
    ensures !r[k].jobs[i].fault
  {
    RunInvariant(r, k);
    assert JobOk(r[k].jobs[i]);
  }

  /** No job goes back from completed. */
  predicate KeepsCompleted(js: seq<Job>, js': seq<Job>) {
    |js'| == |js| && forall i | 0 <= i < |js| && Completed(js[i].status) :: Completed(js'[i].status)
  }

  lemma GoKeeps(j: Job, s: Status)
    ensures Completed(j.status) ==> Completed(Go(j, s).status)
  {
  }

  lemma RcKeeps(j: Job, r: int)
    ensures Completed(j.status) ==> Completed(UpdateRc(j).status) && Completed(Prepare(j, r).status)
  {
  }

  lemma FinalizeKeeps(j: Job)
    ensures Completed(j.status) ==> Completed(FinalizeSingle(j).status)
  {
    var u := UpdateRc(AssertCompleted(j));
    RcKeeps(AssertCompleted(j), 0);
    GoKeeps(Settle(u), Concluded);
    GoKeeps(Go(Settle(u), Concluded), Null);
    hide Go, UpdateRc, Completed;
  }

  lemma PreparedKeeps(js: seq<Job>, prep: seq<int>, n: nat)
    requires |js| == |prep|
    ensures KeepsCompleted(js, PreparedTo(js, prep, n))
  {
  }

  lemma FinalizedKeeps(js: seq<Job>)
    ensures KeepsCompleted(js, MapTxn(js, FinalizeSingle))
  {
    hide Completed, FinalizeSingle;
    forall i | 0 <= i < |js| && Completed(js[i].status)
      ensures Completed(MapTxn(js, FinalizeSingle)[i].status)
    {
      FinalizeKeeps(js[i]);
    }
  }

  lemma TxnAbortKeeps(g: Group, a: nat)
    ensures KeepsCompleted(g.jobs, TxnAbort(g, a).jobs)
  {
  }

  lemma DoFinalizeKeeps(g: Group, a: nat, prep: seq<int>)
    requires |prep| == |g.jobs|
    ensures KeepsCompleted(g.jobs, DoFinalize(g, a, prep).jobs)
  {
    var f := FirstFailing(g.jobs, prep, 0);
    PreparedKeeps(g.jobs, prep, f + 1);
    PreparedKeeps(g.jobs, prep, f);
    FinalizedKeeps(PreparedTo(g.jobs, prep, f));
    TxnAbortKeeps(g.(jobs := PreparedTo(g.jobs, prep, f + 1), blamed := g.blamed && f == a, prepareFailed := true), a);
    hide Completed, PreparedTo, MapTxn, TxnAbort, FirstFailing;
  }

  lemma SetKeeps(g: Group, i: nat, j: Job)
    requires i < |g.jobs| && (Completed(g.jobs[i].status) ==> Completed(j.status))
    ensures KeepsCompleted(g.jobs, Set(g, i, j).jobs)
  {
  }

  lemma WaitedKeeps(js: seq<Job>)
    ensures KeepsCompleted(js, MapTxn(js, CheckRet)) && KeepsCompleted(js, MapTxn(js, ToPending))
  {
    forall i | 0 <= i < |js| && Completed(js[i].status)
      ensures Completed(MapTxn(js, CheckRet)[i].status)
    {
      var j := CheckRet(js[i]);
    }
    forall i | 0 <= i < |js| && Completed(js[i].status)
      ensures Completed(MapTxn(js, ToPending)[i].status)
    {
      var j := ToPending(js[i]);
    }
  }

  lemma CompleteJobKeeps(g: Group, i: nat, prep: seq<int>)
    requires i < |g.jobs| == |prep|
    ensures KeepsCompleted(g.jobs, CompleteJob(g, i, prep).jobs)
  {
    var u := Set(g, i, UpdateRc(g.jobs[i]));
    RcKeeps(g.jobs[i], 0);
    SetKeeps(g, i, UpdateRc(g.jobs[i]));
    TxnAbortKeeps(u, i);
    SuccessKeeps(u, i, prep);
    hide Completed, UpdateRc, TxnAbort, TxnSuccess;
  }

  lemma SuccessKeeps(g: Group, i: nat, prep: seq<int>)
    requires i < |g.jobs| == |prep|
    ensures KeepsCompleted(g.jobs, TxnSuccess(g, i, prep).jobs)
  {
    GoKeeps(g.jobs[i], Waiting);
    SetKeeps(g, i, Go(g.jobs[i], Waiting));
    WaitedKeeps(g.jobs[i := Go(g.jobs[i], Waiting)]);
    var w := g.(jobs := Waited(g.jobs, i));
    WaitedKeeps(w.jobs);
    DoFinalizeKeeps(w.(jobs := MapTxn(w.jobs, ToPending)), i, prep);
    hide Completed, Go, MapTxn, DoFinalize;
  }

  lemma CancelKeeps(g: Group, i: nat, force: bool, prep: seq<int>)
    requires i < |g.jobs| == |prep|
    ensures KeepsCompleted(g.jobs, CancelJob(g, i, force, prep).jobs)
  {
    var a := CancelAsync(g.jobs[i], force);
    var j := a.(userForced := a.userForced || a.force);
    SetKeeps(g, i, j);
    CompleteJobKeeps(Set(g, i, j), i, prep);
    TxnAbortKeeps(Set(g, i, j), i);
    hide Completed, CompleteJob, TxnAbort;
  }

  lemma OwnStepKeeps(g: Group, g': Group, i: nat, r: int)
    requires StartStep(g, g', i) || ReadyStep(g, g', i) || PauseStep(g, g', i) || UnpauseStep(g, g', i)
             || ReturnStep(g, g', i, r) || DismissStep(g, g', i)
    ensures KeepsCompleted(g.jobs, g'.jobs)
  {
    assert Completed(g.jobs[i].status) ==> Completed(g'.jobs[i].status);
    SetKeeps(g, i, g'.jobs[i]);
  }

  lemma NextKeeps(g: Group, g': Group)
    requires Next(g, g')
    ensures KeepsCompleted(g.jobs, g'.jobs)
  {
    hide KeepsCompleted, CompleteJob, CancelJob, DoFinalize, FinalizeSingle, StartStep, ReadyStep, PauseStep,
         UnpauseStep, ReturnStep, DismissStep;
    if i: nat, prep :| ExitStep(g, g', i, prep) {
      CompleteJobKeeps(g, i, prep);
    } else if i: nat, force, prep :| CancelStep(g, g', i, force, prep) {
      CancelKeeps(g, i, force, prep);
    } else if i: nat, prep :| FinalizeStep(g, g', i, prep) {
      DoFinalizeKeeps(g, i, prep);
    } else if i: nat :| AbortStep(g, g', i) {
      FinalizeKeeps(g.jobs[i]);
      SetKeeps(g, i, FinalizeSingle(g.jobs[i]));
    } else if i: nat, r :| ReturnStep(g, g', i, r) {
      OwnStepKeeps(g, g', i, r);
    } else {
      var i :| StartStep(g, g', i) || ReadyStep(g, g', i) || PauseStep(g, g', i) || UnpauseStep(g, g', i)
          || DismissStep(g, g', i);
      OwnStepKeeps(g, g', i, 0);
    }
  }

  /** A completed job stays completed, and the group stays the same. */
  lemma {:induction false} CompletedStays(r: seq<Group>, k: nat, n: nat)
    requires Run(r) && k <= n < |r|
    ensures KeepsCompleted(r[k].jobs, r[n].jobs)
    decreases n - k
  {
    hide Next, Init, Completed;
    if k < n {
      CompletedStays(r, k, n - 1);
      NextKeeps(r[n - 1], r[n]);
    }
  }

  /** While a transaction aborts, the job it waits for has been told to stop. */
  lemma AbortWaitsOnCancelled(r: seq<Group>, k: nat, i: nat)
    requires Run(r) && k < |r| && r[k].aborting && IsFirst(r[k].jobs, i) && !Completed(r[k].jobs[i].status)
    ensures r[k].jobs[i].force && r[k].jobs[i].cancelled
  {
    RunInvariant(r, k);
    assert JobOk(r[k].jobs[i]) && Doing(r[k]);
  }

  /** How far a job is from having left the transaction. */
  function Rank(j: Job): nat {
    if !j.inTxn then 0
    else if Completed(j.status) then 1
    else if j.deferred then 2
    else if InDriver(j) then 3
    else if j.started then 4
    else 5
  }

  /** An abort is never stuck on a job that was started: the job can come closer to its end. */
  lemma AbortCanProceed(r: seq<Group>, k: nat, i: nat) returns (g': Group)
    requires Run(r) && k < |r| && r[k].aborting && IsFirst(r[k].jobs, i) && r[k].jobs[i].started
    ensures Next(r[k], g') && |g'.jobs| == |r[k].jobs| && Rank(g'.jobs[i]) < Rank(r[k].jobs[i])
    ensures forall n | 0 <= n < |g'.jobs| && n != i :: g'.jobs[n] == r[k].jobs[n]
  {
    RunInvariant(r, k);
    hide Next, Inv, Rank, Run;
    g' := AbortProceeds(r[k], i);
  }

  lemma AbortProceeds(g: Group, i: nat) returns (g': Group)
    requires Inv(g) && g.aborting && IsFirst(g.jobs, i) && g.jobs[i].started
    ensures Next(g, g') && |g'.jobs| == |g.jobs| && Rank(g'.jobs[i]) < Rank(g.jobs[i])
    ensures forall n | 0 <= n < |g'.jobs| && n != i :: g'.jobs[n] == g.jobs[n]
  {
    assert JobOk(g.jobs[i]) && Doing(g) && (Doomed(g.jobs[i]) || Spared(g.jobs[i]));
    var j := ProceededJob(g.jobs[i]);
    g' := Set(g, i, j);
    var zero := seq(|g.jobs|, _ => 0);
    hide JobOk, Doomed, Spared, UpdateRc, FinalizeSingle, Go, Rank;
    assert || AbortStep(g, g', i) || ExitStep(g, g', i, zero)
           || UnpauseStep(g, g', i) || ReturnStep(g, g', i, 0);
    assert g'.jobs[i] == j;
  }

  /** What the job that an abort waits for can do next. */
  lemma ProceededJob(j: Job) returns (j': Job)
    requires JobOk(j) && j.inTxn && j.started && (Doomed(j) || Spared(j))
    ensures Rank(j') < Rank(j)
    ensures || (Completed(j.status) && j' == FinalizeSingle(j))
            || (j.deferred && !Completed(j.status) && j' == UpdateRc(j) && j'.ret != 0)
            || ((j.status.Paused? || j.status.Standby?) && j' == Go(j, if j.status == Standby then Ready else Running))
            || (InDriver(j) && j' == j.(ret := 0, runRet := 0, deferred := true))
  {
    if Completed(j.status) {
      DoomedOrSpared(j);
      FinalizedFate(j);
      hide FinalizeSingle;
      j' := FinalizeSingle(j);
    } else if j.deferred {
      ExitedRank(j);
      hide UpdateRc;
      j' := UpdateRc(j);
    } else if j.status.Paused? || j.status.Standby? {
      j' := Go(j, if j.status == Standby then Ready else Running);
    } else {
      j' := j.(ret := 0, runRet := 0, deferred := true);
    }
  }

  lemma ExitedRank(j: Job)
    requires JobOk(j) && j.inTxn && Doomed(j) && j.deferred && !Completed(j.status)
    ensures var u := UpdateRc(j); u.ret != 0 && Rank(u) == 1 && Rank(j) == 2
  {
    FailedFate(j);
    UpdatedRc(j);
    hide UpdateRc;
  }

  /** While a transaction aborts no step takes any job further from its end, so that the abort
      is over after at most five steps of each job that bring it closer. */
  lemma AbortNeverRecedes(r: seq<Group>, k: nat, i: nat)
    requires Run(r) && k + 1 < |r| && r[k].aborting && i < |r[k].jobs|
    ensures r[k + 1].aborting && |r[k + 1].jobs| == |r[k].jobs| && Rank(r[k + 1].jobs[i]) <= Rank(r[k].jobs[i])
  {
    RunInvariant(r, k);
    StepNeverRecedes(r[k], r[k + 1], i);
  }

  lemma StepNeverRecedes(g: Group, g': Group, i: nat)
    requires Inv(g) && Next(g, g') && g.aborting && i < |g.jobs|
    ensures g'.aborting && |g'.jobs| == |g.jobs| && Rank(g'.jobs[i]) <= Rank(g.jobs[i])
  {
    assert JobOk(g.jobs[i]) && Doing(g);
    hide Inv, JobOk, Doomed, Spared, Blamable, Rank, CompleteJob, FinalizeSingle, StartStep, ReadyStep;
    hide PauseStep, UnpauseStep, ReturnStep, DismissStep;
    if x: nat, prep :| ExitStep(g, g', x, prep) {
      ExitNeverRecedes(g, g', x, prep, i);
    } else if x: nat :| AbortStep(g, g', x) {
      FinalizedRank(g.jobs[x]);
    } else if x: nat, v :| ReturnStep(g, g', x, v) {
      OwnStepNeverRecedes(g, g', x, v, i);
    } else {
      var x: nat :| StartStep(g, g', x) || ReadyStep(g, g', x) || PauseStep(g, g', x) || UnpauseStep(g, g', x)
          || DismissStep(g, g', x);
      OwnStepNeverRecedes(g, g', x, 0, i);
    }
  }

  lemma FinalizedRank(j: Job)
    requires j.inTxn
    ensures Rank(FinalizeSingle(j)) <= Rank(j)
  {
  }

  lemma ExitNeverRecedes(g: Group, g': Group, x: nat, prep: seq<int>, i: nat)
    requires Inv(g) && g.aborting && ExitStep(g, g', x, prep) && i < |g.jobs|
    ensures g'.aborting && |g'.jobs| == |g.jobs| && Rank(g'.jobs[i]) <= Rank(g.jobs[i])
  {
    assert JobOk(g.jobs[x]) && Doing(g);
    assert g.blamed || x != g.initiator;
    ExitedRank(g.jobs[x]);
    hide JobOk, Doomed, Spared, UpdateRc, Rank, TxnSuccess;
  }

  lemma OwnStepNeverRecedes(g: Group, g': Group, x: nat, v: int, i: nat)
    requires Inv(g) && g.aborting && i < |g.jobs|
    requires || StartStep(g, g', x) || ReadyStep(g, g', x) || PauseStep(g, g', x) || UnpauseStep(g, g', x)
             || ReturnStep(g, g', x, v) || DismissStep(g, g', x)
    ensures g'.aborting && |g'.jobs| == |g.jobs| && Rank(g'.jobs[i]) <= Rank(g.jobs[i])
  {
    assert JobOk(g.jobs[x]) && Doing(g);
    assert InDriver(g.jobs[x]) ==> g.jobs[x].force;
    hide Inv;
  }

  /** Each job is committed or aborted exactly once, when it concludes; a transaction that
      aborts on behalf of a job that failed never mixes the two, and commits all jobs in one step. */
  lemma AllOrNothing(r: seq<Group>, k: nat, i: nat, n: nat)
    requires Run(r) && k < |r| && i < |r[k].jobs| && n < |r[k].jobs|
    ensures var j := r[k].jobs[i]; j.commits + j.aborts == if j.status.Concluded? || j.status.Null? then 1 else 0
    ensures r[k].blamed && r[k].jobs[i].commits == 1 ==> r[k].jobs[n].commits == 1 && r[k].jobs[n].aborts == 0
  {
    RunInvariant(r, k);
    assert JobOk(r[k].jobs[i]) && JobOk(r[k].jobs[n]);
  }

  predicate AllCommitted(jobs: seq<Job>) {
    forall i | 0 <= i < |jobs| :: jobs[i].commits == 1
  }

  predicate AllAborted(jobs: seq<Job>) {
    forall i | 0 <= i < |jobs| :: jobs[i].aborts == 1
  }

  /** Once all jobs are concluded: the transaction was all or nothing exactly if it did not
      abort on behalf of a job that had not failed, and without failures to prepare it was
      committed exactly if every run succeeded and no cancel command was a forced one. */
  lemma WholeTransaction(r: seq<Group>, k: nat)
    requires Run(r) && k < |r| && r[k].jobs != [] && forall i | 0 <= i < |r[k].jobs| :: !r[k].jobs[i].inTxn
    ensures r[k].blamed <==> AllCommitted(r[k].jobs) || AllAborted(r[k].jobs)
    ensures !r[k].prepareFailed ==>
              (AllCommitted(r[k].jobs) <==> forall i | 0 <= i < |r[k].jobs| :: !Blamable(r[k].jobs[i]))
  {
    RunInvariant(r, k);
    var g := r[k];
    forall i | 0 <= i < |g.jobs|
      ensures JobOk(g.jobs[i]) && g.jobs[i].commits + g.jobs[i].aborts == 1
    {
    }
    assert !Live(g) by { assert !Quiet(g.jobs[0]); }
    assert Finished(g) || Doing(g);
    if Doing(g) && !g.blamed {
      var o := if g.initiator == 0 then 1 else 0;
      assert Spared(g.jobs[g.initiator]) && Doomed(g.jobs[o]);
    }
    if Doing(g) && g.blamed {
      assert Doomed(g.jobs[0]);
      if !g.prepareFailed {
        var b :| 0 <= b < |g.jobs| && Blamable(g.jobs[b]);
        assert Doomed(g.jobs[b]);
      }
    }
  }

  // ----- a failing .prepare -----

  lemma {:induction false} FirstFailingPending(g: Group, prep: seq<int>, k: nat)
    requires AllPending(g) && k <= |g.jobs| == |prep|
    ensures var f := FirstFailing(g.jobs, prep, k);
            && k <= f <= |g.jobs| && (forall i | k <= i < f :: prep[i] == 0) && (f < |g.jobs| ==> prep[f] != 0)
    decreases |g.jobs| - k
  {
    if k < |g.jobs| {
      assert JobOk(g.jobs[k]) && Quiet(g.jobs[k]);
      PreparePending(g.jobs[k], prep[k]);
      if prep[k] == 0 {
        FirstFailingPending(g, prep, k + 1);
      }
    }
  }

  /** The abort loop once every job is completed: nothing is left to wait for. */
  function Drain(g: Group): Group {
    if g.aborting then g.(jobs := MapTxn(g.jobs, FinalizeSingle)) else g
  }

  /** Finalizing a group whose .prepare callbacks return prep is all or nothing exactly if none
      fails or the first to fail is the one of the job on whose behalf the group is finalized. */
  lemma PrepareIsUniformIff(g: Group, a: nat, prep: seq<int>)
    requires AllPending(g) && a < |g.jobs| == |prep|
    ensures var jobs := Drain(DoFinalize(g, a, prep)).jobs;
            AllCommitted(jobs) || AllAborted(jobs) <==>
            (forall i | 0 <= i < |prep| :: prep[i] == 0) || (prep[a] != 0 && forall i | 0 <= i < a :: prep[i] == 0)
  {
    var f := FirstFailing(g.jobs, prep, 0);
    FirstFailingPending(g, prep, 0);
    FinalizeKeepsInv(g, a, prep);
    FinalizeSplits(g, a, prep);
    var d := DoFinalize(g, a, prep);
    var jobs := Drain(d).jobs;
    hide FirstFailing, DoFinalize, AllPending, Inv;
    if d.aborting {
      DrainedFates(d);
      hide Drain;
      if d.blamed {
        assert AllAborted(jobs);
      } else {
        var o := if a == 0 then 1 else 0;
        assert jobs[a].commits == 1 && jobs[o].aborts == 1 && prep[f] != 0;
        assert !AllCommitted(jobs) && !AllAborted(jobs);
      }
    }
  }

  lemma FinalizeSplits(g: Group, a: nat, prep: seq<int>)
    requires AllPending(g) && a < |g.jobs| == |prep|
    ensures var d := DoFinalize(g, a, prep);
            var f := FirstFailing(g.jobs, prep, 0);
            && (d.aborting <==> f < |g.jobs|)
            && (d.aborting ==> d.initiator == a && (d.blamed <==> f == a) && Doing(d) && AllCompleted(d.jobs))
            && (!d.aborting ==> AllCommitted(d.jobs))
            && |d.jobs| == |g.jobs|
  {
    hide FinalizeSingle, Prepare, JobOk;
    FinalizeKeepsInv(g, a, prep);
    FirstFailingPending(g, prep, 0);
    DoFinalizeKeeps(g, a, prep);
    var f := FirstFailing(g.jobs, prep, 0);
    if f == |g.jobs| {
      forall i | 0 <= i < |g.jobs|
        ensures PreparedTo(g.jobs, prep, f)[i] == g.jobs[i]
      {
        assert Quiet(g.jobs[i]);
        PreparePending(g.jobs[i], prep[i]);
      }
      assert PreparedTo(g.jobs, prep, f) == g.jobs;
      CommitKeepsInv(g);
    }
  }

  lemma DrainedFate(j: Job)
    requires JobOk(j) && Completed(j.status) && (Doomed(j) || Spared(j))
    ensures var f := if j.inTxn then FinalizeSingle(j) else j;
            && (Doomed(j) ==> f.aborts == 1 && f.commits == 0) && (Spared(j) ==> f.commits == 1 && f.aborts == 0)
  {
    if j.inTxn {
      DoomedOrSpared(j);
      FinalizedIs(j);
      hide FinalizeSingle;
    }
  }

  lemma DrainedFates(d: Group)
    requires Inv(d) && Doing(d) && AllCompleted(d.jobs)
    ensures var jobs := Drain(d).jobs;
            && |jobs| == |d.jobs|
            && (forall i | 0 <= i < |jobs| && (i != d.initiator || d.blamed) ::
                  jobs[i].aborts == 1 && jobs[i].commits == 0)
            && (!d.blamed ==> jobs[d.initiator].commits == 1 && jobs[d.initiator].aborts == 0)
  {
    forall i | 0 <= i < |d.jobs|
      ensures JobOk(d.jobs[i]) && Completed(d.jobs[i].status)
    {
      assert JobOk(d.jobs[i]);
    }
    hide JobOk, Doomed, Spared, FinalizeSingle, Completed;
    forall i | 0 <= i < |d.jobs|
      ensures var j := Drain(d).jobs[i];
              if i != d.initiator || d.blamed then j.aborts == 1 && j.commits == 0
              else j.commits == 1 && j.aborts == 0
    {
      DrainedFate(d.jobs[i]);
    }
  }
}
