/** How the coroutines of qemu-img convert come to an end: every run is bounded, whatever fails
    and however it is scheduled; a run in which nothing fails ends with success; and every run
    in which nothing has failed yet can be completed. */
module ConvertEnd {
  import opened Buffers
  import opened Convert
  import opened ConvertRun

  // ----- every run is bounded -----

  /** How many steps a coroutine has at most ahead of it until it is back at the lock. */
  function Ahead(co: Co): nat {
    match co
    case NotStarted => 2
    case AtLock => 1
    case Done => 0
    case Busy(_, n, _, _, Read) => 8 + n
    case Busy(_, n, _, _, Order) => 7 + n
    case Busy(_, n, _, _, Asleep) => 6 + n
    case Busy(_, n, _, _, Write(done)) => 5 + if done <= n then n - done else 0
    case Busy(_, _, _, _, Finish) => 4
  }

  function AllAhead(cos: seq<Co>): nat {
    if cos == [] then 0 else Ahead(cos[0]) + AllAhead(cos[1..])
  }

  /** The steps that a run can still take. */
  function Budget(cfg: Config, s: State): int {
    9 * (|cfg.Content()| - s.sectorNum) + AllAhead(s.cos)
  }

  function Left(cfg: Config, s: State): nat {
    if Budget(cfg, s) > 0 then Budget(cfg, s) else 0
  }

  lemma {:induction false} AheadOfOne(cos: seq<Co>, i: nat, co: Co)
    requires i < |cos|
    ensures AllAhead(cos[i := co]) == AllAhead(cos) - Ahead(cos[i]) + Ahead(co)
  {
    if i == 0 {
      assert cos[0 := co][1..] == cos[1..];
    } else {
      assert cos[i := co][1..] == cos[1..][i - 1 := co];
      AheadOfOne(cos[1..], i - 1, co);
    }
  }

  lemma {:induction false} WakeIsCheap(cos: seq<Co>, sector: nat)
    ensures AllAhead(Wake(cos, sector)) <= AllAhead(cos) + 1
  {
    if cos != [] && !WaitsFor(cos[0], sector) {
      WakeIsCheap(cos[1..], sector);
      assert Wake(cos, sector)[1..] == Wake(cos[1..], sector);
    } else if cos != [] {
      assert Wake(cos, sector)[1..] == cos[1..];
    }
  }

  /** Every step, failing or not, uses up some of the budget. */
  lemma StepCosts(cfg: Config, s: State, i: nat, s': State)
    requires cfg.Valid() && Structure(cfg, s) && Step(cfg, s, i, s')
    ensures Budget(cfg, s') < Budget(cfg, s) && |s'.cos| == |s.cos|
  {
    assert CoOk(s.cos[i], s.sectorNum);
    hide Structure, AllAhead;
    if FinishStep(cfg, s, i, s') {
      FinishCosts(cfg, s, i, s');
      hide Step;
    } else {
      StepMovesOne(cfg, s, i, s');
      hide Step, Ahead;
      AheadOfOne(s.cos, i, s'.cos[i]);
    }
  }

  lemma FinishCosts(cfg: Config, s: State, i: nat, s': State)
    requires FinishStep(cfg, s, i, s')
    ensures AllAhead(s'.cos) < AllAhead(s.cos) && |s'.cos| == |s.cos| && s'.sectorNum == s.sectorNum
  {
    hide AllAhead;
    AheadOfOne(s.cos, i, AtLock);
    WakeIsCheap(s.cos[i := AtLock], s.cos[i].sector + s.cos[i].n);
  }

  lemma ClaimCosts(cfg: Config, s: State, i: nat, s': State)
    requires cfg.Valid() && ClaimStep(cfg, s, i, s')
    ensures i < |s.cos| && s'.cos == s.cos[i := s'.cos[i]] && s'.sectorNum >= s.sectorNum
    ensures Ahead(s'.cos[i]) < Ahead(s.cos[i]) + 9 * (s'.sectorNum - s.sectorNum)
  {
    hide ZeroSectors, CacheOk;
  }

  lemma WriteCosts(cfg: Config, s: State, i: nat, s': State, k: nat, e: Effect)
    requires WriteStep(cfg, s, i, k, e, s') && CoOk(s.cos[i], s.sectorNum)
    ensures i < |s.cos| && s'.cos == s.cos[i := s'.cos[i]]
    ensures s'.sectorNum == s.sectorNum && Ahead(s'.cos[i]) < Ahead(s.cos[i])
  {
    hide Apply, AllZero;
  }

  lemma OtherCosts(cfg: Config, s: State, i: nat, s': State)
    requires || StartStep(s, i, s') || ExitStep(cfg, s, i, s') || ClaimFail(cfg, s, i, s') || ReadStep(cfg, s, i, s')
             || ReadFail(s, i, s') || OrderStep(cfg, s, i, s') || WriteFail(s, i, s') || WriteDone(s, i, s')
    requires CoOk(s.cos[i], s.sectorNum)
    ensures i < |s.cos| && s'.cos == s.cos[i := s'.cos[i]]
    ensures s'.sectorNum == s.sectorNum && Ahead(s'.cos[i]) < Ahead(s.cos[i])
  {
  }

  /** Any other step changes one coroutine, which pays for it. */
  lemma StepMovesOne(cfg: Config, s: State, i: nat, s': State)
    requires cfg.Valid() && Step(cfg, s, i, s') && !FinishStep(cfg, s, i, s') && CoOk(s.cos[i], s.sectorNum)
    ensures i < |s.cos| && s'.cos == s.cos[i := s'.cos[i]] && s'.sectorNum >= s.sectorNum
    ensures Ahead(s'.cos[i]) < Ahead(s.cos[i]) + 9 * (s'.sectorNum - s.sectorNum)
  {
    hide StartStep, ExitStep, ClaimFail, ClaimStep, ReadStep, ReadFail, OrderStep, WriteStep, WriteFail, WriteDone;
    hide FinishStep, Ahead, CoOk;
    if ClaimStep(cfg, s, i, s') {
      ClaimCosts(cfg, s, i, s');
    } else if k: nat, e :| WriteStep(cfg, s, i, k, e, s') {
      WriteCosts(cfg, s, i, s', k, e);
    } else {
      OtherCosts(cfg, s, i, s');
    }
  }

  lemma {:induction false} BudgetShrinks(cfg: Config, r: seq<State>, k: nat)
    requires IsRun(cfg, r) && k < |r|
    ensures Budget(cfg, r[k]) <= Budget(cfg, r[0]) - k && |r[k].cos| == |r[0].cos|
  {
    hide Budget, Init, Step;
    if k > 0 {
      BudgetShrinks(cfg, r, k - 1);
      RunInvariant(cfg, r, k - 1);
      assert Next(cfg, r[k - 1], r[k - 1 + 1]);
      var i :| Step(cfg, r[k - 1], i, r[k]);
      StepCosts(cfg, r[k - 1], i, r[k]);
    }
  }

  lemma {:induction false} FreshAhead(cos: seq<Co>)
    requires forall i | 0 <= i < |cos| :: cos[i].NotStarted?
    ensures AllAhead(cos) == 2 * |cos|
  {
    if cos != [] {
      FreshAhead(cos[1..]);
    }
  }

  /** No schedule and no failure keeps a copy going for ever: a run takes at most nine steps for
      a sector and two for a coroutine. */
  lemma RunsAreBounded(cfg: Config, r: seq<State>)
    requires IsRun(cfg, r)
    ensures |r| - 1 <= 9 * |cfg.Content()| + 2 * |r[0].cos|
  {
    var k := |r| - 1;
    BudgetShrinks(cfg, r, k);
    FreshAhead(r[0].cos);
    RunInvariant(cfg, r, k);
  }

  // ----- how a run ends -----

  /** Some coroutine has been started, and none is live. */
  predicate Ended(s: State) {
    && (exists i | 0 <= i < |s.cos| :: !s.cos[i].NotStarted?)
    && (forall i | 0 <= i < |s.cos| :: !Live(s.cos[i]))
  }

  /** The step is one that fails. */
  ghost predicate Fails(cfg: Config, s: State, i: nat, s': State) {
    ClaimFail(cfg, s, i, s') || ReadFail(s, i, s') || WriteFail(s, i, s')
  }

  ghost predicate Failed(cfg: Config, s: State, s': State) {
    exists i :: Fails(cfg, s, i, s')
  }

  lemma QuietStep(cfg: Config, s: State, i: nat, s': State)
    requires Step(cfg, s, i, s') && !Fails(cfg, s, i, s')
    ensures s'.ret.Failure? <==> s.ret.Failure?
  {
    hide Wake, ClaimOk, CacheOk, EffectOk, Apply;
  }

  /** Once a failure is reported it stays, and nothing but a failing step reports one. */
  lemma FailureStep(cfg: Config, s: State, s': State)
    requires Next(cfg, s, s')
    ensures s'.ret.Failure? <==> s.ret.Failure? || Failed(cfg, s, s')
  {
    if i: nat :| Fails(cfg, s, i, s') {
      assert s'.ret.Failure?;
    } else {
      var i: nat :| Step(cfg, s, i, s');
      hide Step, Fails;
      QuietStep(cfg, s, i, s');
    }
  }

  /** A run reports failure if and only if one of its steps failed. */
  lemma {:induction false} FailureIsReported(cfg: Config, r: seq<State>, k: nat)
    requires IsRun(cfg, r) && k < |r|
    ensures r[k].ret.Failure? <==> exists j | 0 <= j < k :: Failed(cfg, r[j], r[j + 1])
  {
    hide Next, Failed;
    if k > 0 {
      FailureIsReported(cfg, r, k - 1);
      assert Next(cfg, r[k - 1], r[k - 1 + 1]);
      FailureStep(cfg, r[k - 1], r[k]);
      if Failed(cfg, r[k - 1], r[k]) {
        assert Failed(cfg, r[k - 1], r[k - 1 + 1]);
      }
    }
  }

  /** While the copy is in progress, either nothing has been started or something is live. */
  ghost predicate Attended(s: State) {
    s.ret.InProgress? ==>
      || (forall i | 0 <= i < |s.cos| :: s.cos[i].NotStarted?)
      || (exists i | 0 <= i < |s.cos| :: Live(s.cos[i]))
  }

  lemma SomeoneLive(cos: seq<Co>)
    requires |LiveOnes(cos)| > 0
    ensures exists i | 0 <= i < |cos| :: Live(cos[i])
  {
    var i :| i in LiveOnes(cos);
  }

  lemma LeaveKeepsAttended(s: State, i: nat)
    requires i < |s.cos| && s.cos[i].AtLock? && s.running == |LiveOnes(s.cos)|
    ensures Attended(Leave(s, i))
  {
    var s' := Leave(s, i);
    if s'.ret.InProgress? {
      assert i in LiveOnes(s.cos);
      assert LiveOnes(s'.cos) == LiveOnes(s.cos) - {i};
      SomeoneLive(s'.cos);
    }
  }

  lemma StepKeepsAttended(cfg: Config, s: State, i: nat, s': State)
    requires Structure(cfg, s) && Step(cfg, s, i, s')
    ensures Attended(s')
  {
    if ExitStep(cfg, s, i, s') {
      LeaveKeepsAttended(s, i);
    } else if ClaimFail(cfg, s, i, s') {
      LeaveKeepsAttended(s.(ret := Failure), i);
    } else if FinishStep(cfg, s, i, s') {
      if cfg.inOrder {
        WakeAt(s.cos[i := AtLock], s.cos[i].sector + s.cos[i].n, i);
      }
      assert Live(s'.cos[i]);
    } else {
      hide Structure;
      StepStaysLive(cfg, s, i, s');
    }
  }

  lemma StepStaysLive(cfg: Config, s: State, i: nat, s': State)
    requires Step(cfg, s, i, s') && !ExitStep(cfg, s, i, s') && !ClaimFail(cfg, s, i, s') && !FinishStep(cfg, s, i, s')
    ensures i < |s'.cos| && Live(s'.cos[i])
  {
  }

  lemma {:induction false} RunAttended(cfg: Config, r: seq<State>, k: nat)
    requires IsRun(cfg, r) && k < |r|
    ensures Attended(r[k])
  {
    hide Step;
    if k > 0 {
      RunInvariant(cfg, r, k - 1);
      assert Next(cfg, r[k - 1], r[k - 1 + 1]);
      var i :| Step(cfg, r[k - 1], i, r[k]);
      StepKeepsAttended(cfg, r[k - 1], i, r[k]);
    }
  }

  /** When the coroutines are through the copy is not left in progress: it has failed if and only
      if some step failed, and otherwise it has succeeded and the target holds the sources. */
  lemma EndIsReported(cfg: Config, r: seq<State>, k: nat)
    requires IsRun(cfg, r) && k < |r| && Ended(r[k])
    ensures if exists j | 0 <= j < k :: Failed(cfg, r[j], r[j + 1]) then r[k].ret.Failure?
            else r[k].ret.Success? && r[k].data == cfg.Content()
  {
    RunAttended(cfg, r, k);
    FailureIsReported(cfg, r, k);
    hide Failed, IsRun, Live;
    if r[k].ret.Success? {
      ConvertPreservesContent(cfg, r, k);
    }
  }

  /** After a failure no further extent is claimed, and nobody begins to write. */
  lemma FailureStopsWork(cfg: Config, s: State, s': State, i: nat)
    requires Next(cfg, s, s') && s.ret.Failure? && i < |s.cos|
    ensures s'.claims == s.claims && s'.sectorNum == s.sectorNum && |s'.cos| == |s.cos|
    ensures InWrite(s'.cos[i]) ==> InWrite(s.cos[i])
  {
    var j: nat :| Step(cfg, s, j, s');
    hide Step, FinishStep;
    if FinishStep(cfg, s, j, s') {
      FinishIsQuiet(cfg, s, j, s', i);
    } else {
      FailedStep(cfg, s, j, s');
    }
  }

  lemma FinishIsQuiet(cfg: Config, s: State, j: nat, s': State, i: nat)
    requires FinishStep(cfg, s, j, s') && i < |s.cos|
    ensures s'.claims == s.claims && s'.sectorNum == s.sectorNum && |s'.cos| == |s.cos|
    ensures InWrite(s'.cos[i]) ==> InWrite(s.cos[i])
  {
    if cfg.inOrder {
      WakeAt(s.cos[j := AtLock], s.cos[j].sector + s.cos[j].n, i);
    }
    hide Wake;
  }

  lemma FailedStep(cfg: Config, s: State, j: nat, s': State)
    requires Step(cfg, s, j, s') && s.ret.Failure? && !FinishStep(cfg, s, j, s')
    ensures s'.claims == s.claims && s'.sectorNum == s.sectorNum
    ensures j < |s.cos| && s'.cos == s.cos[j := s'.cos[j]] && (InWrite(s'.cos[j]) ==> InWrite(s.cos[j]))
  {
    hide Wake, ClaimOk, CacheOk, EffectOk, Apply;
  }

  predicate InWrite(co: Co) {
    co.Busy? && co.phase.Write?
  }

  // ----- buffers and -S 0 -----

  /** What is read, or filled with zeroes, fits the buffer; with -S 0 nothing that is written is
      called a zero extent. */
  predicate Fits(cfg: Config, co: Co) {
    co.Busy? ==>
      && (co.status.Data? || cfg.minSparse == 0 ==> co.n <= cfg.bufSectors)
      && (cfg.minSparse == 0 && !co.phase.Read? ==> co.status.Data?)
  }

  ghost predicate Tidy(cfg: Config, s: State) {
    && (forall i | 0 <= i < |s.cos| :: Fits(cfg, s.cos[i]))
    && (cfg.minSparse == 0 ==> forall k | 0 <= k < |s.log| :: s.log[k].2.WriteData?)
  }

  lemma FinishKeepsTidy(cfg: Config, s: State, i: nat, s': State)
    requires Tidy(cfg, s) && FinishStep(cfg, s, i, s')
    ensures Tidy(cfg, s')
  {
    forall j | 0 <= j < |s'.cos|
      ensures Fits(cfg, s'.cos[j])
    {
      assert Fits(cfg, s.cos[j]);
      if cfg.inOrder {
        WakeAt(s.cos[i := AtLock], s.cos[i].sector + s.cos[i].n, j);
      }
    }
  }

  /** The step leaves its own coroutine tidy. */
  lemma StepFits(cfg: Config, s: State, i: nat, s': State)
    requires cfg.Valid() && Step(cfg, s, i, s') && !FinishStep(cfg, s, i, s') && i < |s.cos| && Fits(cfg, s.cos[i])
    ensures i < |s'.cos| && Fits(cfg, s'.cos[i]) && s'.cos == s.cos[i := s'.cos[i]]
    ensures s'.log == s.log || exists x, k, e :: s'.log == s.log + [(x, k, e)] && (cfg.minSparse == 0 ==> e.WriteData?)
  {
    hide ZeroSectors, CacheOk, AllZero, Apply, Wake;
    if k: nat, e :| WriteStep(cfg, s, i, k, e, s') {
      assert s'.log == s.log + [(s.cos[i].sector + s.cos[i].phase.done, k, e)];
    }
  }

  lemma StepKeepsTidy(cfg: Config, s: State, i: nat, s': State)
    requires cfg.Valid() && Tidy(cfg, s) && Step(cfg, s, i, s')
    ensures Tidy(cfg, s')
  {
    assert i < |s.cos| && Fits(cfg, s.cos[i]);
    if FinishStep(cfg, s, i, s') {
      FinishKeepsTidy(cfg, s, i, s');
      hide Step, Tidy;
    } else {
      StepFits(cfg, s, i, s');
      hide Step, Fits, FinishStep;
    }
  }

  /** In every run: no request is larger than the buffer, and with -S 0 every sector that is dealt
      with is written as data. */
  lemma {:induction false} RunIsTidy(cfg: Config, r: seq<State>, k: nat)
    requires IsRun(cfg, r) && k < |r|
    ensures Tidy(cfg, r[k])
  {
    hide Step;
    if k > 0 {
      RunIsTidy(cfg, r, k - 1);
      assert Next(cfg, r[k - 1], r[k - 1 + 1]);
      var i: nat :| Step(cfg, r[k - 1], i, r[k]);
      hide Tidy, Init;
      StepKeepsTidy(cfg, r[k - 1], i, r[k]);
    }
  }

  // ----- every run can be completed -----

  /** A step of coroutine i that does not fail. */
  ghost predicate Works(cfg: Config, s: State, i: nat, s': State) {
    Step(cfg, s, i, s') && (s'.ret.Failure? <==> s.ret.Failure?)
  }

  /** A coroutine at the lock can claim, if there is something left, or leave. */
  lemma LockCanStep(cfg: Config, s: State, i: nat) returns (s': State)
    requires cfg.Valid() && i < |s.cos| && s.cos[i].AtLock?
    ensures Works(cfg, s, i, s')
  {
    if !s.ret.InProgress? || s.sectorNum >= |cfg.Content()| {
      s' := Leave(s, i);
      assert ExitStep(cfg, s, i, s');
    } else {
      var at := s.sectorNum;
      s' := Put(s, i, Busy(at, 1, Data, [], Read))
              .(sectorNum := at + 1, status := Data, next := at + 1, claims := s.claims + [(at, 1)]);
      assert ClaimOk(cfg, at, 1, Data) && CacheOk(cfg.Content(), at, Data, at + 1);
      assert ClaimStep(cfg, s, i, s');
    }
  }

  /** As long as a coroutine is not through, some coroutine can take a step that does not fail. */
  lemma SomeoneWorks(cfg: Config, s: State, i: nat) returns (j: nat, s': State)
    requires cfg.Valid() && Structure(cfg, s) && i < |s.cos| && !s.cos[i].Done?
    ensures j < |s.cos| && Works(cfg, s, j, s')
  {
    j := i;
    if s.cos[i].NotStarted? {
      s' := Put(s, i, AtLock).(running := s.running + 1);
      assert StartStep(s, i, s');
    } else if s.cos[i].AtLock? {
      hide Structure;
      s' := LockCanStep(cfg, s, i);
    } else {
      j := AwakeBehind(cfg, s, i);
      s' := AwakeCanStep(cfg, s, j);
    }
  }

  lemma RunGrows(cfg: Config, r: seq<State>, j: nat, s: State)
    requires IsRun(cfg, r) && Step(cfg, r[|r| - 1], j, s)
    ensures IsRun(cfg, r + [s])
  {
    hide Step, Init;
    var t := r + [s];
    forall k | 0 <= k < |t| - 1
      ensures Next(cfg, t[k], t[k + 1])
    {
      if k < |r| - 1 {
        assert Next(cfg, r[k], r[k + 1]);
      } else {
        assert Step(cfg, t[k], j, t[k + 1]);
      }
    }
  }

  predicate AllDone(s: State) {
    forall i | 0 <= i < |s.cos| :: s.cos[i].Done?
  }

  lemma NotDone(s: State) returns (i: nat)
    requires !AllDone(s)
    ensures i < |s.cos| && !s.cos[i].Done?
  {
    i :| 0 <= i < |s.cos| && !s.cos[i].Done?;
  }

  lemma RunStructure(cfg: Config, r: seq<State>)
    requires IsRun(cfg, r)
    ensures r != [] && cfg.Valid() && Structure(cfg, r[|r| - 1])
  {
    RunInvariant(cfg, r, |r| - 1);
  }

  lemma BudgetIsNat(cfg: Config, s: State)
    requires Structure(cfg, s)
    ensures Budget(cfg, s) >= 0
  {
  }

  /** However a run has been scheduled so far, and whatever failed in it, it can go on until every
      coroutine is through, without a further failure. */
  lemma {:induction false} CanEnd(cfg: Config, r: seq<State>) returns (t: seq<State>)
    requires IsRun(cfg, r)
    ensures IsRun(cfg, t) && r <= t && AllDone(t[|t| - 1])
    ensures t[|t| - 1].ret.Failure? <==> r[|r| - 1].ret.Failure?
    decreases Left(cfg, r[|r| - 1])
  {
    hide Init, Next, Inv, Structure, Step, IsRun, Budget, AllDone;
    RunStructure(cfg, r);
    var s := r[|r| - 1];
    if AllDone(s) {
      t := r;
    } else {
      var i := NotDone(s);
      var j, s' := SomeoneWorks(cfg, s, i);
      StepCosts(cfg, s, j, s');
      BudgetIsNat(cfg, s);
      RunGrows(cfg, r, j, s');
      var more := r + [s'];
      assert more[|more| - 1] == s';
      RunStructure(cfg, more);
      BudgetIsNat(cfg, s');
      t := CanEnd(cfg, more);
    }
  }

  /** As long as nothing failed, a run can be completed so that the copy has succeeded. */
  lemma CanBeCompleted(cfg: Config, r: seq<State>) returns (t: seq<State>)
    requires IsRun(cfg, r) && |r[0].cos| > 0 && !r[|r| - 1].ret.Failure?
    ensures IsRun(cfg, t) && r <= t && AllDone(t[|t| - 1])
    ensures t[|t| - 1].ret.Success? && t[|t| - 1].data == cfg.Content()
  {
    t := CanEnd(cfg, r);
    BudgetShrinks(cfg, t, |t| - 1);
    assert t[0] == r[0];
    hide IsRun;
    assert !t[|t| - 1].cos[0].NotStarted?;
    EndIsReported(cfg, t, |t| - 1);
  }

  /** For every valid configuration, any number of coroutines and any target there is a copy that
      succeeds. */
  lemma SuccessIsPossible(cfg: Config, coroutines: nat, data: seq<Sector>) returns (t: seq<State>)
    requires cfg.Valid() && coroutines > 0 && |data| == |cfg.Content()| && (cfg.hasZeroInit ==> AllZero(data))
    ensures IsRun(cfg, t) && |t[0].cos| == coroutines && t[0].data == data
    ensures t[|t| - 1].ret.Success? && t[|t| - 1].data == cfg.Content()
  {
    var s := State(seq(coroutines, _ => NotStarted), 0, Data, 0, 0, data, InProgress, 0, [], []);
    assert Init(cfg, s);
    t := CanBeCompleted(cfg, [s]);
  }
}
