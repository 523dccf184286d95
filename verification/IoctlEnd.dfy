/** What the threads of the ioctl inhibitor can always bring about: from every state of every run
    all ioctls and inhibitions can be completed, and then any thread can issue an ioctl, or
    inhibit them. */
module IoctlEnd {
  import opened Options
  import opened IoctlBlocker

  /** A bound on what a thread has ahead of it until it is idle, with n locks.  Who sets the event
      pays w for the turns that the inhibitor makes because of it. */
  function Ahead(pc: Pc, n: nat, w: nat): nat {
    match pc
    case Idle => 0
    case Release(k) => if k <= n then n - k + 1 else 0
    case Inhibited => n + 2
    case WaitAsleep => n + 3
    case WaitFutex => n + 4
    case WaitCas => n + 5
    case WaitRead => n + 6
    case Check(k, _) => n + 6 + if k <= n then n - k else 0
    case Reset => 2 * n + 7
    case Acquire(k) => 2 * n + 7 + if k <= n then n - k else 0
    case SetWake => w + 1
    case SetXchg => w + n + 8
    case SetRead => w + n + 9
    case InIoctl(_) => w + n + 10
    case IoctlBegin(_) => w + n + 11
  }

  function ThreadAhead(s: State, t: Thread, w: nat): nat {
    if t in s.threads then Ahead(s.threads[t], |s.locks|, w) else 0
  }

  function AllAhead(s: State, list: seq<Thread>, w: nat): nat {
    if list == [] then 0 else ThreadAhead(s, list[0], w) + AllAhead(s, list[1..], w)
  }

  ghost predicate Resetting(s: State) {
    exists t :: t in s.threads && s.threads[t].Reset?
  }

  /** A set event lets the inhibitor make one more turn, unless it is about to reset it. */
  ghost function Turn(s: State): nat {
    if s.ev.EvSet? && !Resetting(s) then |s.locks| + 5 else 0
  }

  predicate Distinct(list: seq<Thread>) {
    list != [] ==> list[0] !in list[1..] && Distinct(list[1..])
  }

  lemma {:induction false} AtMost(s: State, s': State, list: seq<Thread>, w: nat, k: nat)
    requires forall d | d in list :: ThreadAhead(s', d, w) <= ThreadAhead(s, d, w) + k
    ensures AllAhead(s', list, w) <= AllAhead(s, list, w) + k * |list|
  {
    hide ThreadAhead;
    if list != [] {
      AtMost(s, s', list[1..], w, k);
    }
  }

  /** Thread t gets m closer to its end, and the others at most k further away. */
  lemma {:induction false} OnePays(s: State, s': State, list: seq<Thread>, w: nat, t: Thread, k: nat, m: int)
    requires Distinct(list) && t in list && ThreadAhead(s', t, w) + m <= ThreadAhead(s, t, w)
    requires forall d | d in list && d != t :: ThreadAhead(s', d, w) <= ThreadAhead(s, d, w) + k
    ensures AllAhead(s', list, w) + m <= AllAhead(s, list, w) + k * (|list| - 1)
  {
    hide ThreadAhead;
    if list[0] == t {
      AtMost(s, s', list[1..], w, k);
    } else {
      OnePays(s, s', list[1..], w, t, k, m);
    }
  }

  // ----- every step inside the protocol is paid for -----

  lemma OthersStay(s: State, t: Thread, s': State, d: Thread)
    requires ThreadStep(s, t, s') && !SetWakeStep(s, t, s') && d != t
    ensures |s'.locks| == |s.locks| && s'.threads.Keys == s.threads.Keys
    ensures d in s.threads ==> s'.threads[d] == s.threads[d]
  {
  }

  lemma WakingPays(s: State, t: Thread, s': State, w: nat, d: Thread)
    requires SetWakeStep(s, t, s')
    ensures |s'.locks| == |s.locks| && s'.threads.Keys == s.threads.Keys && Turn(s') <= Turn(s)
    ensures ThreadAhead(s', t, w) + w + 1 <= ThreadAhead(s, t, w)
    ensures d != t ==> ThreadAhead(s', d, w) <= ThreadAhead(s, d, w) + |s.locks| + 4
  {
    if u :| u in s.threads && s.threads[u].Reset? {
      assert u in s'.threads && s'.threads[u].Reset?;
    }
  }

  /** Whether anybody is about to reset the event changes only if t comes or goes. */
  lemma ResettingMoves(s: State, t: Thread, s': State)
    requires ThreadStep(s, t, s') && !SetWakeStep(s, t, s') && t in s.threads
    ensures t in s'.threads && s'.threads[t].Reset? ==> Resetting(s')
    ensures !s'.threads[t].Reset? && !s.threads[t].Reset? ==> (Resetting(s') <==> Resetting(s))
  {
    OthersStay(s, t, s', t + 1);
    forall u | u != t
      ensures u in s'.threads <==> u in s.threads
      ensures u in s.threads ==> s'.threads[u] == s.threads[u]
    {
      OthersStay(s, t, s', u);
    }
    hide ThreadStep, SetWakeStep;
    if u :| u in s.threads && s.threads[u].Reset? {
      assert u != t ==> s'.threads[u].Reset?;
    }
    if u :| u in s'.threads && s'.threads[u].Reset? {
      assert u != t ==> s.threads[u].Reset?;
    }
  }

  lemma IoctlPays(s: State, t: Thread, s': State, w: nat)
    requires IncStep(s, t, s') || DecStep(s, t, s') || SetReadStep(s, t, s') || SetXchgStep(s, t, s')
    ensures ThreadAhead(s', t, w) + Turn(s') < ThreadAhead(s, t, w) + Turn(s)
  {
    assert ThreadStep(s, t, s');
    ResettingMoves(s, t, s');
    hide Resetting, ThreadStep;
  }

  lemma InhibitPays(s: State, t: Thread, s': State, w: nat)
    requires Inv(s)
    requires AcquireStep(s, t, s') || CheckStep(s, t, s') || InhibitEnd(s, t, s') || ReleaseStep(s, t, s')
    ensures ThreadAhead(s', t, w) + Turn(s') < ThreadAhead(s, t, w) + Turn(s)
  {
    assert ThreadStep(s, t, s') && PcOk(t, s.threads[t], |s.locks|, s.bql);
    ResettingMoves(s, t, s');
    hide Resetting, ThreadStep, Inv;
  }

  /** The inhibitor goes back to its reset only if the event is set, which pays for it. */
  lemma WaitPays(s: State, t: Thread, s': State, w: nat)
    requires Inv(s)
    requires ResetStep(s, t, s') || WaitReadStep(s, t, s') || WaitCasStep(s, t, s') || WaitFutexStep(s, t, s')
    ensures ThreadAhead(s', t, w) + Turn(s') < ThreadAhead(s, t, w) + Turn(s)
  {
    assert ThreadStep(s, t, s') && EventOk(s, s.threads[t]);
    ResettingMoves(s, t, s');
    if !s.threads[t].Reset? && Resetting(s) {
      var u :| u in s.threads && s.threads[u].Reset?;
      OneBeginner(s, t, u);
    }
    assert s.threads[t].Reset? ==> Resetting(s);
    hide Resetting, ThreadStep, Inv;
  }

  lemma OwnPays(s: State, t: Thread, s': State, w: nat)
    requires Inv(s) && Proceeds(s, t, s') && !SetWakeStep(s, t, s')
    ensures ThreadAhead(s', t, w) + Turn(s') < ThreadAhead(s, t, w) + Turn(s)
  {
    hide IncStep, DecStep, SetReadStep, SetXchgStep, AcquireStep, CheckStep, InhibitEnd, ReleaseStep, ResetStep;
    hide WaitReadStep, WaitCasStep, WaitFutexStep, SetWakeStep, Inv, ThreadAhead, Turn;
    if IncStep(s, t, s') || DecStep(s, t, s') || SetReadStep(s, t, s') || SetXchgStep(s, t, s') {
      IoctlPays(s, t, s', w);
    } else if AcquireStep(s, t, s') || CheckStep(s, t, s') || InhibitEnd(s, t, s') || ReleaseStep(s, t, s') {
      InhibitPays(s, t, s', w);
    } else {
      WaitPays(s, t, s', w);
    }
  }

  ghost function Work(s: State, list: seq<Thread>, w: nat): nat {
    AllAhead(s, list, w) + Turn(s)
  }

  function Fee(s: State, list: seq<Thread>): nat {
    (|s.locks| + 4) * |list|
  }

  lemma FeeCovers(k: nat, m: nat)
    requires m > 0
    ensures k * (m - 1) <= k * m
  {
  }

  lemma ProceedingPays(s: State, t: Thread, s': State, list: seq<Thread>)
    requires Inv(s) && Proceeds(s, t, s') && Distinct(list) && t in list
    ensures Work(s', list, Fee(s, list)) < Work(s, list, Fee(s, list))
    ensures |s'.locks| == |s.locks| && s'.threads.Keys == s.threads.Keys
  {
    var w := Fee(s, list);
    hide ThreadAhead, AllAhead, Turn, Inv, Distinct;
    if SetWakeStep(s, t, s') {
      forall d
        ensures ThreadAhead(s', t, w) + w + 1 <= ThreadAhead(s, t, w)
        ensures d != t ==> ThreadAhead(s', d, w) <= ThreadAhead(s, d, w) + (|s.locks| + 4)
      {
        WakingPays(s, t, s', w, d);
      }
      WakingPays(s, t, s', w, t);
      OnePays(s, s', list, w, t, |s.locks| + 4, w + 1);
      FeeCovers(|s.locks| + 4, |list|);
    } else {
      OwnPays(s, t, s', w);
      forall d | d != t
        ensures ThreadAhead(s', d, w) <= ThreadAhead(s, d, w)
        ensures |s'.locks| == |s.locks| && s'.threads.Keys == s.threads.Keys
      {
        OthersStayAhead(s, t, s', w, d);
      }
      OthersStay(s, t, s', t + 1);
      OnePays(s, s', list, w, t, 0, ThreadAhead(s, t, w) - ThreadAhead(s', t, w));
    }
  }

  lemma OthersStayAhead(s: State, t: Thread, s': State, w: nat, d: Thread)
    requires ThreadStep(s, t, s') && !SetWakeStep(s, t, s') && d != t
    ensures ThreadAhead(s', d, w) == ThreadAhead(s, d, w)
    ensures |s'.locks| == |s.locks| && s'.threads.Keys == s.threads.Keys
  {
    OthersStay(s, t, s', d);
    hide ThreadStep, SetWakeStep;
  }

  // ----- all calls can be completed -----

  predicate AllIdle(s: State) {
    forall t | t in s.threads :: s.threads[t].Idle?
  }

  function Last(r: seq<State>): State
    requires r != []
  {
    r[|r| - 1]
  }

  /** As long as a thread is inside the protocol, there is a step that brings all closer to the end. */
  lemma OneMoreStep(s: State, list: seq<Thread>) returns (s': State)
    requires Inv(s) && !AllIdle(s) && Distinct(list) && forall u | u in s.threads :: u in list
    ensures Next(s, s') && Work(s', list, Fee(s', list)) < Work(s, list, Fee(s, list))
    ensures |s'.locks| == |s.locks| && s'.threads.Keys == s.threads.Keys
  {
    var u :| u in s.threads && !s.threads[u].Idle?;
    hide Inv, Work, Distinct, ThreadStep;
    var d := Mover(s, u);
    s' := UnblockedCanStep(s, d);
    ProceedingPays(s, d, s', list);
  }

  lemma {:induction false} AllCanFinish(r: seq<State>, list: seq<Thread>) returns (t: seq<State>)
    requires Run(r) && Distinct(list) && forall u | u in Last(r).threads :: u in list
    ensures Run(t) && r <= t && AllIdle(Last(t))
    ensures Last(t).threads.Keys == Last(r).threads.Keys && |Last(t).locks| == |Last(r).locks|
    decreases Work(Last(r), list, Fee(Last(r), list))
  {
    hide Next, Inv, Work, Init, Distinct, AllIdle, Fee;
    var s := Last(r);
    if AllIdle(s) {
      t := r;
    } else {
      RunInvariant(r, |r| - 1);
      var s' := OneMoreStep(s, list);
      RunGrows(r, s');
      hide Run;
      assert Last(r + [s']) == s';
      t := AllCanFinish(r + [s'], list);
    }
  }

  lemma {:induction false} Listing(ts: set<Thread>) returns (list: seq<Thread>)
    ensures Distinct(list) && forall u :: u in ts <==> u in list
  {
    if ts == {} {
      list := [];
    } else {
      var u :| u in ts;
      var rest := Listing(ts - {u});
      list := [u] + rest;
    }
  }

  /** The big lock is held by a thread, if at all. */
  predicate BqlOk(s: State) {
    s.bql.Some? ==> s.bql.value in s.threads
  }

  lemma NextKeepsBql(s: State, s': State)
    requires BqlOk(s) && Next(s, s')
    ensures BqlOk(s')
  {
  }

  lemma {:induction false} RunBql(r: seq<State>, i: nat)
    requires Run(r) && i < |r|
    ensures BqlOk(r[i])
  {
    hide Next;
    if i > 0 {
      RunBql(r, i - 1);
      assert Next(r[i - 1], r[i - 1 + 1]);
      NextKeepsBql(r[i - 1], r[i]);
    }
  }

  /** Nobody is inside the protocol, all locks are free, and nobody has the big lock. */
  predicate AtRest(s: State) {
    && AllIdle(s) && s.bql.None? && |s.locks| > 0
    && forall l | 0 <= l < |s.locks| :: s.locks[l] == LockCnt(0, None)
  }

  lemma IdleIsFree(s: State)
    requires Inv(s) && AllIdle(s)
    ensures forall l | 0 <= l < |s.locks| :: s.locks[l] == LockCnt(0, None)
  {
    forall l | 0 <= l < |s.locks|
      ensures s.locks[l] == LockCnt(0, None)
    {
      assert LockOk(l, s.locks[l], s.threads, |s.locks|);
      assert Users(s.threads, l) == {};
    }
  }

  /** From every state of every run the calls that are under way can all be completed. */
  lemma CanFinish(r: seq<State>) returns (t: seq<State>)
    requires Run(r)
    ensures Run(t) && r <= t && AtRest(Last(t))
    ensures Last(t).threads.Keys == Last(r).threads.Keys && |Last(t).locks| == |Last(r).locks|
  {
    hide Next, Init;
    var list := Listing(Last(r).threads.Keys);
    var q := AllCanFinish(r, list);
    RunInvariant(q, |q| - 1);
    RunBql(q, |q| - 1);
    IdleIsFree(Last(q));
    assert |Last(q).locks| > 0;
    hide Inv;
    if Last(q).bql.None? {
      t := q;
    } else {
      t := DropBql(q, Last(q).bql.value);
    }
  }

  lemma DropBql(r: seq<State>, u: Thread) returns (t: seq<State>)
    requires Run(r) && u in Last(r).threads && Last(r).threads[u].Idle? && Last(r).bql == Some(u)
    ensures Run(t) && r <= t && Last(t) == Last(r).(bql := None)
  {
    var s := Last(r);
    var s' := s.(bql := None);
    assert BqlStep(s, u, s');
    assert Next(s, s');
    RunGrows(r, s');
    t := r + [s'];
  }

  // ----- every thread can issue an ioctl, or inhibit them -----

  /** However a run has gone, every thread can get to issue an ioctl on every lock. */
  lemma CanIoctl(r: seq<State>, u: Thread, l: nat) returns (t: seq<State>)
    requires Run(r) && u in Last(r).threads && l < |Last(r).locks|
    ensures Run(t) && r <= t && u in Last(t).threads && Last(t).threads[u] == InIoctl(l)
  {
    var q := CanFinish(r);
    var s := Last(q);
    var s1 := Put(s, u, IoctlBegin(l));
    assert BeginCall(s, u, s1) && ThreadStep(s, u, s1);
    assert Next(s, s1);
    var s2 := Put(s1, u, InIoctl(l)).(locks := s1.locks[l := LockCnt(1, None)]);
    assert IncStep(s1, u, s2) && ThreadStep(s1, u, s2);
    assert Next(s1, s2);
    hide Next, Run, AtRest;
    RunGrows(q, s1);
    RunGrows(q + [s1], s2);
    t := q + [s1] + [s2];
  }

  /** A state in which the inhibitor u, at pc, has the first k locks and nobody else is about. */
  predicate Alone(s: State, u: Thread, pc: Pc, k: nat) {
    && u in s.threads && s.threads[u] == pc && |s.locks| > 0
    && forall l | 0 <= l < |s.locks| :: s.locks[l] == LockCnt(0, if l < k then Some(u) else None)
  }

  lemma {:induction false} AcquireAll(r: seq<State>, u: Thread, k: nat) returns (t: seq<State>)
    requires Run(r) && k < |Last(r).locks| && Alone(Last(r), u, Acquire(k), k)
    ensures Run(t) && r <= t && Alone(Last(t), u, Reset, |Last(t).locks|)
    decreases |Last(r).locks| - k
  {
    var s := Last(r);
    var n := |s.locks|;
    var s' := Put(s, u, if k + 1 == n then Reset else Acquire(k + 1))
                .(locks := s.locks[k := s.locks[k].(holder := Some(u))]);
    assert AcquireStep(s, u, s') && ThreadStep(s, u, s');
    assert Next(s, s');
    hide Next, Run;
    RunGrows(r, s');
    if k + 1 == n {
      t := r + [s'];
    } else {
      assert Last(r + [s']) == s';
      t := AcquireAll(r + [s'], u, k + 1);
    }
  }

  lemma {:induction false} CheckAll(r: seq<State>, u: Thread, k: nat) returns (t: seq<State>)
    requires Run(r) && k < |Last(r).locks| && Alone(Last(r), u, Check(k, false), |Last(r).locks|)
    ensures Run(t) && r <= t && u in Last(t).threads && Last(t).threads[u].Inhibited?
    decreases |Last(r).locks| - k
  {
    var s := Last(r);
    var n := |s.locks|;
    var s' := Put(s, u, if k + 1 < n then Check(k + 1, false) else Inhibited);
    assert CheckStep(s, u, s') && ThreadStep(s, u, s');
    assert Next(s, s');
    hide Next, Run;
    RunGrows(r, s');
    if k + 1 == n {
      t := r + [s'];
    } else {
      assert Last(r + [s']) == s';
      t := CheckAll(r + [s'], u, k + 1);
    }
  }

  /** However a run has gone, every thread can get to inhibit all ioctls. */
  lemma CanInhibit(r: seq<State>, u: Thread) returns (t: seq<State>)
    requires Run(r) && u in Last(r).threads
    ensures Run(t) && r <= t && u in Last(t).threads && Last(t).threads[u].Inhibited?
  {
    var q := CanFinish(r);
    var s := Last(q);
    var s1 := s.(bql := Some(u));
    assert BqlStep(s, u, s1);
    assert Next(s, s1);
    var s2 := Put(s1, u, Acquire(0));
    assert InhibitCall(s1, u, s2) && ThreadStep(s1, u, s2);
    assert Next(s1, s2);
    hide Next, Run, AtRest;
    RunGrows(q, s1);
    RunGrows(q + [s1], s2);
    var a := AcquireAll(q + [s1] + [s2], u, 0);
    t := ResetThenCheck(a, u);
  }

  lemma ResetThenCheck(r: seq<State>, u: Thread) returns (t: seq<State>)
    requires Run(r) && Alone(Last(r), u, Reset, |Last(r).locks|)
    ensures Run(t) && r <= t && u in Last(t).threads && Last(t).threads[u].Inhibited?
  {
    var s := Last(r);
    var s' := Put(s, u, Check(0, false)).(ev := if s.ev.EvSet? then EvFree else s.ev);
    assert ResetStep(s, u, s') && ThreadStep(s, u, s');
    assert Next(s, s');
    hide Next, Run;
    RunGrows(r, s');
    assert Last(r + [s']) == s';
    t := CheckAll(r + [s'], u, 0);
  }
}
