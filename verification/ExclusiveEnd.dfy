/** What the threads of the exclusive-section protocol can always bring about: from every state of
    every run all calls can be completed, and then any CPU can enter a section, or run. */
module ExclusiveEnd {
  import opened Options
  import opened Exclusive

  /** A bound on what a thread has ahead of it until it is idle, among n threads.  Who wakes others
      pays for the detour they make. */
  function Ahead(pc: Pc, n: nat): nat {
    var w := 2 * n + 2;
    match pc
    case Idle => 0
    case EndReset => w
    case EndLock => w + 1
    case InExclusive(depth) => w + 1 + depth
    case WaitSleep => w + 3
    case WaitTest => w + 4
    case WaitLock => w + 5
    case Scan(todo, _) => w + 5 + |todo|
    case StartSleep => w + 6 + n
    case StartIdle => w + 7 + n
    case StartLock => w + 8 + n
    case StopTest => w
    case StopLock => w + 1
    case StopRead => w + 2
    case Running => w + 3
    case ExecSleep => w + 4
    case ExecIdle => w + 5
    case ExecRelock => w + 6
    case ExecTest => w + 6
    case ExecLock => w + 7
    case ExecRead => w + 8
  }

  function CpuAhead(s: State, c: Cpu, n: nat): nat {
    if c in s.cpus then Ahead(s.cpus[c].pc, n) else 0
  }

  function AllAhead(s: State, list: seq<Cpu>, n: nat): nat {
    if list == [] then 0 else CpuAhead(s, list[0], n) + AllAhead(s, list[1..], n)
  }

  lemma {:induction false} AtMost(s: State, s': State, list: seq<Cpu>, n: nat, k: nat)
    requires forall d | d in list :: CpuAhead(s', d, n) <= CpuAhead(s, d, n) + k
    ensures AllAhead(s', list, n) <= AllAhead(s, list, n) + k * |list|
  {
    hide CpuAhead;
    if list != [] {
      AtMost(s, s', list[1..], n, k);
    }
  }

  /** One thread gets m closer to its end, and the others at most k further away. */
  lemma {:induction false} OnePays(s: State, s': State, list: seq<Cpu>, n: nat, c: Cpu, k: nat, m: nat)
    requires c in list && CpuAhead(s', c, n) + m <= CpuAhead(s, c, n)
    requires forall d | d in list :: CpuAhead(s', d, n) <= CpuAhead(s, d, n) + k
    ensures AllAhead(s', list, n) + m <= AllAhead(s, list, n) + k * (|list| - 1)
  {
    hide CpuAhead;
    if list[0] == c {
      AtMost(s, s', list[1..], n, k);
    } else {
      OnePays(s, s', list[1..], n, c, k, m);
    }
  }

  /** A step that wakes somebody pays for it. */
  lemma WakingPays(s: State, c: Cpu, s': State, n: nat, d: Cpu)
    requires EndResetStep(s, c, s') || StopTestStep(s, c, s')
    ensures CpuAhead(s', c, n) + 2 * n + 2 <= CpuAhead(s, c, n)
    ensures CpuAhead(s', d, n) <= CpuAhead(s, d, n) + 2
  {
  }

  /** Any other step wakes nobody. */
  lemma QuietStays(s: State, c: Cpu, s': State, d: Cpu)
    requires ThreadStep(s, c, s') && !EndResetStep(s, c, s') && !StopTestStep(s, c, s') && d != c
    ensures d in s'.cpus <==> d in s.cpus
    ensures d in s.cpus ==> s'.cpus[d].pc == s.cpus[d].pc
  {
  }

  lemma ScanPays(s: State, c: Cpu, other: Cpu, s': State, n: nat)
    requires ScanStep(s, c, other, s')
    ensures CpuAhead(s', c, n) < CpuAhead(s, c, n)
  {
    assert |s.cpus[c].pc.todo - {other}| < |s.cpus[c].pc.todo|;
  }

  lemma StartPays(s: State, c: Cpu, s': State, n: nat)
    requires StartIdleStep(s, c, s') && |s.cpus| <= n
    ensures CpuAhead(s', c, n) < CpuAhead(s, c, n)
  {
    assert |s.cpus.Keys| == |s.cpus|;
  }

  lemma QuietPays(s: State, c: Cpu, s': State, n: nat, d: Cpu)
    requires Proceeds(s, c, s') && !EndResetStep(s, c, s') && !StopTestStep(s, c, s') && |s.cpus| <= n
    ensures CpuAhead(s', c, n) < CpuAhead(s, c, n)
    ensures CpuAhead(s', d, n) <= CpuAhead(s, d, n)
  {
    if d != c {
      QuietStays(s, c, s', d);
    }
    if other :| ScanStep(s, c, other, s') {
      ScanPays(s, c, other, s', n);
      hide Ahead, ThreadStep;
    } else if StartIdleStep(s, c, s') {
      StartPays(s, c, s', n);
      hide Ahead, ThreadStep;
    } else {
      OwnPays(s, c, s', n);
      hide Ahead, ThreadStep;
    }
  }

  lemma SectionPays(s: State, c: Cpu, s': State, n: nat)
    requires TakeLock(s, c, s') || ScanDone(s, c, s') || WaitTestStep(s, c, s') || EndCall(s, c, s')
    ensures CpuAhead(s', c, n) < CpuAhead(s, c, n)
  {
  }

  lemma ExecPays(s: State, c: Cpu, s': State, n: nat)
    requires || ExecReadStep(s, c, s') || ExecTestStep(s, c, s') || ExecIdleStep(s, c, s')
             || StopCall(s, c, s') || StopReadStep(s, c, s')
    ensures CpuAhead(s', c, n) < CpuAhead(s, c, n)
  {
  }

  lemma OwnPays(s: State, c: Cpu, s': State, n: nat)
    requires Proceeds(s, c, s') && !EndResetStep(s, c, s') && !StopTestStep(s, c, s') && !StartIdleStep(s, c, s')
    requires forall other :: !ScanStep(s, c, other, s')
    ensures CpuAhead(s', c, n) < CpuAhead(s, c, n)
  {
    hide TakeLock, ScanDone, WaitTestStep, EndCall, ExecReadStep, ExecTestStep, ExecIdleStep, StopCall, StopReadStep;
    hide CpuAhead;
    if TakeLock(s, c, s') || ScanDone(s, c, s') || WaitTestStep(s, c, s') || EndCall(s, c, s') {
      SectionPays(s, c, s', n);
    } else {
      ExecPays(s, c, s', n);
    }
  }

  lemma ProceedingPays(s: State, c: Cpu, s': State, list: seq<Cpu>)
    requires Proceeds(s, c, s') && c in list && |s.cpus| <= |list|
    ensures AllAhead(s', list, |list|) < AllAhead(s, list, |list|)
  {
    var n := |list|;
    hide CpuAhead, AllAhead;
    if EndResetStep(s, c, s') || StopTestStep(s, c, s') {
      forall d
        ensures CpuAhead(s', c, n) + 2 * n + 2 <= CpuAhead(s, c, n) && CpuAhead(s', d, n) <= CpuAhead(s, d, n) + 2
      {
        WakingPays(s, c, s', n, d);
      }
      OnePays(s, s', list, n, c, 2, 2 * n + 2);
    } else {
      forall d
        ensures CpuAhead(s', c, n) < CpuAhead(s, c, n) && CpuAhead(s', d, n) <= CpuAhead(s, d, n)
      {
        QuietPays(s, c, s', n, d);
      }
      OnePays(s, s', list, n, c, 0, 1);
    }
  }

  lemma ProceedingKeepsList(s: State, c: Cpu, s': State)
    requires Proceeds(s, c, s')
    ensures c in s.cpus && s'.cpus.Keys == s.cpus.Keys
  {
  }

  predicate AllIdle(s: State) {
    forall c | c in s.cpus :: s.cpus[c].pc.Idle?
  }

  lemma IdleIsQuiet(s: State, owner: Option<Cpu>)
    requires InvAt(s, owner) && AllIdle(s)
    ensures s.pending == 0 && s.lock == None && forall c | c in s.cpus :: !s.cpus[c].running && !s.cpus[c].hasWaiter
  {
    forall c | c in s.cpus
      ensures owner != Some(c) && s.lock != Some(c) && !s.cpus[c].running && !s.cpus[c].hasWaiter
    {
      assert CpuOk(c, s.cpus[c], s.lock, owner, s.pending, Todo(s, owner));
    }
  }

  function Last(r: seq<State>): State
    requires r != []
  {
    r[|r| - 1]
  }

  /** As long as a thread is inside the protocol, there is a step that brings all closer to the end. */
  lemma OneMoreStep(s: State, owner: Option<Cpu>, list: seq<Cpu>) returns (s': State)
    requires InvAt(s, owner) && !AllIdle(s) && (forall c | c in s.cpus :: c in list) && |s.cpus| <= |list|
    ensures Next(s, s') && AllAhead(s', list, |list|) < AllAhead(s, list, |list|) && s'.cpus.Keys == s.cpus.Keys
  {
    var c :| c in s.cpus && !s.cpus[c].pc.Idle?;
    hide InvAt, AllAhead, ThreadStep;
    var d := Mover(s, c, owner);
    s' := UnblockedCanStep(s, d, owner);
    ProceedingKeepsList(s, d, s');
    ProceedingPays(s, d, s', list);
  }

  /** From every state of every run the calls that are under way can all be completed. */
  lemma {:induction false} AllCanFinish(r: seq<State>, list: seq<Cpu>) returns (t: seq<State>)
    requires Run(r) && (forall c | c in Last(r).cpus :: c in list) && |Last(r).cpus| <= |list|
    ensures Run(t) && r <= t && Last(t).cpus.Keys == Last(r).cpus.Keys && AllIdle(Last(t))
    decreases AllAhead(Last(r), list, |list|)
  {
    hide Next, InvAt, AllAhead, AllIdle, Init;
    var s := Last(r);
    if AllIdle(s) {
      t := r;
    } else {
      var owner := RunInvariant(r, |r| - 1);
      var s' := OneMoreStep(s, owner, list);
      RunGrows(r, s');
      hide Run;
      assert Last(r + [s']) == s' && |s'.cpus| == |s'.cpus.Keys| == |s.cpus.Keys| == |s.cpus|;
      t := AllCanFinish(r + [s'], list);
    }
  }

  lemma {:induction false} Listing(cs: set<Cpu>) returns (list: seq<Cpu>)
    ensures |list| == |cs| && forall c | c in cs :: c in list
  {
    if cs == {} {
      list := [];
    } else {
      var c :| c in cs;
      var rest := Listing(cs - {c});
      list := [c] + rest;
    }
  }

  lemma CanFinish(r: seq<State>) returns (t: seq<State>)
    requires Run(r)
    ensures Run(t) && r <= t && Last(t).cpus.Keys == Last(r).cpus.Keys && AllIdle(Last(t))
    ensures Last(t).pending == 0 && Last(t).lock == None
    ensures forall c | c in Last(t).cpus :: !Last(t).cpus[c].running && !Last(t).cpus[c].hasWaiter
  {
    hide Next, Init;
    var list := Listing(Last(r).cpus.Keys);
    assert |Last(r).cpus| == |Last(r).cpus.Keys|;
    t := AllCanFinish(r, list);
    var owner := RunInvariant(t, |t| - 1);
    IdleIsQuiet(Last(t), owner);
  }

  /** The scan of an initiator finds nobody running. */
  lemma {:induction false} ScanThrough(r: seq<State>, c: Cpu) returns (t: seq<State>)
    requires Run(r) && c in Last(r).cpus && Last(r).cpus[c].pc.Scan?
    requires Last(r).cpus[c].pc.todo <= Last(r).cpus.Keys && Last(r).cpus[c].pc.seen == 0
    requires forall d | d in Last(r).cpus :: !Last(r).cpus[d].running
    ensures Run(t) && r <= t && c in Last(t).cpus && Last(t).cpus[c].pc.WaitTest? && Last(t).pending == 1
    decreases |Last(r).cpus[c].pc.todo|
  {
    var s := Last(r);
    var todo := s.cpus[c].pc.todo;
    hide Init;
    if todo == {} {
      var s' := Put(s, c, WaitTest).(pending := 1);
      assert ScanDone(s, c, s') && ThreadStep(s, c, s');
      RunGrows(r, s');
      t := r + [s'];
    } else {
      var other :| other in todo;
      var s' := Put(s, c, Scan(todo - {other}, 0));
      assert ScanStep(s, c, other, s') && ThreadStep(s, c, s');
      RunGrows(r, s');
      hide Run, Next;
      t := ScanThrough(r + [s'], c);
    }
  }

  /** However a run has gone, every CPU on the list can get into an exclusive section. */
  lemma CanEnter(r: seq<State>, c: Cpu) returns (t: seq<State>)
    requires Run(r) && c in Last(r).cpus
    ensures Run(t) && r <= t && Inside(t, |t| - 1, c) == 1
  {
    var q := CanFinish(r);
    hide Init, AllIdle;
    var s := Last(q);
    assert s.cpus[c].pc.Idle?;
    var s1 := Put(s, c, StartLock);
    assert StartCall(s, c, s1) && ThreadStep(s, c, s1);
    RunGrows(q, s1);
    var s2 := Put(s1, c, StartIdle).(lock := Some(c));
    assert TakeLock(s1, c, s2) && ThreadStep(s1, c, s2);
    RunGrows(q + [s1], s2);
    var s3 := Put(s2, c, Scan(s2.cpus.Keys, 0)).(pending := 1);
    assert StartIdleStep(s2, c, s3) && ThreadStep(s2, c, s3);
    RunGrows(q + [s1] + [s2], s3);
    var scanned := ScanThrough(q + [s1] + [s2] + [s3], c);
    hide Run;
    t := Finish(scanned, c);
  }

  lemma Finish(r: seq<State>, c: Cpu) returns (t: seq<State>)
    requires Run(r) && c in Last(r).cpus && Last(r).cpus[c].pc.WaitTest? && Last(r).pending == 1
    ensures Run(t) && r <= t && Inside(t, |t| - 1, c) == 1
  {
    var s := Last(r);
    var s' := Unlock(Put(s, c, InExclusive(1)));
    assert WaitTestStep(s, c, s') && ThreadStep(s, c, s');
    RunGrows(r, s');
    t := r + [s'];
    CountsAreCalls(t, |t| - 1, c);
  }

  /** However a run has gone, every CPU on the list can get to run. */
  lemma CanRun(r: seq<State>, c: Cpu) returns (t: seq<State>)
    requires Run(r) && c in Last(r).cpus
    ensures Run(t) && r <= t && Executing(t, |t| - 1, c) == 1
  {
    var q := CanFinish(r);
    var s := Last(q);
    assert s.cpus[c].pc.Idle?;
    hide Run, Next, AllIdle;
    t := ExecThrough(q, c);
  }

  lemma ExecThrough(r: seq<State>, c: Cpu) returns (t: seq<State>)
    requires Run(r) && c in Last(r).cpus && Last(r).cpus[c].pc.Idle? && Last(r).pending == 0
    ensures Run(t) && r <= t && Executing(t, |t| - 1, c) == 1
  {
    var s := Last(r);
    var s1 := PutRunning(s, c, ExecRead, true);
    assert ExecCall(s, c, s1) && ThreadStep(s, c, s1);
    assert Next(s, s1);
    var s2 := Put(s1, c, Running);
    assert ExecReadStep(s1, c, s2) && ThreadStep(s1, c, s2);
    assert Next(s1, s2) && Runs(s2, c) == 1;
    hide Run, Next, Executing, Runs;
    RunGrows(r, s1);
    RunGrows(r + [s1], s2);
    t := r + [s1] + [s2];
    CountsAreCalls(t, |t| - 1, c);
  }
}
