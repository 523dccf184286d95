/** The ioctl inhibitor of accel/accel-blocker.c.

    Lock k is the counting lock of CPU k; the last lock is accel_in_ioctl_lock.  Any number
    of threads issue ioctls outside the big lock while inhibitors come and go.  A transition
    is one atomic access to a counting lock or to the event; the event's three values and
    its read, exchange and futex steps are those of util/qemu-thread-posix.c.
 */
module IoctlBlocker {
  import opened Options

  type Thread = nat

  datatype Event = EvSet | EvFree | EvBusy

  datatype LockCnt = LockCnt(count: nat, holder: Option<Thread>)

  datatype Pc =
    | Idle
    | IoctlBegin(l: nat)            // accel_[cpu_]ioctl_begin: incrementing lock l
    | InIoctl(l: nat)               // the ioctl itself
    | SetRead                       // accel_[cpu_]ioctl_end: count dropped, qemu_event_set reads the event
    | SetXchg                       // qemu_event_set: about to exchange
    | SetWake                       // qemu_event_set: found it busy, about to wake the sleepers
    | Acquire(k: nat)               // accel_ioctl_inhibit_begin: locking lock k
    | Reset                         // resetting the event
    | Check(k: nat, busy: bool)     // accel_has_to_wait: about to read the count of lock k
    | WaitRead                      // qemu_event_wait: reading the event
    | WaitCas                       // qemu_event_wait: compare-and-swap free to busy
    | WaitFutex                     // qemu_event_wait: futex wait on busy
    | WaitAsleep
    | Inhibited                     // between inhibit_begin and inhibit_end
    | Release(k: nat)               // accel_ioctl_inhibit_end: k locks released so far

  datatype State = State(threads: map<Thread, Pc>, locks: seq<LockCnt>, ev: Event, bql: Option<Thread>)

  function Put(s: State, t: Thread, pc: Pc): State {
    s.(threads := s.threads[t := pc])
  }

  /** The k-th lock that accel_ioctl_inhibit_end releases: the global one, then the CPUs'. */
  function ReleaseOrder(n: nat, k: nat): nat
    requires k < n
  {
    if k == 0 then n - 1 else k - 1
  }

  // ----- ioctls -----

  /** With the big lock held an ioctl is not counted; it takes no step here. */
  ghost predicate BeginCall(s: State, t: Thread, s': State) {
    && t in s.threads && s.threads[t].Idle? && s.bql != Some(t)
    && exists l | 0 <= l < |s.locks| :: s' == Put(s, t, IoctlBegin(l))
  }

  /** qemu_lockcnt_inc: from zero it needs the lock free, from non-zero it does not. */
  ghost predicate IncStep(s: State, t: Thread, s': State) {
    && t in s.threads && s.threads[t].IoctlBegin? && s.threads[t].l < |s.locks|
    && var l := s.threads[t].l;
       var lc := s.locks[l];
    && (lc.count > 0 || lc.holder.None?)
    && s' == Put(s, t, InIoctl(l)).(locks := s.locks[l := lc.(count := lc.count + 1)])
  }

  ghost predicate DecStep(s: State, t: Thread, s': State) {
    && t in s.threads && s.threads[t].InIoctl? && s.threads[t].l < |s.locks|
    && var l := s.threads[t].l;
       var lc := s.locks[l];
    && lc.count > 0
    && s' == Put(s, t, SetRead).(locks := s.locks[l := lc.(count := lc.count - 1)])
  }

  ghost predicate SetReadStep(s: State, t: Thread, s': State) {
    && t in s.threads && s.threads[t].SetRead?
    && s' == Put(s, t, if s.ev.EvSet? then Idle else SetXchg)
  }

  ghost predicate SetXchgStep(s: State, t: Thread, s': State) {
    && t in s.threads && s.threads[t].SetXchg?
    && s' == Put(s, t, if s.ev.EvBusy? then SetWake else Idle).(ev := EvSet)
  }

  ghost predicate SetWakeStep(s: State, t: Thread, s': State) {
    && t in s.threads && s.threads[t].SetWake?
    && s' == s.(threads := map u | u in s.threads ::
                  if u == t then Idle else if s.threads[u].WaitAsleep? then Reset else s.threads[u])
  }

  // ----- the inhibitor -----

  ghost predicate InhibitCall(s: State, t: Thread, s': State) {
    && t in s.threads && s.threads[t].Idle? && s.bql == Some(t)
    && s' == Put(s, t, Acquire(0))
  }

  ghost predicate AcquireStep(s: State, t: Thread, s': State) {
    && t in s.threads && s.threads[t].Acquire? && s.threads[t].k < |s.locks|
    && var k := s.threads[t].k;
    && s.locks[k].holder.None?
    && s' == Put(s, t, if k + 1 == |s.locks| then Reset else Acquire(k + 1))
               .(locks := s.locks[k := s.locks[k].(holder := Some(t))])
  }

  /** qemu_event_reset turns set into free and leaves free and busy alone. */
  ghost predicate ResetStep(s: State, t: Thread, s': State) {
    && t in s.threads && s.threads[t].Reset?
    && s' == Put(s, t, Check(0, false)).(ev := if s.ev.EvSet? then EvFree else s.ev)
  }

  /** Reads one count; the global count is skipped when a CPU is already busy. */
  ghost predicate CheckStep(s: State, t: Thread, s': State) {
    && t in s.threads && s.threads[t].Check? && s.threads[t].k < |s.locks|
    && var k := s.threads[t].k;
       var busy := s.threads[t].busy || s.locks[k].count > 0;
       s' == Put(s, t, if k + 1 < |s.locks| then Check(k + 1, busy) else if busy then WaitRead else Inhibited)
  }

  ghost predicate WaitReadStep(s: State, t: Thread, s': State) {
    && t in s.threads && s.threads[t].WaitRead?
    && s' == Put(s, t, match s.ev case EvSet => Reset case EvFree => WaitCas case EvBusy => WaitFutex)
  }

  ghost predicate WaitCasStep(s: State, t: Thread, s': State) {
    && t in s.threads && s.threads[t].WaitCas?
    && s' == if s.ev.EvSet? then Put(s, t, Reset) else Put(s, t, WaitFutex).(ev := EvBusy)
  }

  ghost predicate WaitFutexStep(s: State, t: Thread, s': State) {
    && t in s.threads && s.threads[t].WaitFutex?
    && s' == Put(s, t, if s.ev.EvBusy? then WaitAsleep else Reset)
  }

  ghost predicate InhibitEnd(s: State, t: Thread, s': State) {
    && t in s.threads && s.threads[t].Inhibited?
    && s' == Put(s, t, Release(0))
  }

  ghost predicate ReleaseStep(s: State, t: Thread, s': State) {
    && t in s.threads && s.threads[t].Release? && s.threads[t].k < |s.locks|
    && var k := s.threads[t].k;
       var l := ReleaseOrder(|s.locks|, k);
       s' == Put(s, t, if k + 1 == |s.locks| then Idle else Release(k + 1))
               .(locks := s.locks[l := s.locks[l].(holder := None)])
  }

  // ----- the environment -----

  ghost predicate SpuriousWake(s: State, t: Thread, s': State) {
    && t in s.threads && s.threads[t].WaitAsleep?
    && s' == Put(s, t, Reset)
  }

  /** The big lock changes hands only between ioctls, and never inside inhibit_begin. */
  ghost predicate BqlStep(s: State, t: Thread, s': State) {
    && t in s.threads && (s.threads[t].Idle? || s.threads[t].Inhibited?)
    && (|| (s.bql.None? && s' == s.(bql := Some(t)))
        || (s.bql == Some(t) && s' == s.(bql := None)))
  }

  ghost predicate ThreadStep(s: State, t: Thread, s': State) {
    || BeginCall(s, t, s') || IncStep(s, t, s') || DecStep(s, t, s')
    || SetReadStep(s, t, s') || SetXchgStep(s, t, s') || SetWakeStep(s, t, s')
    || InhibitCall(s, t, s') || AcquireStep(s, t, s') || ResetStep(s, t, s') || CheckStep(s, t, s')
    || WaitReadStep(s, t, s') || WaitCasStep(s, t, s') || WaitFutexStep(s, t, s')
    || InhibitEnd(s, t, s') || ReleaseStep(s, t, s')
  }

  ghost predicate Next(s: State, s': State) {
    exists t :: ThreadStep(s, t, s') || SpuriousWake(s, t, s') || BqlStep(s, t, s')
  }

  /** There is at least the global lock. */
  ghost predicate Init(s: State) {
    && |s.locks| > 0 && s.bql.None?
    && (forall l | 0 <= l < |s.locks| :: s.locks[l] == LockCnt(0, None))
    && (forall t | t in s.threads :: s.threads[t].Idle?)
  }

  // ----- the invariant -----

  function Users(threads: map<Thread, Pc>, l: nat): set<Thread> {
    set t | t in threads && threads[t] == InIoctl(l)
  }

  /** Which locks a thread holds. */
  predicate Holds(pc: Pc, n: nat, l: nat) {
    match pc
    case Acquire(k) => l < k
    case Release(k) => k == 0 || k - 1 <= l < n - 1
    case Reset | Check(_, _) | WaitRead | WaitCas | WaitFutex | WaitAsleep | Inhibited => true
    case _ => false
  }

  /** Inside accel_ioctl_inhibit_begin. */
  predicate Beginning(pc: Pc) {
    pc.Acquire? || pc.Reset? || pc.Check? || pc.WaitRead? || pc.WaitCas? || pc.WaitFutex? || pc.WaitAsleep?
  }

  /** Decided to wait and not yet looping back to the reset. */
  predicate Waiting(pc: Pc) {
    pc.WaitRead? || pc.WaitCas? || pc.WaitFutex? || pc.WaitAsleep? || (pc.Check? && pc.busy)
  }

  /** A thread whose ioctl is in progress or that has still to set the event for it. */
  predicate WillSet(pc: Pc) {
    pc.InIoctl? || pc.SetRead? || pc.SetXchg?
  }

  /** The locks below this index are known to the thread to have no ioctl. */
  predicate Quiet(pc: Pc, l: nat) {
    match pc
    case Check(k, busy) => !busy && l < k
    case Inhibited | Release(_) => true
    case _ => false
  }

  predicate PcOk(t: Thread, pc: Pc, n: nat, bql: Option<Thread>) {
    && (Beginning(pc) ==> bql == Some(t))
    && match pc
       case IoctlBegin(l) => l < n
       case InIoctl(l) => l < n
       case Acquire(k) => k < n
       case Check(k, _) => k < n
       case Release(k) => k < n
       case _ => true
  }

  predicate LockOk(l: nat, lc: LockCnt, threads: map<Thread, Pc>, n: nat) {
    && lc.count == |Users(threads, l)|
    && (lc.holder.Some? ==> lc.holder.value in threads && Holds(threads[lc.holder.value], n, l))
    && (forall t | t in threads && Holds(threads[t], n, l) :: lc.holder == Some(t))
    && (forall t | t in threads && Holds(threads[t], n, l) && Quiet(threads[t], l) :: lc.count == 0)
  }

  /** The event will reach a thread that decided to wait. */
  ghost predicate EventOk(s: State, pc: Pc) {
    && (pc.WaitFutex? || pc.WaitAsleep? ==> !s.ev.EvFree?)
    && (Waiting(pc) && !s.ev.EvSet? ==> exists u :: u in s.threads && WillSet(s.threads[u]))
    && (pc.WaitAsleep? && s.ev.EvSet? ==> exists u :: u in s.threads && s.threads[u].SetWake?)
  }

  predicate PcsOk(s: State) {
    forall t | t in s.threads :: PcOk(t, s.threads[t], |s.locks|, s.bql)
  }

  predicate LocksOk(s: State) {
    forall l | 0 <= l < |s.locks| :: LockOk(l, s.locks[l], s.threads, |s.locks|)
  }

  ghost predicate EventsOk(s: State) {
    forall t | t in s.threads :: EventOk(s, s.threads[t])
  }

  ghost predicate Inv(s: State) {
    |s.locks| > 0 && PcsOk(s) && LocksOk(s) && EventsOk(s)
  }

  // ----- every step keeps the invariant -----

  /** Thread t moves without touching a lock: what it holds and knows to be quiet is justified. */
  lemma LocksUnmoved(s: State, t: Thread, pc: Pc, threads: map<Thread, Pc>)
    requires LocksOk(s) && t in s.threads && threads == s.threads[t := pc]
    requires !s.threads[t].InIoctl? && !pc.InIoctl?
    requires forall l | 0 <= l < |s.locks| :: Holds(pc, |s.locks|, l) == Holds(s.threads[t], |s.locks|, l)
    requires forall l | 0 <= l < |s.locks| && Holds(pc, |s.locks|, l) && Quiet(pc, l) :: s.locks[l].count == 0
    ensures forall l | 0 <= l < |s.locks| :: LockOk(l, s.locks[l], threads, |s.locks|)
  {
    forall l | 0 <= l < |s.locks|
      ensures LockOk(l, s.locks[l], threads, |s.locks|)
    {
      assert LockOk(l, s.locks[l], s.threads, |s.locks|);
      assert Users(threads, l) == Users(s.threads, l);
    }
  }

  /** Only one thread is ever past the acquisition of a lock, so only one waits on the event. */
  lemma OneBeginner(s: State, t: Thread, u: Thread)
    requires PcsOk(s) && t in s.threads && u in s.threads
    requires Beginning(s.threads[t]) && Beginning(s.threads[u])
    ensures t == u
  {
  }

  /** The event is untouched and t, if it promised to set it or wake, still does. */
  lemma EventsUnmoved(s: State, t: Thread, s': State)
    requires EventsOk(s) && t in s.threads && t in s'.threads
    requires s'.threads == s.threads[t := s'.threads[t]] && s'.ev == s.ev
    requires WillSet(s.threads[t]) ==> WillSet(s'.threads[t]) || s.ev.EvSet?
    requires !s.threads[t].SetWake?
    requires EventOk(s, s'.threads[t])
    ensures EventsOk(s')
  {
    forall v | v in s'.threads
      ensures EventOk(s', s'.threads[v])
    {
      if v != t { assert EventOk(s, s.threads[v]); }
      var pc := s'.threads[v];
      if Waiting(pc) && !s.ev.EvSet? {
        var u :| u in s.threads && WillSet(s.threads[u]);
        assert u in s'.threads && WillSet(s'.threads[u]);
      }
      if pc.WaitAsleep? && s.ev.EvSet? {
        var u :| u in s.threads && s.threads[u].SetWake?;
        assert u in s'.threads && s'.threads[u].SetWake?;
      }
    }
  }

  lemma BeginCallKeepsInv(s: State, t: Thread, s': State)
    requires Inv(s) && BeginCall(s, t, s')
    ensures Inv(s')
  {
    LocksUnmoved(s, t, s'.threads[t], s'.threads);
    EventsUnmoved(s, t, s');
  }

  lemma UsersMoved(threads: map<Thread, Pc>, t: Thread, pc: Pc, l: nat)
    requires t in threads
    ensures |Users(threads[t := pc], l)| == |Users(threads, l)| - One(threads[t] == InIoctl(l)) + One(pc == InIoctl(l))
  {
    var rest := Users(threads, l) - {t};
    assert Users(threads, l) == if threads[t] == InIoctl(l) then rest + {t} else rest;
    assert Users(threads[t := pc], l) == if pc == InIoctl(l) then rest + {t} else rest;
  }

  /** A thread that holds no lock moves, and the count of lock l follows. */
  lemma CountFollows(l: nat, lc: LockCnt, lc': LockCnt, threads: map<Thread, Pc>, t: Thread, pc: Pc, n: nat)
    requires LockOk(l, lc, threads, n) && t in threads && !Holds(threads[t], n, l) && !Holds(pc, n, l)
             && lc'.holder == lc.holder
    requires lc'.count == lc.count - One(threads[t] == InIoctl(l)) + One(pc == InIoctl(l))
    requires lc'.count > lc.count ==> lc.count > 0 || lc.holder.None?
    ensures LockOk(l, lc', threads[t := pc], n)
  {
    UsersMoved(threads, t, pc, l);
    hide Holds, Quiet, Users;
  }

  lemma IncKeepsLock(s: State, t: Thread, s': State, l: nat)
    requires LocksOk(s) && IncStep(s, t, s') && l < |s.locks|
    ensures LockOk(l, s'.locks[l], s'.threads, |s.locks|)
  {
    CountFollows(l, s.locks[l], s'.locks[l], s.threads, t, s'.threads[t], |s.locks|);
  }

  lemma IncKeepsInv(s: State, t: Thread, s': State)
    requires Inv(s) && IncStep(s, t, s')
    ensures Inv(s')
  {
    forall l | 0 <= l < |s.locks|
      ensures LockOk(l, s'.locks[l], s'.threads, |s.locks|)
    {
      IncKeepsLock(s, t, s', l);
    }
    EventsUnmoved(s, t, s');
  }

  lemma DecKeepsLock(s: State, t: Thread, s': State, l: nat)
    requires LocksOk(s) && DecStep(s, t, s') && l < |s.locks|
    ensures LockOk(l, s'.locks[l], s'.threads, |s.locks|)
  {
    CountFollows(l, s.locks[l], s'.locks[l], s.threads, t, s'.threads[t], |s.locks|);
  }

  lemma DecKeepsInv(s: State, t: Thread, s': State)
    requires Inv(s) && DecStep(s, t, s')
    ensures Inv(s')
  {
    forall l | 0 <= l < |s.locks|
      ensures LockOk(l, s'.locks[l], s'.threads, |s.locks|)
    {
      DecKeepsLock(s, t, s', l);
    }
    EventsUnmoved(s, t, s');
  }

  lemma SetReadKeepsInv(s: State, t: Thread, s': State)
    requires Inv(s) && SetReadStep(s, t, s')
    ensures Inv(s')
  {
    LocksUnmoved(s, t, s'.threads[t], s'.threads);
    EventsUnmoved(s, t, s');
  }

  lemma SetXchgKeepsInv(s: State, t: Thread, s': State)
    requires Inv(s) && SetXchgStep(s, t, s')
    ensures Inv(s')
  {
    LocksUnmoved(s, t, s'.threads[t], s'.threads);
    forall v | v in s'.threads
      ensures EventOk(s', s'.threads[v])
    {
      if v != t && s.threads[v].WaitAsleep? {
        assert EventOk(s, s.threads[v]);
        if s.ev.EvBusy? {
          assert t in s'.threads && s'.threads[t].SetWake?;
        } else {
          var u :| u in s.threads && s.threads[u].SetWake?;
          assert u in s'.threads && s'.threads[u].SetWake?;
        }
      }
    }
  }

  lemma SetWakeKeepsLocks(s: State, t: Thread, s': State)
    requires LocksOk(s) && SetWakeStep(s, t, s')
    ensures LocksOk(s')
  {
    forall l | 0 <= l < |s.locks|
      ensures LockOk(l, s'.locks[l], s'.threads, |s.locks|)
    {
      assert LockOk(l, s.locks[l], s.threads, |s.locks|);
      assert Users(s'.threads, l) == Users(s.threads, l);
    }
  }

  lemma SetWakeKeepsInv(s: State, t: Thread, s': State)
    requires Inv(s) && SetWakeStep(s, t, s')
    ensures Inv(s')
  {
    SetWakeKeepsLocks(s, t, s');
    hide LocksOk;
    forall v | v in s'.threads
      ensures EventOk(s', s'.threads[v])
    {
      assert EventOk(s, s.threads[v]);
      if Waiting(s'.threads[v]) && !s.ev.EvSet? {
        var u :| u in s.threads && WillSet(s.threads[u]);
        assert u in s'.threads && WillSet(s'.threads[u]);
      }
    }
    forall v | v in s'.threads
      ensures PcOk(v, s'.threads[v], |s.locks|, s.bql)
    {
      assert PcOk(v, s.threads[v], |s.locks|, s.bql);
    }
  }

  lemma InhibitCallKeepsInv(s: State, t: Thread, s': State)
    requires Inv(s) && InhibitCall(s, t, s')
    ensures Inv(s')
  {
    LocksUnmoved(s, t, s'.threads[t], s'.threads);
    EventsUnmoved(s, t, s');
  }

  lemma AcquireKeepsInv(s: State, t: Thread, s': State)
    requires Inv(s) && AcquireStep(s, t, s')
    ensures Inv(s')
  {
    var k := s.threads[t].k;
    forall l | 0 <= l < |s.locks|
      ensures LockOk(l, s'.locks[l], s'.threads, |s.locks|)
    {
      assert LockOk(l, s.locks[l], s.threads, |s.locks|);
      assert Users(s'.threads, l) == Users(s.threads, l);
    }
    EventsUnmoved(s, t, s');
  }

  lemma ResetKeepsInv(s: State, t: Thread, s': State)
    requires Inv(s) && ResetStep(s, t, s')
    ensures Inv(s')
  {
    LocksUnmoved(s, t, s'.threads[t], s'.threads);
    forall v | v in s'.threads
      ensures EventOk(s', s'.threads[v])
    {
      if v != t && Beginning(s.threads[v]) { OneBeginner(s, t, v); }
    }
  }

  lemma CheckKeepsInv(s: State, t: Thread, s': State)
    requires Inv(s) && CheckStep(s, t, s')
    ensures Inv(s')
  {
    var k := s.threads[t].k;
    forall l | 0 <= l < |s.locks| && Holds(s'.threads[t], |s.locks|, l) && Quiet(s'.threads[t], l)
      ensures s.locks[l].count == 0
    {
      assert LockOk(l, s.locks[l], s.threads, |s.locks|);
    }
    LocksUnmoved(s, t, s'.threads[t], s'.threads);
    assert EventOk(s, s.threads[t]);
    if s.locks[k].count > 0 {
      assert LockOk(k, s.locks[k], s.threads, |s.locks|);
      var u :| u in Users(s.threads, k);
      assert u in s.threads && WillSet(s.threads[u]);
    }
    EventsUnmoved(s, t, s');
  }

  lemma WaitReadKeepsInv(s: State, t: Thread, s': State)
    requires Inv(s) && WaitReadStep(s, t, s')
    ensures Inv(s')
  {
    LocksUnmoved(s, t, s'.threads[t], s'.threads);
    assert EventOk(s, s.threads[t]);
    EventsUnmoved(s, t, s');
  }

  lemma WaitCasKeepsInv(s: State, t: Thread, s': State)
    requires Inv(s) && WaitCasStep(s, t, s')
    ensures Inv(s')
  {
    LocksUnmoved(s, t, s'.threads[t], s'.threads);
    assert EventOk(s, s.threads[t]);
    if s.ev.EvSet? {
      EventsUnmoved(s, t, s');
    } else {
      forall v | v in s'.threads
        ensures EventOk(s', s'.threads[v])
      {
        if v != t && Beginning(s.threads[v]) { OneBeginner(s, t, v); }
        var u :| u in s.threads && WillSet(s.threads[u]);
        assert u in s'.threads && WillSet(s'.threads[u]);
      }
    }
  }

  lemma WaitFutexKeepsInv(s: State, t: Thread, s': State)
    requires Inv(s) && WaitFutexStep(s, t, s')
    ensures Inv(s')
  {
    LocksUnmoved(s, t, s'.threads[t], s'.threads);
    assert EventOk(s, s.threads[t]);
    EventsUnmoved(s, t, s');
  }

  lemma InhibitEndKeepsInv(s: State, t: Thread, s': State)
    requires Inv(s) && InhibitEnd(s, t, s')
    ensures Inv(s')
  {
    forall l | 0 <= l < |s.locks| && Holds(s'.threads[t], |s.locks|, l) && Quiet(s'.threads[t], l)
      ensures s.locks[l].count == 0
    {
      assert LockOk(l, s.locks[l], s.threads, |s.locks|);
    }
    LocksUnmoved(s, t, s'.threads[t], s'.threads);
    EventsUnmoved(s, t, s');
  }

  lemma ReleaseKeepsInv(s: State, t: Thread, s': State)
    requires Inv(s) && ReleaseStep(s, t, s')
    ensures Inv(s')
  {
    forall l | 0 <= l < |s.locks|
      ensures LockOk(l, s'.locks[l], s'.threads, |s.locks|)
    {
      assert LockOk(l, s.locks[l], s.threads, |s.locks|);
      assert Users(s'.threads, l) == Users(s.threads, l);
    }
    EventsUnmoved(s, t, s');
  }

  lemma SpuriousWakeKeepsInv(s: State, t: Thread, s': State)
    requires Inv(s) && SpuriousWake(s, t, s')
    ensures Inv(s')
  {
    LocksUnmoved(s, t, s'.threads[t], s'.threads);
    EventsUnmoved(s, t, s');
  }

  lemma BqlKeepsInv(s: State, t: Thread, s': State)
    requires Inv(s) && BqlStep(s, t, s')
    ensures Inv(s')
  {
  }

  lemma NextKeepsInv(s: State, s': State)
    requires Inv(s) && Next(s, s')
    ensures Inv(s')
  {
    var t :| ThreadStep(s, t, s') || SpuriousWake(s, t, s') || BqlStep(s, t, s');
    if BeginCall(s, t, s') { BeginCallKeepsInv(s, t, s'); }
    else if IncStep(s, t, s') { IncKeepsInv(s, t, s'); }
    else if DecStep(s, t, s') { DecKeepsInv(s, t, s'); }
    else if SetReadStep(s, t, s') { SetReadKeepsInv(s, t, s'); }
    else if SetXchgStep(s, t, s') { SetXchgKeepsInv(s, t, s'); }
    else if SetWakeStep(s, t, s') { SetWakeKeepsInv(s, t, s'); }
    else if InhibitCall(s, t, s') { InhibitCallKeepsInv(s, t, s'); }
    else if AcquireStep(s, t, s') { AcquireKeepsInv(s, t, s'); }
    else if ResetStep(s, t, s') { ResetKeepsInv(s, t, s'); }
    else if CheckStep(s, t, s') { CheckKeepsInv(s, t, s'); }
    else if WaitReadStep(s, t, s') { WaitReadKeepsInv(s, t, s'); }
    else if WaitCasStep(s, t, s') { WaitCasKeepsInv(s, t, s'); }
    else if WaitFutexStep(s, t, s') { WaitFutexKeepsInv(s, t, s'); }
    else if InhibitEnd(s, t, s') { InhibitEndKeepsInv(s, t, s'); }
    else if ReleaseStep(s, t, s') { ReleaseKeepsInv(s, t, s'); }
    else if SpuriousWake(s, t, s') { SpuriousWakeKeepsInv(s, t, s'); }
    else { BqlKeepsInv(s, t, s'); }
  }

  // ----- all runs -----

  ghost predicate Run(r: seq<State>) {
    && |r| > 0 && Init(r[0])
    && forall i | 0 <= i < |r| - 1 :: Next(r[i], r[i + 1])
  }

  lemma InitInv(s: State)
    requires Init(s)
    ensures Inv(s)
  {
  }

  lemma {:induction false} RunInvariant(r: seq<State>, i: nat)
    requires Run(r) && i < |r|
    ensures Inv(r[i])
  {
    hide Next, Init, Inv;
    if i == 0 {
      InitInv(r[0]);
    } else {
      RunInvariant(r, i - 1);
      assert Next(r[i - 1], r[i - 1 + 1]);
      NextKeepsInv(r[i - 1], r[i]);
    }
  }

  lemma RunGrows(r: seq<State>, s: State)
    requires Run(r) && Next(r[|r| - 1], s)
    ensures Run(r + [s])
  {
    hide Next, Init;
    var t := r + [s];
    forall i | 0 <= i < |t| - 1
      ensures Next(t[i], t[i + 1])
    {
      if i < |r| - 1 {
        assert Next(r[i], r[i + 1]);
      }
    }
  }

  /** Between inhibit_begin and inhibit_end no counted ioctl is in progress, on any CPU or
      globally, although the counts were read one after the other. */
  lemma InhibitionIsExclusive(r: seq<State>, i: nat, t: Thread, u: Thread)
    requires Run(r) && i < |r| && t in r[i].threads && u in r[i].threads
    requires r[i].threads[t].Inhibited?
    ensures !r[i].threads[u].InIoctl?
    ensures u != t ==> !r[i].threads[u].Inhibited?
  {
    RunInvariant(r, i);
    var s := r[i];
    assert LockOk(0, s.locks[0], s.threads, |s.locks|);
    forall l | 0 <= l < |s.locks|
      ensures Users(s.threads, l) == {}
    {
      assert LockOk(l, s.locks[l], s.threads, |s.locks|);
    }
    assert PcOk(u, s.threads[u], |s.locks|, s.bql);
    assert s.threads[u].InIoctl? ==> u in Users(s.threads, s.threads[u].l);
  }

  /** An inhibitor asleep on the event has a thread that will still set it, or one that
      has set it and has still to wake the sleepers. */
  lemma NoLostWakeup(r: seq<State>, i: nat, t: Thread)
    requires Run(r) && i < |r| && t in r[i].threads && r[i].threads[t].WaitAsleep?
    ensures exists u :: u in r[i].threads && (WillSet(r[i].threads[u]) || r[i].threads[u].SetWake?)
  {
    RunInvariant(r, i);
    assert EventOk(r[i], r[i].threads[t]);
    if r[i].ev.EvSet? {
      var u :| u in r[i].threads && r[i].threads[u].SetWake?;
    } else {
      var u :| u in r[i].threads && WillSet(r[i].threads[u]);
    }
  }

  // ----- no deadlock -----

  predicate Blocked(s: State, t: Thread)
    requires t in s.threads
  {
    var pc := s.threads[t];
    || pc.WaitAsleep?
    || (pc.IoctlBegin? && pc.l < |s.locks| && s.locks[pc.l].count == 0 && s.locks[pc.l].holder.Some?)
    || (pc.Acquire? && pc.k < |s.locks| && s.locks[pc.k].holder.Some?)
  }

  ghost predicate CanStep(s: State, t: Thread) {
    exists s' :: ThreadStep(s, t, s')
  }

  /** A step of a thread inside the protocol that makes no new call. */
  ghost predicate Proceeds(s: State, t: Thread, s': State) {
    ThreadStep(s, t, s') && t in s.threads && !s.threads[t].Idle?
  }

  lemma UnblockedCanStep(s: State, t: Thread) returns (s': State)
    requires Inv(s) && t in s.threads && !s.threads[t].Idle? && !Blocked(s, t)
    ensures Proceeds(s, t, s')
  {
    var pc := s.threads[t];
    var n := |s.locks|;
    assert PcOk(t, pc, n, s.bql);
    if pc.IoctlBegin? || pc.InIoctl? || pc.SetRead? || pc.SetXchg? || pc.SetWake? {
      s' := UnblockedIoctl(s, t);
    } else if pc.Acquire? {
      s' := Put(s, t, if pc.k + 1 == n then Reset else Acquire(pc.k + 1))
                  .(locks := s.locks[pc.k := s.locks[pc.k].(holder := Some(t))]);
      assert AcquireStep(s, t, s') && ThreadStep(s, t, s');
    } else if pc.Reset? {
      s' := Put(s, t, Check(0, false)).(ev := if s.ev.EvSet? then EvFree else s.ev);
      assert ResetStep(s, t, s') && ThreadStep(s, t, s');
    } else if pc.Check? {
      var busy := pc.busy || s.locks[pc.k].count > 0;
      s' := Put(s, t, if pc.k + 1 < n then Check(pc.k + 1, busy) else if busy then WaitRead else Inhibited);
      assert CheckStep(s, t, s') && ThreadStep(s, t, s');
    } else if pc.WaitRead? {
      s' := Put(s, t, match s.ev case EvSet => Reset case EvFree => WaitCas case EvBusy => WaitFutex);
      assert WaitReadStep(s, t, s') && ThreadStep(s, t, s');
    } else if pc.WaitCas? {
      s' := if s.ev.EvSet? then Put(s, t, Reset) else Put(s, t, WaitFutex).(ev := EvBusy);
      assert WaitCasStep(s, t, s') && ThreadStep(s, t, s');
    } else if pc.WaitFutex? {
      s' := Put(s, t, if s.ev.EvBusy? then WaitAsleep else Reset);
      assert WaitFutexStep(s, t, s') && ThreadStep(s, t, s');
    } else if pc.Inhibited? {
      s' := Put(s, t, Release(0));
      assert InhibitEnd(s, t, s') && ThreadStep(s, t, s');
    } else {
      var l := ReleaseOrder(n, pc.k);
      s' := Put(s, t, if pc.k + 1 == n then Idle else Release(pc.k + 1))
                  .(locks := s.locks[l := s.locks[l].(holder := None)]);
      assert ReleaseStep(s, t, s') && ThreadStep(s, t, s');
    }
  }

  lemma UnblockedIoctl(s: State, t: Thread) returns (s': State)
    requires Inv(s) && t in s.threads && !Blocked(s, t)
    requires s.threads[t].IoctlBegin? || WillSet(s.threads[t]) || s.threads[t].SetWake?
    ensures Proceeds(s, t, s')
  {
    var pc := s.threads[t];
    assert PcOk(t, pc, |s.locks|, s.bql);
    if pc.IoctlBegin? {
      s' := Put(s, t, InIoctl(pc.l)).(locks := s.locks[pc.l := s.locks[pc.l].(count := s.locks[pc.l].count + 1)]);
      assert IncStep(s, t, s') && ThreadStep(s, t, s');
    } else if pc.InIoctl? {
      assert LockOk(pc.l, s.locks[pc.l], s.threads, |s.locks|);
      assert t in Users(s.threads, pc.l);
      s' := Put(s, t, SetRead).(locks := s.locks[pc.l := s.locks[pc.l].(count := s.locks[pc.l].count - 1)]);
      assert DecStep(s, t, s') && ThreadStep(s, t, s');
    } else if pc.SetRead? {
      s' := Put(s, t, if s.ev.EvSet? then Idle else SetXchg);
      assert SetReadStep(s, t, s') && ThreadStep(s, t, s');
    } else if pc.SetXchg? {
      s' := Put(s, t, if s.ev.EvBusy? then SetWake else Idle).(ev := EvSet);
      assert SetXchgStep(s, t, s') && ThreadStep(s, t, s');
    } else {
      s' := s.(threads := map u | u in s.threads ::
                     if u == t then Idle else if s.threads[u].WaitAsleep? then Reset else s.threads[u]);
      assert SetWakeStep(s, t, s') && ThreadStep(s, t, s');
    }
  }

  lemma LockHolder(s: State, l: nat) returns (h: Thread)
    requires Inv(s) && l < |s.locks| && s.locks[l].holder.Some?
    ensures h in s.threads && s.locks[l].holder == Some(h) && Holds(s.threads[h], |s.locks|, l)
  {
    assert LockOk(l, s.locks[l], s.threads, |s.locks|);
    h := s.locks[l].holder.value;
  }

  /** Whoever holds lock l is not itself stuck on a lock, unless it is a beginner asleep
      on the event or queued behind a thread that is past inhibit_begin. */
  lemma Mover(s: State, t: Thread) returns (d: Thread)
    requires Inv(s) && t in s.threads && !s.threads[t].Idle?
    ensures d in s.threads && !s.threads[d].Idle? && !Blocked(s, d)
  {
    d := t;
    if Blocked(s, d) && s.threads[d].IoctlBegin? {
      var l := s.threads[d].l;
      d := LockHolder(s, l);
    }
    if Blocked(s, d) && s.threads[d].Acquire? {
      var h := LockHolder(s, s.threads[d].k);
      if Beginning(s.threads[h]) { OneBeginner(s, d, h); }
      assert s.threads[h].Inhibited? || s.threads[h].Release?;
      d := h;
    }
    assert d in s.threads && !s.threads[d].Idle?;
    if s.threads[d].WaitAsleep? {
      assert EventOk(s, s.threads[d]);
      if s.ev.EvSet? {
        d :| d in s.threads && s.threads[d].SetWake?;
      } else {
        d :| d in s.threads && WillSet(s.threads[d]);
      }
    }
  }

  /** In every reachable state in which some thread is inside the protocol, some thread
      inside the protocol can take a step of its own. */
  lemma NoDeadlock(r: seq<State>, i: nat, t: Thread)
    requires Run(r) && i < |r| && t in r[i].threads && !r[i].threads[t].Idle?
    ensures exists d :: d in r[i].threads && !r[i].threads[d].Idle? && CanStep(r[i], d)
  {
    RunInvariant(r, i);
    var d := Mover(r[i], t);
    var s' := UnblockedCanStep(r[i], d);
  }
}
