/** The exclusive-section protocol of cpu-common.c.

    Every CPU thread is a program counter; one transition is one access to shared
    memory, one lock operation or one sleep.  Threads interleave freely, and any number
    of CPUs may be on the list.  The full barriers in the source make the shared
    accesses sequentially consistent, which is what interleaving assumes.
 */
module Exclusive {
  import opened Options

  type Cpu = nat

  /** Where a CPU thread stands.  A comment names the function it is in. */
  datatype Pc =
    | Idle                                  // outside all four functions
    | StartLock                             // start_exclusive: taking the list lock
    | StartIdle                             // start_exclusive: testing pending_cpus in exclusive_idle
    | StartSleep                            // start_exclusive: asleep on exclusive_resume
    | Scan(todo: set<Cpu>, seen: nat)       // start_exclusive: walking the CPU list
    | WaitTest                              // start_exclusive: testing pending_cpus > 1
    | WaitSleep                             // start_exclusive: asleep on exclusive_cond
    | WaitLock                              // start_exclusive: woken, taking the lock again
    | InExclusive(depth: nat)               // between start_exclusive and end_exclusive
    | EndLock                               // end_exclusive: taking the lock
    | EndReset                              // end_exclusive: about to clear pending_cpus
    | ExecRead                              // cpu_exec_start: running set, reading pending_cpus
    | ExecLock                              // cpu_exec_start: taking the lock
    | ExecTest                              // cpu_exec_start: testing has_waiter
    | ExecIdle                              // cpu_exec_start: testing pending_cpus in exclusive_idle
    | ExecSleep                             // cpu_exec_start: asleep on exclusive_resume
    | ExecRelock                            // cpu_exec_start: woken, taking the lock again
    | Running                               // between cpu_exec_start and cpu_exec_end
    | StopRead                              // cpu_exec_end: running cleared, reading pending_cpus
    | StopLock                              // cpu_exec_end: taking the lock
    | StopTest                              // cpu_exec_end: testing has_waiter

  datatype CpuState = CpuState(pc: Pc, running: bool, hasWaiter: bool)

  datatype State = State(cpus: map<Cpu, CpuState>, pending: int, lock: Option<Cpu>)

  predicate HoldsLock(pc: Pc) {
    pc.StartIdle? || pc.Scan? || pc.WaitTest? || pc.EndReset? || pc.ExecTest? || pc.ExecIdle? || pc.StopTest?
  }

  predicate WantsLock(pc: Pc) {
    pc.StartLock? || pc.WaitLock? || pc.EndLock? || pc.ExecLock? || pc.ExecRelock? || pc.StopLock?
  }

  predicate Asleep(pc: Pc) {
    pc.StartSleep? || pc.WaitSleep? || pc.ExecSleep?
  }

  /** The thread that raised pending_cpus and has yet to clear it. */
  predicate Initiator(pc: Pc) {
    pc.Scan? || pc.WaitTest? || pc.WaitSleep? || pc.WaitLock? || pc.InExclusive? || pc.EndLock? || pc.EndReset?
  }

  /** The exclusive section proper: start_exclusive has returned, pending_cpus is not yet cleared. */
  predicate Owns(pc: Pc) {
    pc.InExclusive? || pc.EndLock? || pc.EndReset?
  }

  predicate SetsRunning(pc: Pc) {
    pc.ExecRead? || pc.ExecLock? || pc.ExecTest? || pc.Running?
  }

  /** From here a CPU that start_exclusive has counted still reaches its decrement. */
  predicate WillDecrement(pc: Pc) {
    SetsRunning(pc) || pc.StopRead? || pc.StopLock? || pc.StopTest?
  }

  function Put(s: State, c: Cpu, pc: Pc): State
    requires c in s.cpus
  {
    s.(cpus := s.cpus[c := s.cpus[c].(pc := pc)])
  }

  function PutRunning(s: State, c: Cpu, pc: Pc, running: bool): State
    requires c in s.cpus
  {
    s.(cpus := s.cpus[c := s.cpus[c].(pc := pc, running := running)])
  }

  function Unlock(s: State): State {
    s.(lock := None)
  }

  // ----- start_exclusive -----

  ghost predicate TakeLock(s: State, c: Cpu, s': State) {
    && c in s.cpus && s.lock == None && WantsLock(s.cpus[c].pc)
    && var to := match s.cpus[c].pc
                 case StartLock => StartIdle
                 case WaitLock => WaitTest
                 case EndLock => EndReset
                 case ExecLock => ExecTest
                 case ExecRelock => ExecIdle
                 case _ => StopTest;
       s' == Put(s, c, to).(lock := Some(c))
  }

  ghost predicate StartCall(s: State, c: Cpu, s': State) {
    && c in s.cpus
    && (|| (s.cpus[c].pc.Idle? && s' == Put(s, c, StartLock))
        || (s.cpus[c].pc.InExclusive? && s' == Put(s, c, InExclusive(s.cpus[c].pc.depth + 1))))
  }

  ghost predicate StartIdleStep(s: State, c: Cpu, s': State) {
    && c in s.cpus && s.cpus[c].pc.StartIdle?
    && if s.pending != 0 then
         s' == Unlock(Put(s, c, StartSleep))
       else
         s' == Put(s, c, Scan(s.cpus.Keys, 0)).(pending := 1)
  }

  /** One read of other_cpu->running; a running CPU is marked and counted. */
  ghost predicate ScanStep(s: State, c: Cpu, other: Cpu, s': State) {
    && c in s.cpus && s.cpus[c].pc.Scan? && other in s.cpus && other in s.cpus[c].pc.todo
    && var pc := s.cpus[c].pc;
       if s.cpus[other].running then
         var marked := s.(cpus := s.cpus[other := s.cpus[other].(hasWaiter := true)]);
         s' == Put(marked, c, Scan(pc.todo - {other}, pc.seen + 1))
       else
         s' == Put(s, c, Scan(pc.todo - {other}, pc.seen))
  }

  ghost predicate ScanDone(s: State, c: Cpu, s': State) {
    && c in s.cpus && s.cpus[c].pc.Scan? && s.cpus[c].pc.todo == {}
    && s' == Put(s, c, WaitTest).(pending := s.cpus[c].pc.seen + 1)
  }

  ghost predicate WaitTestStep(s: State, c: Cpu, s': State) {
    && c in s.cpus && s.cpus[c].pc.WaitTest?
    && if s.pending > 1 then
         s' == Unlock(Put(s, c, WaitSleep))
       else
         s' == Unlock(Put(s, c, InExclusive(1)))
  }

  // ----- end_exclusive -----

  ghost predicate EndCall(s: State, c: Cpu, s': State) {
    && c in s.cpus && s.cpus[c].pc.InExclusive? && s.cpus[c].pc.depth > 0
    && var left := s.cpus[c].pc.depth - 1;
       s' == Put(s, c, if left > 0 then InExclusive(left) else EndLock)
  }

  function Resume(st: CpuState): CpuState {
    match st.pc
    case StartSleep => st.(pc := StartLock)
    case ExecSleep => st.(pc := ExecRelock)
    case _ => st
  }

  /** Clear pending_cpus, broadcast exclusive_resume, release the lock. */
  ghost predicate EndResetStep(s: State, c: Cpu, s': State) {
    && c in s.cpus && s.cpus[c].pc.EndReset?
    && var idle := Put(s, c, Idle);
       s' == State(map d | d in idle.cpus :: Resume(idle.cpus[d]), 0, None)
  }

  // ----- cpu_exec_start -----

  ghost predicate ExecCall(s: State, c: Cpu, s': State) {
    && c in s.cpus && s.cpus[c].pc.Idle?
    && s' == PutRunning(s, c, ExecRead, true)
  }

  ghost predicate ExecReadStep(s: State, c: Cpu, s': State) {
    && c in s.cpus && s.cpus[c].pc.ExecRead?
    && s' == Put(s, c, if s.pending != 0 then ExecLock else Running)
  }

  ghost predicate ExecTestStep(s: State, c: Cpu, s': State) {
    && c in s.cpus && s.cpus[c].pc.ExecTest?
    && if s.cpus[c].hasWaiter then
         s' == Unlock(Put(s, c, Running))
       else
         s' == PutRunning(s, c, ExecIdle, false)
  }

  ghost predicate ExecIdleStep(s: State, c: Cpu, s': State) {
    && c in s.cpus && s.cpus[c].pc.ExecIdle?
    && if s.pending != 0 then
         s' == Unlock(Put(s, c, ExecSleep))
       else
         s' == Unlock(PutRunning(s, c, Running, true))
  }

  // ----- cpu_exec_end -----

  ghost predicate StopCall(s: State, c: Cpu, s': State) {
    && c in s.cpus && s.cpus[c].pc.Running?
    && s' == PutRunning(s, c, StopRead, false)
  }

  ghost predicate StopReadStep(s: State, c: Cpu, s': State) {
    && c in s.cpus && s.cpus[c].pc.StopRead?
    && s' == Put(s, c, if s.pending != 0 then StopLock else Idle)
  }

  /** qemu_cond_signal: one sleeper on exclusive_cond is woken, if there is one. */
  ghost predicate Signalled(s: State, s': State) {
    || ((forall d | d in s.cpus :: !s.cpus[d].pc.WaitSleep?) && s' == s)
    || (exists d :: d in s.cpus && s.cpus[d].pc.WaitSleep? && s' == Put(s, d, WaitLock))
  }

  ghost predicate StopTestStep(s: State, c: Cpu, s': State) {
    && c in s.cpus && s.cpus[c].pc.StopTest?
    && if s.cpus[c].hasWaiter then
         var s1 := Unlock(s.(cpus := s.cpus[c := s.cpus[c].(pc := Idle, hasWaiter := false)],
             pending := s.pending - 1));
         if s1.pending == 1 then Signalled(s1, s') else s' == s1
       else
         s' == Unlock(Put(s, c, Idle))
  }

  // ----- the environment -----

  /** A condition variable may wake a sleeper for no reason. */
  ghost predicate SpuriousWake(s: State, c: Cpu, s': State) {
    && c in s.cpus
    && match s.cpus[c].pc
       case StartSleep => s' == Put(s, c, StartLock)
       case WaitSleep => s' == Put(s, c, WaitLock)
       case ExecSleep => s' == Put(s, c, ExecRelock)
       case _ => false
  }

  /** cpu_list_add: a CPU joins the list under the list lock. */
  ghost predicate ListAdd(s: State, c: Cpu, s': State) {
    && c !in s.cpus && s.lock == None
    && s' == s.(cpus := s.cpus[c := CpuState(Idle, false, false)])
  }

  /** cpu_list_remove: an idle CPU leaves the list under the list lock. */
  ghost predicate ListRemove(s: State, c: Cpu, s': State) {
    && c in s.cpus && s.cpus[c].pc.Idle? && s.lock == None
    && s' == s.(cpus := s.cpus - {c})
  }

  /** A step that thread c takes by itself. */
  ghost predicate ThreadStep(s: State, c: Cpu, s': State) {
    || TakeLock(s, c, s')
    || StartCall(s, c, s') || StartIdleStep(s, c, s')
    || (exists other :: ScanStep(s, c, other, s')) || ScanDone(s, c, s') || WaitTestStep(s, c, s')
    || EndCall(s, c, s') || EndResetStep(s, c, s')
    || ExecCall(s, c, s') || ExecReadStep(s, c, s') || ExecTestStep(s, c, s') || ExecIdleStep(s, c, s')
    || StopCall(s, c, s') || StopReadStep(s, c, s') || StopTestStep(s, c, s')
  }

  ghost predicate Next(s: State, s': State) {
    exists c :: ThreadStep(s, c, s') || SpuriousWake(s, c, s') || ListAdd(s, c, s') || ListRemove(s, c, s')
  }

  ghost predicate Init(s: State) {
    && s.pending == 0 && s.lock == None
    && forall c | c in s.cpus :: s.cpus[c] == CpuState(Idle, false, false)
  }

  // ----- the invariant -----

  function Waiters(s: State): set<Cpu> {
    set c | c in s.cpus && s.cpus[c].hasWaiter
  }

  /** The CPUs that the initiator, if it is scanning, has still to look at. */
  function Todo(s: State, owner: Option<Cpu>): set<Cpu> {
    if owner.Some? && owner.value in s.cpus && s.cpus[owner.value].pc.Scan? then s.cpus[owner.value].pc.todo else {}
  }

  /** What holds of CPU c in state st, given who holds the lock, who is the initiator, what
      pending_cpus is and which CPUs are still to be scanned. */
  predicate CpuOk(c: Cpu, st: CpuState, lock: Option<Cpu>, owner: Option<Cpu>, pending: int, todo: set<Cpu>) {
    && (HoldsLock(st.pc) <==> lock == Some(c))
    && (Initiator(st.pc) <==> owner == Some(c))
    && (st.running <==> SetsRunning(st.pc))
    && (st.hasWaiter ==> WillDecrement(st.pc) && owner.Some? && c !in todo)
    && (st.pc.InExclusive? ==> st.pc.depth > 0)
    && (st.pc.StartSleep? || st.pc.ExecSleep? ==> pending != 0)
    && (st.pc.Running? && owner.Some? && c !in todo ==> st.hasWaiter)
  }

  /** Outside the scan, pending_cpus is one plus the number of CPUs with has_waiter; inside
      it, it is one and the scan has counted the CPUs with has_waiter. */
  predicate PendingOk(s: State, owner: Option<Cpu>) {
    if owner.None? then
      s.pending == 0
    else
      && owner.value in s.cpus
      && var pc := s.cpus[owner.value].pc;
      && (if pc.Scan? then s.pending == 1 && pc.seen == |Waiters(s)| && pc.todo <= s.cpus.Keys
          else s.pending == 1 + |Waiters(s)|)
      && (Owns(pc) ==> s.pending == 1)
      && (pc.WaitSleep? ==> s.pending > 1)
  }

  predicate InvAt(s: State, owner: Option<Cpu>) {
    && (s.lock.Some? ==> s.lock.value in s.cpus)
    && PendingOk(s, owner)
    && forall c | c in s.cpus :: CpuOk(c, s.cpus[c], s.lock, owner, s.pending, Todo(s, owner))
  }

  // ----- every step keeps the invariant -----

  /** A step that leaves every has_waiter and the CPU list alone leaves the waiters alone. */
  lemma SameWaiters(s: State, s': State)
    requires s'.cpus.Keys == s.cpus.Keys
    requires forall c | c in s.cpus :: s'.cpus[c].hasWaiter == s.cpus[c].hasWaiter
    ensures Waiters(s') == Waiters(s)
  {
  }

  /** CPU c moves, perhaps taking or releasing the lock, and no count changes. */
  lemma OneCpuMoves(s: State, c: Cpu, st: CpuState, lock: Option<Cpu>, s': State, owner: Option<Cpu>)
    requires InvAt(s, owner) && c in s.cpus && !s.cpus[c].pc.Scan? && !st.pc.Scan?
    requires s' == State(s.cpus[c := st], s.pending, lock)
    requires st.hasWaiter == s.cpus[c].hasWaiter
    requires lock == s.lock || (s.lock == None && lock == Some(c)) || (s.lock == Some(c) && lock == None)
    requires CpuOk(c, st, lock, owner, s.pending, Todo(s, owner))
    requires owner == Some(c) ==> (Owns(st.pc) ==> s.pending == 1) && (st.pc.WaitSleep? ==> s.pending > 1)
    ensures InvAt(s', owner)
  {
    SameWaiters(s, s');
  }

  lemma TakeLockKeepsInv(s: State, c: Cpu, s': State, owner: Option<Cpu>)
    requires InvAt(s, owner) && TakeLock(s, c, s')
    ensures InvAt(s', owner)
  {
    OneCpuMoves(s, c, s'.cpus[c], s'.lock, s', owner);
  }

  lemma StartCallKeepsInv(s: State, c: Cpu, s': State, owner: Option<Cpu>)
    requires InvAt(s, owner) && StartCall(s, c, s')
    ensures InvAt(s', owner)
  {
    OneCpuMoves(s, c, s'.cpus[c], s'.lock, s', owner);
  }

  lemma StartIdleKeepsInv(s: State, c: Cpu, s': State, owner: Option<Cpu>)
    requires InvAt(s, owner) && StartIdleStep(s, c, s')
    ensures InvAt(s', if s.pending == 0 then Some(c) else owner)
  {
    if s.pending == 0 {
      SameWaiters(s, s');
      assert Waiters(s) == {};
    } else {
      OneCpuMoves(s, c, s'.cpus[c], s'.lock, s', owner);
    }
  }

  lemma ScanStepKeepsInv(s: State, c: Cpu, other: Cpu, s': State, owner: Option<Cpu>)
    requires InvAt(s, owner) && ScanStep(s, c, other, s')
    ensures InvAt(s', owner)
  {
    if s.cpus[other].running {
      ScanMarkKeepsInv(s, c, other, s', owner);
    } else {
      SameWaiters(s, s');
    }
  }

  lemma ScanMarkKeepsInv(s: State, c: Cpu, other: Cpu, s': State, owner: Option<Cpu>)
    requires InvAt(s, owner) && ScanStep(s, c, other, s') && s.cpus[other].running
    ensures InvAt(s', owner)
  {
    assert other != c;
    assert Waiters(s') == Waiters(s) + {other};
  }

  lemma ScanDoneKeepsInv(s: State, c: Cpu, s': State, owner: Option<Cpu>)
    requires InvAt(s, owner) && ScanDone(s, c, s')
    ensures InvAt(s', owner)
  {
    SameWaiters(s, s');
  }

  lemma WaitTestKeepsInv(s: State, c: Cpu, s': State, owner: Option<Cpu>)
    requires InvAt(s, owner) && WaitTestStep(s, c, s')
    ensures InvAt(s', owner)
  {
    OneCpuMoves(s, c, s'.cpus[c], s'.lock, s', owner);
  }

  lemma EndCallKeepsInv(s: State, c: Cpu, s': State, owner: Option<Cpu>)
    requires InvAt(s, owner) && EndCall(s, c, s')
    ensures InvAt(s', owner)
  {
    OneCpuMoves(s, c, s'.cpus[c], s'.lock, s', owner);
  }

  lemma EndResetKeepsInv(s: State, c: Cpu, s': State, owner: Option<Cpu>)
    requires InvAt(s, owner) && EndResetStep(s, c, s')
    ensures InvAt(s', None)
  {
    assert Waiters(s) == {};
    forall d | d in s'.cpus
      ensures CpuOk(d, s'.cpus[d], s'.lock, None, s'.pending, Todo(s', None))
    {
      assert d !in Waiters(s);
    }
  }

  lemma ExecCallKeepsInv(s: State, c: Cpu, s': State, owner: Option<Cpu>)
    requires InvAt(s, owner) && ExecCall(s, c, s')
    ensures InvAt(s', owner)
  {
    OneCpuMoves(s, c, s'.cpus[c], s'.lock, s', owner);
  }

  lemma ExecReadKeepsInv(s: State, c: Cpu, s': State, owner: Option<Cpu>)
    requires InvAt(s, owner) && ExecReadStep(s, c, s')
    ensures InvAt(s', owner)
  {
    OneCpuMoves(s, c, s'.cpus[c], s'.lock, s', owner);
  }

  lemma ExecTestKeepsInv(s: State, c: Cpu, s': State, owner: Option<Cpu>)
    requires InvAt(s, owner) && ExecTestStep(s, c, s')
    ensures InvAt(s', owner)
  {
    OneCpuMoves(s, c, s'.cpus[c], s'.lock, s', owner);
  }

  lemma ExecIdleKeepsInv(s: State, c: Cpu, s': State, owner: Option<Cpu>)
    requires InvAt(s, owner) && ExecIdleStep(s, c, s')
    ensures InvAt(s', owner)
  {
    OneCpuMoves(s, c, s'.cpus[c], s'.lock, s', owner);
  }

  lemma StopCallKeepsInv(s: State, c: Cpu, s': State, owner: Option<Cpu>)
    requires InvAt(s, owner) && StopCall(s, c, s')
    ensures InvAt(s', owner)
  {
    OneCpuMoves(s, c, s'.cpus[c], s'.lock, s', owner);
  }

  lemma StopReadKeepsInv(s: State, c: Cpu, s': State, owner: Option<Cpu>)
    requires InvAt(s, owner) && StopReadStep(s, c, s')
    ensures InvAt(s', owner)
  {
    OneCpuMoves(s, c, s'.cpus[c], s'.lock, s', owner);
  }

  /** CPU c, counted by the initiator, gives up its count. */
  lemma Uncounted(s: State, c: Cpu, s1: State, owner: Option<Cpu>)
    requires InvAt(s, owner) && c in s.cpus && s.cpus[c].pc.StopTest? && s.cpus[c].hasWaiter
    requires s1 == Unlock(s.(cpus := s.cpus[c := s.cpus[c].(pc := Idle, hasWaiter := false)], pending := s.pending - 1))
    ensures PendingOk(s1, owner)
            || (s1.pending == 1 && owner.Some? && owner.value in s1.cpus && s1.cpus[owner.value].pc.WaitSleep?)
    ensures owner.Some? && owner.value in s1.cpus && !s1.cpus[owner.value].pc.Scan? && s1.pending == 1 + |Waiters(s1)|
    ensures forall d | d in s1.cpus :: CpuOk(d, s1.cpus[d], None, owner, s1.pending, {})
  {
    assert Waiters(s1) == Waiters(s) - {c};
    assert c in Waiters(s);
  }

  lemma StopTestKeepsInv(s: State, c: Cpu, s': State, owner: Option<Cpu>)
    requires InvAt(s, owner) && StopTestStep(s, c, s')
    ensures InvAt(s', owner)
  {
    if s.cpus[c].hasWaiter {
      StopCountedKeepsInv(s, c, s', owner);
    } else {
      OneCpuMoves(s, c, s'.cpus[c], s'.lock, s', owner);
    }
  }

  lemma StopCountedKeepsInv(s: State, c: Cpu, s': State, owner: Option<Cpu>)
    requires InvAt(s, owner) && StopTestStep(s, c, s') && s.cpus[c].hasWaiter
    ensures InvAt(s', owner)
  {
    var s1 := Unlock(s.(cpus := s.cpus[c := s.cpus[c].(pc := Idle, hasWaiter := false)], pending := s.pending - 1));
    Uncounted(s, c, s1, owner);
    SameWaiters(s1, s');
  }

  lemma SpuriousWakeKeepsInv(s: State, c: Cpu, s': State, owner: Option<Cpu>)
    requires InvAt(s, owner) && SpuriousWake(s, c, s')
    ensures InvAt(s', owner)
  {
    OneCpuMoves(s, c, s'.cpus[c], s'.lock, s', owner);
  }

  lemma ListAddKeepsInv(s: State, c: Cpu, s': State, owner: Option<Cpu>)
    requires InvAt(s, owner) && ListAdd(s, c, s')
    ensures InvAt(s', owner)
  {
    assert Waiters(s') == Waiters(s);
  }

  lemma ListRemoveKeepsInv(s: State, c: Cpu, s': State, owner: Option<Cpu>)
    requires InvAt(s, owner) && ListRemove(s, c, s')
    ensures InvAt(s', owner)
  {
    assert Waiters(s') == Waiters(s);
  }

  lemma ThreadStepKeepsInv(s: State, c: Cpu, s': State, owner: Option<Cpu>) returns (owner': Option<Cpu>)
    requires InvAt(s, owner) && ThreadStep(s, c, s')
    ensures InvAt(s', owner')
  {
    owner' := owner;
    if TakeLock(s, c, s') { TakeLockKeepsInv(s, c, s', owner); }
    else if StartCall(s, c, s') { StartCallKeepsInv(s, c, s', owner); }
    else if StartIdleStep(s, c, s') {
      StartIdleKeepsInv(s, c, s', owner);
      owner' := if s.pending == 0 then Some(c) else owner;
    }
    else if ScanDone(s, c, s') { ScanDoneKeepsInv(s, c, s', owner); }
    else if WaitTestStep(s, c, s') { WaitTestKeepsInv(s, c, s', owner); }
    else if EndCall(s, c, s') { EndCallKeepsInv(s, c, s', owner); }
    else if EndResetStep(s, c, s') { EndResetKeepsInv(s, c, s', owner); owner' := None; }
    else if ExecCall(s, c, s') { ExecCallKeepsInv(s, c, s', owner); }
    else if ExecReadStep(s, c, s') { ExecReadKeepsInv(s, c, s', owner); }
    else if ExecTestStep(s, c, s') { ExecTestKeepsInv(s, c, s', owner); }
    else if ExecIdleStep(s, c, s') { ExecIdleKeepsInv(s, c, s', owner); }
    else if StopCall(s, c, s') { StopCallKeepsInv(s, c, s', owner); }
    else if StopReadStep(s, c, s') { StopReadKeepsInv(s, c, s', owner); }
    else if StopTestStep(s, c, s') { StopTestKeepsInv(s, c, s', owner); }
    else {
      var other :| ScanStep(s, c, other, s');
      ScanStepKeepsInv(s, c, other, s', owner);
    }
  }

  lemma NextKeepsInv(s: State, s': State, owner: Option<Cpu>) returns (owner': Option<Cpu>)
    requires InvAt(s, owner) && Next(s, s')
    ensures InvAt(s', owner')
  {
    owner' := owner;
    var c :| ThreadStep(s, c, s') || SpuriousWake(s, c, s') || ListAdd(s, c, s') || ListRemove(s, c, s');
    if ThreadStep(s, c, s') { owner' := ThreadStepKeepsInv(s, c, s', owner); }
    else if SpuriousWake(s, c, s') { SpuriousWakeKeepsInv(s, c, s', owner); }
    else if ListAdd(s, c, s') { ListAddKeepsInv(s, c, s', owner); }
    else { ListRemoveKeepsInv(s, c, s', owner); }
  }

  // ----- all runs -----

  /** A finite run from an initial state, in any interleaving. */
  ghost predicate Run(r: seq<State>) {
    && |r| > 0 && Init(r[0])
    && forall i | 0 <= i < |r| - 1 :: Next(r[i], r[i + 1])
  }

  lemma {:induction false} RunInvariant(r: seq<State>, i: nat) returns (owner: Option<Cpu>)
    requires Run(r) && i < |r|
    ensures InvAt(r[i], owner)
  {
    hide Next;
    if i == 0 {
      owner := None;
    } else {
      var before := RunInvariant(r, i - 1);
      assert Next(r[i - 1], r[i - 1 + 1]);
      owner := NextKeepsInv(r[i - 1], r[i], before);
    }
  }

  /** From the return of start_exclusive until pending_cpus is cleared, no other thread has
      pending_cpus raised, and none is between cpu_exec_start and cpu_exec_end. */
  lemma OwnerIsAlone(r: seq<State>, i: nat, c: Cpu, d: Cpu)
    requires Run(r) && i < |r| && c in r[i].cpus && d in r[i].cpus
    requires Owns(r[i].cpus[c].pc)
    ensures d != c ==> !Initiator(r[i].cpus[d].pc)
    ensures !r[i].cpus[d].pc.Running?
  {
    var owner := RunInvariant(r, i);
    var s := r[i];
    assert CpuOk(c, s.cpus[c], s.lock, owner, s.pending, Todo(s, owner));
    assert CpuOk(d, s.cpus[d], s.lock, owner, s.pending, Todo(s, owner));
    assert Waiters(s) == {};
    assert d !in Waiters(s);
  }

  // ----- calls and returns -----

  /** A call of start_exclusive by c returns: a nested one at once, an outermost one after its wait. */
  ghost predicate StartReturns(s: State, c: Cpu, s': State) {
    || (StartCall(s, c, s') && s.cpus[c].pc.InExclusive?)
    || (WaitTestStep(s, c, s') && s.pending <= 1)
  }

  /** A call of cpu_exec_start by c returns. */
  ghost predicate ExecReturns(s: State, c: Cpu, s': State) {
    || (ExecReadStep(s, c, s') && s.pending == 0)
    || (ExecTestStep(s, c, s') && s.cpus[c].hasWaiter)
    || (ExecIdleStep(s, c, s') && s.pending == 0)
  }

  /** Returns of start_exclusive less calls of end_exclusive by c, up to the state k of a run. */
  ghost function Inside(r: seq<State>, k: nat, c: Cpu): int
    requires k < |r|
  {
    if k == 0 then 0
    else Inside(r, k - 1, c) + One(StartReturns(r[k - 1], c, r[k])) - One(EndCall(r[k - 1], c, r[k]))
  }

  /** Returns of cpu_exec_start less calls of cpu_exec_end by c, up to the state k of a run. */
  ghost function Executing(r: seq<State>, k: nat, c: Cpu): int
    requires k < |r|
  {
    if k == 0 then 0
    else Executing(r, k - 1, c) + One(ExecReturns(r[k - 1], c, r[k])) - One(StopCall(r[k - 1], c, r[k]))
  }

  function Depth(s: State, c: Cpu): nat {
    if c in s.cpus && s.cpus[c].pc.InExclusive? then s.cpus[c].pc.depth else 0
  }

  function Runs(s: State, c: Cpu): nat {
    One(c in s.cpus && s.cpus[c].pc.Running?)
  }

  /** A step of another CPU, or a spurious wakeup, takes no CPU into or out of a section or a run. */
  lemma OthersKeepCounts(s: State, e: Cpu, s': State, c: Cpu)
    requires (ThreadStep(s, e, s') && e != c) || SpuriousWake(s, e, s') || ListAdd(s, e, s') || ListRemove(s, e, s')
    ensures Depth(s', c) == Depth(s, c) && Runs(s', c) == Runs(s, c)
  {
  }

  /** A step of c in which it neither returns from start_exclusive nor calls end_exclusive. */
  lemma OwnDepth(s: State, c: Cpu, s': State)
    requires ThreadStep(s, c, s') && !StartReturns(s, c, s') && !EndCall(s, c, s')
    ensures Depth(s', c) == Depth(s, c)
  {
  }

  /** A step of c in which it neither returns from cpu_exec_start nor calls cpu_exec_end. */
  lemma OwnRuns(s: State, c: Cpu, s': State)
    requires ThreadStep(s, c, s') && !ExecReturns(s, c, s') && !StopCall(s, c, s')
    ensures Runs(s', c) == Runs(s, c)
  {
  }

  lemma CallsCount(s: State, c: Cpu, s': State)
    ensures StartReturns(s, c, s') ==> Depth(s', c) == Depth(s, c) + 1 && !EndCall(s, c, s')
    ensures EndCall(s, c, s') ==> Depth(s', c) == Depth(s, c) - 1
    ensures ExecReturns(s, c, s') ==> Runs(s', c) == Runs(s, c) + 1 && !StopCall(s, c, s')
    ensures StopCall(s, c, s') ==> Runs(s', c) == Runs(s, c) - 1
    ensures StartReturns(s, c, s') || EndCall(s, c, s') || ExecReturns(s, c, s') || StopCall(s, c, s') ==>
            ThreadStep(s, c, s')
  {
  }

  lemma CountsStep(s: State, s': State, c: Cpu)
    requires Next(s, s')
    ensures Depth(s', c) == Depth(s, c) + One(StartReturns(s, c, s')) - One(EndCall(s, c, s'))
    ensures Runs(s', c) == Runs(s, c) + One(ExecReturns(s, c, s')) - One(StopCall(s, c, s'))
  {
    var e :| ThreadStep(s, e, s') || SpuriousWake(s, e, s') || ListAdd(s, e, s') || ListRemove(s, e, s');
    hide ThreadStep, SpuriousWake, ListAdd, ListRemove, StartReturns, EndCall, ExecReturns, StopCall, Depth, Runs;
    CallsCount(s, c, s');
    if ThreadStep(s, c, s') {
      if !StartReturns(s, c, s') && !EndCall(s, c, s') { OwnDepth(s, c, s'); }
      if !ExecReturns(s, c, s') && !StopCall(s, c, s') { OwnRuns(s, c, s'); }
    } else {
      OthersKeepCounts(s, e, s', c);
    }
  }

  /** exclusive_context_count is the number of exclusive sections that are open, and a CPU is
      running exactly if a cpu_exec_start of it has returned and no cpu_exec_end followed. */
  lemma {:induction false} CountsAreCalls(r: seq<State>, k: nat, c: Cpu)
    requires Run(r) && k < |r|
    ensures Inside(r, k, c) == Depth(r[k], c) && Executing(r, k, c) == Runs(r[k], c)
  {
    hide Next, StartReturns, EndCall, ExecReturns, StopCall;
    if k > 0 {
      CountsAreCalls(r, k - 1, c);
      assert Next(r[k - 1], r[k - 1 + 1]);
      CountsStep(r[k - 1], r[k], c);
    }
  }

  /** Between the return of its outermost start_exclusive and the call of the end_exclusive that
      belongs to it, a CPU is alone: no other CPU is in a section, and no CPU runs. */
  lemma MutualExclusion(r: seq<State>, k: nat, c: Cpu, d: Cpu)
    requires Run(r) && k < |r| && Inside(r, k, c) > 0
    ensures c in r[k].cpus && Owns(r[k].cpus[c].pc)
    ensures d != c ==> Inside(r, k, d) == 0
    ensures Executing(r, k, d) == 0
  {
    hide Run;
    CountsAreCalls(r, k, c);
    CountsAreCalls(r, k, d);
    if d in r[k].cpus {
      OwnerIsAlone(r, k, c, d);
    }
  }

  /** Inside a section start_exclusive returns at once and has no other effect; only the
      end_exclusive that belongs to the outermost call leaves. */
  lemma NestedCalls(r: seq<State>, c: Cpu) returns (deeper: State, out: State)
    requires Run(r) && Inside(r, |r| - 1, c) > 0
    ensures Run(r + [deeper]) && StartReturns(r[|r| - 1], c, deeper)
    ensures deeper == r[|r| - 1].(cpus := deeper.cpus) && deeper.cpus.Keys == r[|r| - 1].cpus.Keys
    ensures forall d | d in deeper.cpus && d != c :: deeper.cpus[d] == r[|r| - 1].cpus[d]
    ensures Run(r + [out]) && EndCall(r[|r| - 1], c, out)
    ensures c in out.cpus && (out.cpus[c].pc.InExclusive? <==> Inside(r, |r| - 1, c) > 1)
  {
    var s := r[|r| - 1];
    CountsAreCalls(r, |r| - 1, c);
    deeper := Put(s, c, InExclusive(s.cpus[c].pc.depth + 1));
    assert StartCall(s, c, deeper) && ThreadStep(s, c, deeper);
    out := Put(s, c, if s.cpus[c].pc.depth > 1 then InExclusive(s.cpus[c].pc.depth - 1) else EndLock);
    assert EndCall(s, c, out) && ThreadStep(s, c, out);
    RunGrows(r, deeper);
    RunGrows(r, out);
  }

  lemma RunGrows(r: seq<State>, s: State)
    requires Run(r) && Next(r[|r| - 1], s)
    ensures Run(r + [s])
  {
    hide Next, Init;
    var t := r + [s];
    forall i | 0 <= i < |t| - 1
      ensures Next(t[i], t[i + 1])
    {
      if i < |r| - 1 {
        assert Next(r[i], r[i + 1]);
      }
    }
  }

  /** Outside the scan, an active pending_cpus is one plus the number of CPUs with
      has_waiter; pending_cpus is zero exactly when no thread is an initiator. */
  lemma PendingCounts(r: seq<State>, i: nat)
    requires Run(r) && i < |r|
    ensures r[i].pending == 0 <==> forall c | c in r[i].cpus :: !Initiator(r[i].cpus[c].pc)
    ensures r[i].pending == 0 ==> Waiters(r[i]) == {}
    ensures forall c | c in r[i].cpus && Initiator(r[i].cpus[c].pc) && !r[i].cpus[c].pc.Scan? ::
              r[i].pending == 1 + |Waiters(r[i])|
  {
    var owner := RunInvariant(r, i);
    var s := r[i];
    if owner.Some? {
      var o := owner.value;
      assert CpuOk(o, s.cpus[o], s.lock, owner, s.pending, Todo(s, owner));
      assert Initiator(s.cpus[o].pc);
    }
  }

  /** A thread asleep on exclusive_cond has a counted CPU that is awake and must still
      decrement pending_cpus; a thread asleep on exclusive_resume has an initiator that
      must still clear pending_cpus. */
  lemma NoLostWakeup(r: seq<State>, i: nat, c: Cpu)
    requires Run(r) && i < |r| && c in r[i].cpus
    ensures r[i].cpus[c].pc.WaitSleep? ==>
              && r[i].pending > 1
              && exists d :: && d in r[i].cpus && r[i].cpus[d].hasWaiter
                             && WillDecrement(r[i].cpus[d].pc) && !Asleep(r[i].cpus[d].pc)
    ensures r[i].cpus[c].pc.StartSleep? || r[i].cpus[c].pc.ExecSleep? ==>
              && r[i].pending != 0
              && exists d :: d in r[i].cpus && Initiator(r[i].cpus[d].pc)
  {
    var owner := RunInvariant(r, i);
    var s := r[i];
    assert CpuOk(c, s.cpus[c], s.lock, owner, s.pending, Todo(s, owner));
    if s.cpus[c].pc.WaitSleep? {
      var d := CountedCpu(s, owner);
    } else if s.pending != 0 {
      assert CpuOk(owner.value, s.cpus[owner.value], s.lock, owner, s.pending, Todo(s, owner));
    }
  }

  lemma CountedCpu(s: State, owner: Option<Cpu>) returns (d: Cpu)
    requires InvAt(s, owner) && s.pending > 1
    ensures d in s.cpus && s.cpus[d].hasWaiter && WillDecrement(s.cpus[d].pc)
  {
    assert Waiters(s) != {};
    d :| d in Waiters(s);
    assert CpuOk(d, s.cpus[d], s.lock, owner, s.pending, Todo(s, owner));
  }

  // ----- no deadlock -----

  predicate Blocked(s: State, c: Cpu)
    requires c in s.cpus
  {
    Asleep(s.cpus[c].pc) || (WantsLock(s.cpus[c].pc) && s.lock.Some?)
  }

  ghost predicate CanStep(s: State, c: Cpu) {
    exists s' :: ThreadStep(s, c, s')
  }

  /** A step of a thread inside the protocol that makes no new call. */
  ghost predicate Proceeds(s: State, c: Cpu, s': State) {
    ThreadStep(s, c, s') && !StartCall(s, c, s') && !ExecCall(s, c, s')
  }

  lemma SignalPossible(s: State) returns (s': State)
    ensures Signalled(s, s')
  {
    if d :| d in s.cpus && s.cpus[d].pc.WaitSleep? {
      s' := Put(s, d, WaitLock);
    } else {
      s' := s;
    }
  }

  lemma UnblockedStopTest(s: State, c: Cpu) returns (s': State)
    requires c in s.cpus && s.cpus[c].pc.StopTest?
    ensures Proceeds(s, c, s')
  {
    var s1 := Unlock(s.(cpus := s.cpus[c := s.cpus[c].(pc := Idle, hasWaiter := false)], pending := s.pending - 1));
    var s2 := SignalPossible(s1);
    s' := if !s.cpus[c].hasWaiter then Unlock(Put(s, c, Idle)) else if s1.pending == 1 then s2 else s1;
    assert StopTestStep(s, c, s');
  }

  lemma UnblockedScan(s: State, c: Cpu) returns (s': State)
    requires c in s.cpus && s.cpus[c].pc.Scan? && s.cpus[c].pc.todo <= s.cpus.Keys
    ensures Proceeds(s, c, s')
  {
    var pc := s.cpus[c].pc;
    if pc.todo == {} {
      s' := Put(s, c, WaitTest).(pending := pc.seen + 1);
      assert ScanDone(s, c, s');
    } else {
      var other :| other in pc.todo;
      var marked := s.(cpus := s.cpus[other := s.cpus[other].(hasWaiter := true)]);
      s' := if s.cpus[other].running then Put(marked, c, Scan(pc.todo - {other}, pc.seen + 1))
                else Put(s, c, Scan(pc.todo - {other}, pc.seen));
      assert ScanStep(s, c, other, s');
    }
  }

  lemma UnblockedTakesLock(s: State, c: Cpu) returns (s': State)
    requires c in s.cpus && WantsLock(s.cpus[c].pc) && s.lock == None
    ensures Proceeds(s, c, s')
  {
    var to := match s.cpus[c].pc
              case StartLock => StartIdle
              case WaitLock => WaitTest
              case EndLock => EndReset
              case ExecLock => ExecTest
              case ExecRelock => ExecIdle
              case _ => StopTest;
    s' := Put(s, c, to).(lock := Some(c));
    assert TakeLock(s, c, s') && ThreadStep(s, c, s');
  }

  /** A thread that neither sleeps nor waits for a held lock has a step of its own. */
  lemma UnblockedCanStep(s: State, c: Cpu, owner: Option<Cpu>) returns (s': State)
    requires InvAt(s, owner) && c in s.cpus && !s.cpus[c].pc.Idle? && !Blocked(s, c)
    ensures Proceeds(s, c, s')
  {
    var st := s.cpus[c];
    assert CpuOk(c, st, s.lock, owner, s.pending, Todo(s, owner));
    if WantsLock(st.pc) {
      s' := UnblockedTakesLock(s, c);
    } else if st.pc.Scan? {
      s' := UnblockedScan(s, c);
    } else if st.pc.StopTest? {
      s' := UnblockedStopTest(s, c);
    } else if st.pc.StartIdle? {
      s' := if s.pending != 0 then Unlock(Put(s, c, StartSleep))
          else Put(s, c, Scan(s.cpus.Keys, 0)).(pending := 1);
      assert StartIdleStep(s, c, s');
    } else if st.pc.WaitTest? {
      s' := if s.pending > 1 then Unlock(Put(s, c, WaitSleep)) else Unlock(Put(s, c, InExclusive(1)));
      assert WaitTestStep(s, c, s');
    } else if st.pc.InExclusive? {
      s' := Put(s, c, if st.pc.depth > 1 then InExclusive(st.pc.depth - 1) else EndLock);
      assert EndCall(s, c, s') && s'.cpus[c].pc != InExclusive(st.pc.depth + 1);
    } else if st.pc.EndReset? {
      var idle := Put(s, c, Idle);
      s' := State(map d | d in idle.cpus :: Resume(idle.cpus[d]), 0, None);
      assert EndResetStep(s, c, s');
    } else {
      s' := UnblockedExec(s, c);
    }
  }

  lemma UnblockedExec(s: State, c: Cpu) returns (s': State)
    requires c in s.cpus
    requires s.cpus[c].pc.ExecRead? || s.cpus[c].pc.ExecTest? || s.cpus[c].pc.ExecIdle? || s.cpus[c].pc.Running?
             || s.cpus[c].pc.StopRead?
    ensures Proceeds(s, c, s')
  {
    var st := s.cpus[c];
    if st.pc.ExecRead? {
      s' := Put(s, c, if s.pending != 0 then ExecLock else Running);
      assert ExecReadStep(s, c, s');
    } else if st.pc.ExecTest? {
      s' := if st.hasWaiter then Unlock(Put(s, c, Running)) else PutRunning(s, c, ExecIdle, false);
      assert ExecTestStep(s, c, s');
    } else if st.pc.ExecIdle? {
      s' := if s.pending != 0 then Unlock(Put(s, c, ExecSleep)) else Unlock(PutRunning(s, c, Running, true));
      assert ExecIdleStep(s, c, s');
    } else if st.pc.Running? {
      s' := PutRunning(s, c, StopRead, false);
      assert StopCall(s, c, s');
    } else {
      s' := Put(s, c, if s.pending != 0 then StopLock else Idle);
      assert StopReadStep(s, c, s');
    }
  }

  /** In every reachable state in which some thread is inside the protocol, some thread
      inside the protocol can take a step of its own. */
  lemma NoDeadlock(r: seq<State>, i: nat, c: Cpu)
    requires Run(r) && i < |r| && c in r[i].cpus && !r[i].cpus[c].pc.Idle?
    ensures exists d :: d in r[i].cpus && !r[i].cpus[d].pc.Idle? && CanStep(r[i], d)
  {
    var owner := RunInvariant(r, i);
    var d := Mover(r[i], c, owner);
    var s' := UnblockedCanStep(r[i], d, owner);
  }

  lemma Mover(s: State, c: Cpu, owner: Option<Cpu>) returns (d: Cpu)
    requires InvAt(s, owner) && c in s.cpus && !s.cpus[c].pc.Idle?
    ensures d in s.cpus && !s.cpus[d].pc.Idle? && !Blocked(s, d)
  {
    assert CpuOk(c, s.cpus[c], s.lock, owner, s.pending, Todo(s, owner));
    if s.lock.Some? {
      d := s.lock.value;
      assert CpuOk(d, s.cpus[d], s.lock, owner, s.pending, Todo(s, owner));
    } else if !Asleep(s.cpus[c].pc) {
      d := c;
    } else {
      d := owner.value;
      assert CpuOk(d, s.cpus[d], s.lock, owner, s.pending, Todo(s, owner));
      if Asleep(s.cpus[d].pc) {
        d := CountedCpu(s, owner);
        assert CpuOk(d, s.cpus[d], s.lock, owner, s.pending, Todo(s, owner));
      }
    }
  }

  /** Only the scan marks CPUs. */
  lemma OnlyScanMarks(s: State, e: Cpu, s': State)
    requires ThreadStep(s, e, s') || SpuriousWake(s, e, s') || ListAdd(s, e, s') || ListRemove(s, e, s')
    requires e in s.cpus ==> !s.cpus[e].pc.Scan?
    ensures Waiters(s') <= Waiters(s)
  {
    if StopTestStep(s, e, s') && s.cpus[e].hasWaiter {
      var s1 := Unlock(s.(cpus := s.cpus[e := s.cpus[e].(pc := Idle, hasWaiter := false)], pending := s.pending - 1));
      assert Waiters(s1) <= Waiters(s);
      SameWaiters(s1, s');
    }
  }

  /** Inside the waiting loop of start_exclusive. */
  predicate Waits(pc: Pc) {
    pc.WaitTest? || pc.WaitSleep? || pc.WaitLock?
  }

  /** While start_exclusive waits, no step of any thread adds a CPU it has to wait for. */
  lemma NoNewWaiter(r: seq<State>, i: nat, c: Cpu)
    requires Run(r) && i + 1 < |r| && c in r[i].cpus && Waits(r[i].cpus[c].pc)
    ensures Waiters(r[i + 1]) <= Waiters(r[i])
  {
    var owner := RunInvariant(r, i);
    var s, s' := r[i], r[i + 1];
    assert CpuOk(c, s.cpus[c], s.lock, owner, s.pending, Todo(s, owner));
    assert Next(s, s');
    var e :| ThreadStep(s, e, s') || SpuriousWake(s, e, s') || ListAdd(s, e, s') || ListRemove(s, e, s');
    if e in s.cpus {
      assert CpuOk(e, s.cpus[e], s.lock, owner, s.pending, Todo(s, owner));
    }
    OnlyScanMarks(s, e, s');
  }

  /** A cpu_exec_end that the scan has counted takes itself off pending_cpus. */
  ghost predicate CountedEnd(s: State, s': State) {
    exists e :: StopTestStep(s, e, s') && s.cpus[e].hasWaiter
  }

  /** How many counted cpu_exec_end calls there are between the states i and j of a run. */
  ghost function Ends(r: seq<State>, i: nat, j: nat): nat
    requires i <= j < |r|
  {
    if i == j then 0 else Ends(r, i, j - 1) + One(CountedEnd(r[j - 1], r[j]))
  }

  /** The steps that leave pending_cpus alone. */
  lemma PendingStays(s: State, e: Cpu, s': State)
    requires ThreadStep(s, e, s') || SpuriousWake(s, e, s') || ListAdd(s, e, s') || ListRemove(s, e, s')
    requires e in s.cpus ==> !s.cpus[e].pc.Scan? && !s.cpus[e].pc.EndReset?
    requires e in s.cpus && s.cpus[e].pc.StartIdle? ==> s.pending != 0
    requires e in s.cpus && s.cpus[e].pc.StopTest? ==> !s.cpus[e].hasWaiter
    ensures s'.pending == s.pending
  {
  }

  /** While start_exclusive waits, nothing but a counted cpu_exec_end changes pending_cpus. */
  lemma WaitStep(s: State, s': State, c: Cpu)
    requires InvAt(s, Some(c)) && Waits(s.cpus[c].pc) && Next(s, s')
    ensures s'.pending == s.pending - One(CountedEnd(s, s'))
  {
    var e :| ThreadStep(s, e, s') || SpuriousWake(s, e, s') || ListAdd(s, e, s') || ListRemove(s, e, s');
    if x :| StopTestStep(s, x, s') && s.cpus[x].hasWaiter {
      assert s'.pending == s.pending - 1;
    } else {
      assert e in s.cpus && s.cpus[e].pc.StopTest? && s.cpus[e].hasWaiter ==> StopTestStep(s, e, s');
      hide ThreadStep, SpuriousWake, ListAdd, ListRemove, StopTestStep;
      assert CpuOk(c, s.cpus[c], s.lock, Some(c), s.pending, Todo(s, Some(c)));
      if e in s.cpus {
        assert CpuOk(e, s.cpus[e], s.lock, Some(c), s.pending, Todo(s, Some(c)));
      }
      PendingStays(s, e, s');
    }
  }

  /** The wait of start_exclusive: pending_cpus goes down by one with every counted cpu_exec_end
      and not otherwise, so the wait takes as many of them as the scan has counted, and after
      the last one the waiting thread is awake and finds its condition false. */
  lemma {:induction false} WaitIsBounded(r: seq<State>, i: nat, j: nat, c: Cpu)
    requires Run(r) && i <= j < |r| && forall k | i <= k <= j :: c in r[k].cpus && Waits(r[k].cpus[c].pc)
    ensures r[j].pending == r[i].pending - Ends(r, i, j) && Ends(r, i, j) <= |Waiters(r[i])| == r[i].pending - 1
    ensures Ends(r, i, j) == |Waiters(r[i])| ==> r[j].pending == 1 && !r[j].cpus[c].pc.WaitSleep?
    decreases j - i
  {
    hide Next, CountedEnd;
    PendingCounts(r, i);
    PendingCounts(r, j);
    NoLostWakeup(r, j, c);
    if i < j {
      WaitIsBounded(r, i, j - 1, c);
      var owner := RunInvariant(r, j - 1);
      assert owner == Some(c) by {
        var s := r[j - 1];
        assert CpuOk(c, s.cpus[c], s.lock, owner, s.pending, Todo(s, owner));
      }
      assert Next(r[j - 1], r[j - 1 + 1]);
      WaitStep(r[j - 1], r[j], c);
    }
  }
}
