/** The coroutines of qemu-img convert (convert_co_do_copy), in any schedule and with any
    I/O failing.  A transition runs one coroutine from one point where it may yield to the
    next; claiming an extent is one transition, because s->lock is held around it. */
module ConvertRun {
  import opened Buffers
  import opened Convert

  datatype Phase =
    | Read                  // about to read the extent
    | Order                 // read; about to test whether its turn has come
    | Asleep                // yielded with wait_sector_num set
    | Write(done: nat)      // inside convert_co_write, done sectors finished
    | Finish                // about to pass the turn on

  datatype Co =
    | NotStarted
    | AtLock
    | Busy(sector: nat, n: nat, status: BlockStatus, buf: seq<Sector>, phase: Phase)
    | Done

  datatype Ret = InProgress | Success | Failure

  datatype State = State(
    cos: seq<Co>,
    sectorNum: nat,
    status: BlockStatus,
    next: nat,
    wrOffs: nat,
    data: seq<Sector>,
    ret: Ret,
    running: int,
    claims: seq<(nat, nat)>,             // the extents claimed, in order
    log: seq<(nat, nat, Effect)>)        // what was done to the target, in order

  function Put(s: State, i: nat, co: Co): State
    requires i < |s.cos|
  {
    s.(cos := s.cos[i := co])
  }

  ghost predicate StartStep(s: State, i: nat, s': State) {
    && i < |s.cos| && s.cos[i].NotStarted?
    && s' == Put(s, i, AtLock).(running := s.running + 1)
  }

  /** The tail of convert_co_do_copy: the last coroutine to leave reports success. */
  function Leave(s: State, i: nat): State
    requires i < |s.cos|
  {
    Put(s, i, Done).(running := s.running - 1, ret := if s.running == 1 && s.ret.InProgress? then Success else s.ret)
  }

  ghost predicate ExitStep(cfg: Config, s: State, i: nat, s': State) {
    && i < |s.cos| && s.cos[i].AtLock?
    && (!s.ret.InProgress? || s.sectorNum >= |cfg.Content()|)
    && s' == Leave(s, i)
  }

  ghost predicate ClaimFail(cfg: Config, s: State, i: nat, s': State) {
    && i < |s.cos| && s.cos[i].AtLock? && s.ret.InProgress? && s.sectorNum < |cfg.Content()|
    && s' == Leave(s.(ret := Failure), i)
  }

  /** A claim takes whatever convert_iteration_sectors may answer. */
  ghost predicate ClaimStep(cfg: Config, s: State, i: nat, s': State) {
    && i < |s.cos| && s.cos[i].AtLock? && s.ret.InProgress? && s.sectorNum < |cfg.Content()|
    && exists n0: nat, status: BlockStatus, next: nat ::
         && ClaimOk(cfg, s.sectorNum, n0, status) && CacheOk(cfg.Content(), s.sectorNum, status, next)
         && var n := if cfg.minSparse == 0 && status.Zero? then Min(n0, cfg.bufSectors) else n0;
            s' == Put(s, i, Busy(s.sectorNum, n, status, [], Read))
                    .(sectorNum := s.sectorNum + n, status := status, next := next,
                      claims := s.claims + [(s.sectorNum, n)])
  }

  ghost predicate InPhase(s: State, i: nat, p: Phase) {
    i < |s.cos| && s.cos[i].Busy? && s.cos[i].phase == p
  }

  /** Data extents are read; with -S 0, zero extents are turned into explicit zeroes. */
  ghost predicate ReadStep(cfg: Config, s: State, i: nat, s': State) {
    && InPhase(s, i, Read)
    && var co := s.cos[i];
    && co.sector + co.n <= |cfg.Content()|
    && if co.status.Data? then
         s' == Put(s, i, co.(buf := cfg.Content()[co.sector..co.sector + co.n], phase := Order))
       else if cfg.minSparse == 0 then
         s' == Put(s, i, co.(buf := seq(co.n, _ => ZERO), status := Data, phase := Order))
       else
         exists stale: seq<Sector> :: |stale| == co.n && s' == Put(s, i, co.(buf := stale, phase := Order))
  }

  ghost predicate ReadFail(s: State, i: nat, s': State) {
    && InPhase(s, i, Read) && s.cos[i].status.Data?
    && exists stale: seq<Sector> ::
         && |stale| == s.cos[i].n
         && s' == Put(s, i, s.cos[i].(buf := stale, phase := Order)).(ret := Failure)
  }

  ghost predicate OrderStep(cfg: Config, s: State, i: nat, s': State) {
    && InPhase(s, i, Order)
    && var co := s.cos[i];
       s' == Put(s, i, co.(phase :=
               if cfg.inOrder && s.wrOffs != co.sector && s.ret.InProgress? then Asleep
               else if s.ret.InProgress? then Write(0)
               else Finish))
  }

  ghost predicate WriteStep(cfg: Config, s: State, i: nat, k: nat, e: Effect, s': State) {
    && i < |s.cos| && s.cos[i].Busy? && s.cos[i].phase.Write?
    && var co := s.cos[i];
    && co.phase.done < |co.buf|
    && EffectOk(cfg, co.status, co.buf[co.phase.done..], k, e)
    && co.sector + co.phase.done + k <= |s.data|
    && s' == Put(s, i, co.(phase := Write(co.phase.done + k)))
               .(data := Apply(s.data, co.sector + co.phase.done, co.buf[co.phase.done..], k, e),
                 log := s.log + [(co.sector + co.phase.done, k, e)])
  }

  ghost predicate WriteFail(s: State, i: nat, s': State) {
    && i < |s.cos| && s.cos[i].Busy? && s.cos[i].phase.Write?
    && exists data: seq<Sector> ::
         && |data| == |s.data|
         && s' == Put(s, i, s.cos[i].(phase := Finish)).(data := data, ret := Failure)
  }

  ghost predicate WriteDone(s: State, i: nat, s': State) {
    && i < |s.cos| && s.cos[i].Busy? && s.cos[i].phase.Write? && s.cos[i].phase.done == |s.cos[i].buf|
    && s' == Put(s, i, s.cos[i].(phase := Finish))
  }

  predicate WaitsFor(co: Co, sector: nat) {
    co.Busy? && co.phase.Asleep? && co.sector == sector
  }

  /** Re-enter the first coroutine that waits for this sector, if there is one. */
  function Wake(cos: seq<Co>, sector: nat): (r: seq<Co>)
    ensures |r| == |cos|
  {
    if cos == [] then []
    else if WaitsFor(cos[0], sector) then [cos[0].(phase := Order)] + cos[1..]
    else [cos[0]] + Wake(cos[1..], sector)
  }

  ghost predicate FinishStep(cfg: Config, s: State, i: nat, s': State) {
    && InPhase(s, i, Finish)
    && var end := s.cos[i].sector + s.cos[i].n;
       var cos := s.cos[i := AtLock];
       s' == if cfg.inOrder then s.(cos := Wake(cos, end), wrOffs := end) else s.(cos := cos)
  }

  ghost predicate Step(cfg: Config, s: State, i: nat, s': State) {
    || StartStep(s, i, s') || ExitStep(cfg, s, i, s') || ClaimFail(cfg, s, i, s') || ClaimStep(cfg, s, i, s')
    || ReadStep(cfg, s, i, s') || ReadFail(s, i, s') || OrderStep(cfg, s, i, s')
    || (exists k, e :: WriteStep(cfg, s, i, k, e, s')) || WriteFail(s, i, s') || WriteDone(s, i, s')
    || FinishStep(cfg, s, i, s')
  }

  ghost predicate Next(cfg: Config, s: State, s': State) {
    exists i :: Step(cfg, s, i, s')
  }

  ghost predicate Init(cfg: Config, s: State) {
    && (forall i | 0 <= i < |s.cos| :: s.cos[i].NotStarted?)
    && s.sectorNum == 0 && s.next == 0 && s.wrOffs == 0 && s.ret.InProgress? && s.running == 0
    && s.claims == [] && s.log == []
    && |s.data| == |cfg.Content()| && (cfg.hasZeroInit ==> AllZero(s.data))
  }

  // ----- the invariant: what holds even when requests fail -----

  predicate Live(co: Co) {
    co.AtLock? || co.Busy?
  }

  function LiveOnes(cos: seq<Co>): set<nat> {
    set i: nat | i < |cos| && Live(cos[i])
  }

  predicate CoOk(co: Co, sectorNum: nat) {
    co.Busy? ==>
      && co.n > 0 && co.sector + co.n <= sectorNum
      && (co.phase.Read? || |co.buf| == co.n)
      && (co.phase.Write? ==> co.phase.done <= co.n)
  }

  predicate Apart(a: Co, b: Co) {
    a.Busy? && b.Busy? ==> a.sector + a.n <= b.sector || b.sector + b.n <= a.sector
  }

  predicate Precedes(a: Co, b: Co) {
    a.Busy? && b.Busy? && a.sector + a.n == b.sector
  }

  ghost predicate HasPredecessor(cos: seq<Co>, b: Co) {
    exists j :: 0 <= j < |cos| && Precedes(cos[j], b)
  }

  /** If coroutine i sleeps, the owner of the extent before its own is still at work. */
  ghost predicate SleeperOk(cos: seq<Co>, i: nat)
    requires i < |cos|
  {
    cos[i].Busy? && cos[i].phase.Asleep? ==> HasPredecessor(cos, cos[i])
  }

  /** Extents are apart, the live coroutines are counted, and whoever sleeps has the owner of
      the extent before its own still at work. */
  ghost predicate Structure(cfg: Config, s: State) {
    && |s.data| == |cfg.Content()| && s.sectorNum <= |cfg.Content()|
    && CacheOk(cfg.Content(), s.sectorNum, s.status, s.next)
    && (forall i | 0 <= i < |s.cos| :: CoOk(s.cos[i], s.sectorNum))
    && (forall i, j | 0 <= i < j < |s.cos| :: Apart(s.cos[i], s.cos[j]))
    && s.running == |LiveOnes(s.cos)|
    && (forall i | 0 <= i < |s.cos| :: SleeperOk(s.cos, i))
    && (!cfg.inOrder ==> forall i | 0 <= i < |s.cos| && s.cos[i].Busy? :: !s.cos[i].phase.Asleep?)
    && (s.ret.Success? ==> s.sectorNum == |cfg.Content()| && forall i | 0 <= i < |s.cos| :: !s.cos[i].Busy?)
  }

  // ----- the invariant: what holds as long as nothing fails -----

  predicate PendingBy(co: Co, x: nat) {
    && co.Busy?
    && match co.phase
       case Write(done) => co.sector + done <= x < co.sector + co.n
       case Finish => false
       case _ => co.sector <= x < co.sector + co.n
  }

  ghost predicate Pending(cos: seq<Co>, x: nat) {
    exists i :: 0 <= i < |cos| && PendingBy(cos[i], x)
  }

  predicate BufOk(content: seq<Sector>, co: Co) {
    co.Busy? && co.sector + co.n <= |content| ==>
      && (co.status.Zero? ==> ZeroSectors(content, co.sector, co.sector + co.n))
      && (co.status.Data? && !co.phase.Read? ==> co.buf == content[co.sector..co.sector + co.n])
  }

  /** What is skipped or zeroed in place of data is zero in the source. */
  predicate ZeroEntryOk(content: seq<Sector>, entry: (nat, nat, Effect)) {
    entry.2.WriteData? || ZeroSectors(content, entry.0, entry.0 + entry.1)
  }

  /** Every claimed sector is right or still pending; what is not written yet is untouched. */
  ghost predicate DataOk(cfg: Config, s: State)
    requires |s.data| == |cfg.Content()|
  {
    && (forall i | 0 <= i < |s.cos| :: BufOk(cfg.Content(), s.cos[i]))
    && (forall k | 0 <= k < |s.log| :: ZeroEntryOk(cfg.Content(), s.log[k]))
    && (forall x | 0 <= x < s.sectorNum && x < |s.data| :: s.data[x] == cfg.Content()[x] || Pending(s.cos, x))
    && (cfg.hasZeroInit ==>
          forall x | 0 <= x < |s.data| && (x >= s.sectorNum || Pending(s.cos, x)) :: s.data[x] == ZERO)
  }

  // ----- Structure is kept -----

  /** Coroutine i stays with its extent. */
  lemma StructureMoves(cfg: Config, s: State, i: nat, co: Co, s': State)
    requires Structure(cfg, s) && i < |s.cos| && s.cos[i].Busy?
    requires co.Busy? && co.sector == s.cos[i].sector && co.n == s.cos[i].n && CoOk(co, s.sectorNum)
    requires co.phase.Asleep? ==> cfg.inOrder && HasPredecessor(s.cos, s.cos[i])
    requires s'.cos == s.cos[i := co] && s'.running == s.running && !s'.ret.Success?
    requires s'.sectorNum == s.sectorNum && s'.status == s.status && s'.next == s.next && |s'.data| == |s.data|
    ensures Structure(cfg, s')
  {
    assert LiveOnes(s'.cos) == LiveOnes(s.cos);
    forall j | 0 <= j < |s'.cos|
      ensures SleeperOk(s'.cos, j)
    {
      if s'.cos[j].Busy? && s'.cos[j].phase.Asleep? {
        assert SleeperOk(s.cos, j);
        var k :| 0 <= k < |s.cos| && Precedes(s.cos[k], s.cos[j]);
        assert Precedes(s'.cos[k], s'.cos[j]);
      }
    }
  }

  lemma StartKeepsStructure(cfg: Config, s: State, i: nat, s': State)
    requires Structure(cfg, s) && StartStep(s, i, s')
    ensures Structure(cfg, s')
  {
    OneMoreLive(s.cos, i);
    SleepersKeep(s, i, s');
    hide SleeperOk, HasPredecessor, LiveOnes, CacheOk;
  }

  lemma OneMoreLive(cos: seq<Co>, i: nat)
    requires i < |cos| && cos[i].NotStarted?
    ensures |LiveOnes(cos[i := AtLock])| == |LiveOnes(cos)| + 1
  {
    assert LiveOnes(cos[i := AtLock]) == LiveOnes(cos) + {i};
  }

  /** Sleepers keep their predecessors when i, idle before, gets no extent or a new one. */
  lemma SleepersKeep(s: State, i: nat, s': State)
    requires i < |s.cos| == |s'.cos| && !s.cos[i].Busy? && s'.cos == s.cos[i := s'.cos[i]]
    requires s'.cos[i].Busy? ==> !s'.cos[i].phase.Asleep?
    requires forall j | 0 <= j < |s.cos| :: SleeperOk(s.cos, j)
    ensures forall j | 0 <= j < |s'.cos| :: SleeperOk(s'.cos, j)
  {
    forall j | 0 <= j < |s'.cos|
      ensures SleeperOk(s'.cos, j)
    {
      if s'.cos[j].Busy? && s'.cos[j].phase.Asleep? {
        assert SleeperOk(s.cos, j);
        var k :| 0 <= k < |s.cos| && Precedes(s.cos[k], s.cos[j]);
        assert Precedes(s'.cos[k], s'.cos[j]);
      }
    }
  }

  lemma LeaveKeepsStructure(cfg: Config, s: State, i: nat, s': State)
    requires Structure(cfg, s) && i < |s.cos| && s.cos[i].AtLock? && s' == Leave(s, i)
    requires s.ret.InProgress? ==> s.sectorNum == |cfg.Content()|
    ensures Structure(cfg, s')
  {
    assert i in LiveOnes(s.cos);
    assert LiveOnes(s'.cos) == LiveOnes(s.cos) - {i};
    SleepersKeep(s, i, s');
    if s'.ret.Success? && s.ret.InProgress? {
      assert |LiveOnes(s'.cos)| == 0;
      forall j | 0 <= j < |s'.cos|
        ensures !s'.cos[j].Busy?
      {
        assert j !in LiveOnes(s'.cos);
      }
    }
  }

  lemma ClaimKeepsStructure(cfg: Config, s: State, i: nat, s': State)
    requires cfg.Valid() && Structure(cfg, s) && ClaimStep(cfg, s, i, s')
    ensures Structure(cfg, s')
  {
    CacheMovesOn(cfg.Content(), s.sectorNum, s'.status, s'.next, s'.sectorNum - s.sectorNum);
    assert LiveOnes(s'.cos) == LiveOnes(s.cos);
    SleepersKeep(s, i, s');
  }

  lemma {:induction false} WakeAt(cos: seq<Co>, sector: nat, j: nat)
    requires j < |cos|
    ensures Wake(cos, sector)[j] == cos[j]
            || (WaitsFor(cos[j], sector) && Wake(cos, sector)[j] == cos[j].(phase := Order))
  {
    if j > 0 && !WaitsFor(cos[0], sector) {
      WakeAt(cos[1..], sector, j - 1);
    }
  }

  /** A coroutine that alone waits for the sector is woken. */
  lemma {:induction false} WakeWakes(cos: seq<Co>, sector: nat, j: nat)
    requires j < |cos| && WaitsFor(cos[j], sector)
    requires forall k | 0 <= k < |cos| && k != j :: !WaitsFor(cos[k], sector)
    ensures Wake(cos, sector)[j] == cos[j].(phase := Order)
  {
    if j > 0 {
      forall k | 0 <= k < |cos[1..]| && k != j - 1
        ensures !WaitsFor(cos[1..][k], sector)
      {
        assert cos[1..][k] == cos[k + 1];
      }
      WakeWakes(cos[1..], sector, j - 1);
    }
  }

  /** After i passed its turn on: everyone is as before, except that i is idle and the
      coroutine that waited for the end of its extent is awake. */
  lemma FinishShape(cfg: Config, s: State, i: nat, s': State, j: nat)
    requires FinishStep(cfg, s, i, s') && j < |s.cos|
    ensures |s'.cos| == |s.cos| && (j == i ==> s'.cos[j].AtLock?)
    ensures j != i ==>
              || s'.cos[j] == s.cos[j]
              || (WaitsFor(s.cos[j], s.cos[i].sector + s.cos[i].n) && s'.cos[j] == s.cos[j].(phase := Order))
  {
    WakeAt(s.cos[i := AtLock], s.cos[i].sector + s.cos[i].n, j);
  }

  /** Whoever slept behind i is woken when i passes its turn on. */
  lemma FinishWakes(cfg: Config, s: State, i: nat, s': State, j: nat)
    requires Structure(cfg, s) && FinishStep(cfg, s, i, s') && j < |s.cos| && j != i && cfg.inOrder
    requires WaitsFor(s.cos[j], s.cos[i].sector + s.cos[i].n)
    ensures s'.cos[j] == s.cos[j].(phase := Order)
  {
    var end := s.cos[i].sector + s.cos[i].n;
    var cos := s.cos[i := AtLock];
    forall l | 0 <= l < |cos| && l != j
      ensures !WaitsFor(cos[l], end)
    {
      if l < j { assert Apart(s.cos[l], s.cos[j]); } else { assert Apart(s.cos[j], s.cos[l]); }
    }
    WakeWakes(cos, end, j);
  }

  lemma FinishSleeper(cfg: Config, s: State, i: nat, s': State, j: nat)
    requires Structure(cfg, s) && FinishStep(cfg, s, i, s')
    requires j < |s'.cos| && s'.cos[j].Busy? && s'.cos[j].phase.Asleep?
    ensures HasPredecessor(s'.cos, s'.cos[j])
  {
    FinishShape(cfg, s, i, s', j);
    assert s'.cos[j] == s.cos[j] && j != i;
    assert SleeperOk(s.cos, j);
    var k :| 0 <= k < |s.cos| && Precedes(s.cos[k], s.cos[j]);
    FinishShape(cfg, s, i, s', k);
    if k == i {
      FinishWakes(cfg, s, i, s', j);
    }
    assert Precedes(s'.cos[k], s'.cos[j]);
  }

  lemma FinishKeepsStructure(cfg: Config, s: State, i: nat, s': State)
    requires Structure(cfg, s) && FinishStep(cfg, s, i, s')
    ensures Structure(cfg, s')
  {
    forall j: nat | j < |s.cos|
      ensures j == i ==> s'.cos[j].AtLock?
      ensures j != i ==>
                || s'.cos[j] == s.cos[j]
                || (WaitsFor(s.cos[j], s.cos[i].sector + s.cos[i].n) && s'.cos[j] == s.cos[j].(phase := Order))
    {
      FinishShape(cfg, s, i, s', j);
    }
    assert LiveOnes(s'.cos) == LiveOnes(s.cos);
    forall j | 0 <= j < |s'.cos|
      ensures SleeperOk(s'.cos, j)
    {
      if s'.cos[j].Busy? && s'.cos[j].phase.Asleep? { FinishSleeper(cfg, s, i, s', j); }
    }
  }

  // ----- DataOk is kept -----

  /** Coroutine i moves on within its extent, with the same sectors pending. */
  lemma DataMoves(cfg: Config, s: State, i: nat, co: Co, s': State)
    requires |s.data| == |cfg.Content()| && DataOk(cfg, s) && i < |s.cos|
    requires s'.cos == s.cos[i := co] && s'.data == s.data && s'.sectorNum == s.sectorNum && s'.log == s.log
    requires BufOk(cfg.Content(), co)
    requires forall x: nat :: PendingBy(co, x) <==> PendingBy(s.cos[i], x)
    ensures DataOk(cfg, s')
  {
    forall x: nat
      ensures Pending(s'.cos, x) <==> Pending(s.cos, x)
    {
      SamePending(s.cos, s'.cos, x);
    }
  }

  lemma SamePending(a: seq<Co>, b: seq<Co>, x: nat)
    requires |a| == |b| && forall j | 0 <= j < |a| :: PendingBy(a[j], x) <==> PendingBy(b[j], x)
    ensures Pending(a, x) <==> Pending(b, x)
  {
  }

  lemma ReadKeepsData(cfg: Config, s: State, i: nat, s': State)
    requires Structure(cfg, s) && DataOk(cfg, s) && ReadStep(cfg, s, i, s')
    ensures DataOk(cfg, s')
  {
    var co := s.cos[i];
    assert BufOk(cfg.Content(), co) && CoOk(co, s.sectorNum);
    if co.status.Zero? && cfg.minSparse == 0 {
      assert s'.cos[i].buf == cfg.Content()[co.sector..co.sector + co.n];
    }
    DataMoves(cfg, s, i, s'.cos[i], s');
  }

  lemma ClaimKeepsData(cfg: Config, s: State, i: nat, s': State)
    requires cfg.Valid() && Structure(cfg, s) && DataOk(cfg, s) && ClaimStep(cfg, s, i, s')
    ensures |s'.data| == |cfg.Content()| && DataOk(cfg, s')
  {
    forall x: nat
      ensures Pending(s'.cos, x) <==> Pending(s.cos, x) || s.sectorNum <= x < s'.sectorNum
    {
      assert PendingBy(s'.cos[i], x) <==> s.sectorNum <= x < s'.sectorNum;
      if Pending(s.cos, x) {
        var j :| 0 <= j < |s.cos| && PendingBy(s.cos[j], x);
        assert PendingBy(s'.cos[j], x);
      }
      if Pending(s'.cos, x) {
        var j :| 0 <= j < |s.cos| && PendingBy(s'.cos[j], x);
        assert j == i || PendingBy(s.cos[j], x);
      }
    }
  }

  /** What one effect leaves in a sector of its range. */
  lemma EffectIsRight(cfg: Config, s: State, i: nat, k: nat, e: Effect, s': State, x: nat)
    requires Structure(cfg, s) && DataOk(cfg, s) && WriteStep(cfg, s, i, k, e, s')
    requires s.cos[i].sector + s.cos[i].phase.done <= x < s.cos[i].sector + s.cos[i].phase.done + k
    ensures x < |s'.data| && s'.data[x] == cfg.Content()[x]
  {
    var co := s.cos[i];
    var at := co.sector + co.phase.done;
    assert BufOk(cfg.Content(), co) && CoOk(co, s.sectorNum);
    hide SleeperOk, Apart, LiveOnes, ZeroEntryOk;
    var rest := co.buf[co.phase.done..];
    assert rest[..k][x - at] == co.buf[x - co.sector];
    assert PendingBy(s.cos[i], x) && Pending(s.cos, x);
  }

  lemma EffectLogged(cfg: Config, s: State, i: nat, k: nat, e: Effect, s': State)
    requires Structure(cfg, s) && DataOk(cfg, s) && WriteStep(cfg, s, i, k, e, s')
    ensures ZeroEntryOk(cfg.Content(), (s.cos[i].sector + s.cos[i].phase.done, k, e))
  {
    hide Apply, Put;
    var co := s.cos[i];
    var at := co.sector + co.phase.done;
    assert BufOk(cfg.Content(), co) && CoOk(co, s.sectorNum);
    hide Structure, DataOk;
    if !e.WriteData? && co.status.Data? {
      forall x | at <= x < at + k
        ensures cfg.Content()[x] == ZERO
      {
        assert co.buf[co.phase.done..][..k][x - at] == co.buf[x - co.sector];
      }
    }
  }

  lemma WriteKeepsData(cfg: Config, s: State, i: nat, k: nat, e: Effect, s': State)
    requires Structure(cfg, s) && DataOk(cfg, s) && WriteStep(cfg, s, i, k, e, s')
    ensures |s'.data| == |cfg.Content()| && DataOk(cfg, s')
  {
    var co := s.cos[i];
    var at := co.sector + co.phase.done;
    assert CoOk(co, s.sectorNum) && BufOk(cfg.Content(), co);
    EffectLogged(cfg, s, i, k, e, s');
    forall x: nat
      ensures Pending(s'.cos, x) <==> Pending(s.cos, x) && !(at <= x < at + k)
    {
      WritePending(cfg, s, i, k, e, s', x);
    }
    forall x | 0 <= x < |s.data|
      ensures at <= x < at + k ==> s'.data[x] == cfg.Content()[x]
      ensures !(at <= x < at + k) ==> s'.data[x] == s.data[x]
    {
      if at <= x < at + k { EffectIsRight(cfg, s, i, k, e, s', x); }
    }
  }

  lemma WritePending(cfg: Config, s: State, i: nat, k: nat, e: Effect, s': State, x: nat)
    requires Structure(cfg, s) && WriteStep(cfg, s, i, k, e, s')
    ensures var at := s.cos[i].sector + s.cos[i].phase.done;
            Pending(s'.cos, x) <==> Pending(s.cos, x) && !(at <= x < at + k)
  {
    var at := s.cos[i].sector + s.cos[i].phase.done;
    assert CoOk(s.cos[i], s.sectorNum);
    if Pending(s'.cos, x) {
      var j :| 0 <= j < |s.cos| && PendingBy(s'.cos[j], x);
      assert PendingBy(s.cos[j], x);
      if j < i { assert Apart(s.cos[j], s.cos[i]); } else if i < j { assert Apart(s.cos[i], s.cos[j]); }
    }
    if Pending(s.cos, x) && !(at <= x < at + k) {
      var j :| 0 <= j < |s.cos| && PendingBy(s.cos[j], x);
      assert PendingBy(s'.cos[j], x);
    }
  }

  lemma FinishKeepsData(cfg: Config, s: State, i: nat, s': State)
    requires Structure(cfg, s) && DataOk(cfg, s) && FinishStep(cfg, s, i, s')
    ensures DataOk(cfg, s')
  {
    forall j | 0 <= j < |s.cos|
      ensures BufOk(cfg.Content(), s'.cos[j])
      ensures forall x: nat :: PendingBy(s'.cos[j], x) <==> PendingBy(s.cos[j], x)
    {
      FinishShape(cfg, s, i, s', j);
      assert BufOk(cfg.Content(), s.cos[j]);
    }
    forall x: nat
      ensures Pending(s'.cos, x) <==> Pending(s.cos, x)
    {
      SamePending(s.cos, s'.cos, x);
    }
  }

  // ----- in-order writing, as long as nothing fails -----

  ghost predicate HasSuccessor(cos: seq<Co>, a: Co) {
    exists j :: 0 <= j < |cos| && Precedes(a, cos[j])
  }

  predicate Writing(co: Co) {
    co.Busy? && (co.phase.Write? || co.phase.Finish?)
  }

  /** Coroutine i's extent in the tiling of [wrOffs, sectorNum): it starts there or behind
      another extent, ends there or before another one; it is written only at wrOffs, and its
      owner never sleeps there. */
  ghost predicate TileOk(cos: seq<Co>, wrOffs: nat, sectorNum: nat, i: nat)
    requires i < |cos|
  {
    cos[i].Busy? ==>
      && wrOffs <= cos[i].sector
      && (cos[i].sector == wrOffs || HasPredecessor(cos, cos[i]))
      && (cos[i].sector + cos[i].n == sectorNum || HasSuccessor(cos, cos[i]))
      && (Writing(cos[i]) ==> cos[i].sector == wrOffs)
      && (cos[i].phase.Asleep? ==> cos[i].sector != wrOffs)
  }

  ghost predicate SomeStartsAt(cos: seq<Co>, sector: nat) {
    exists i :: 0 <= i < |cos| && cos[i].Busy? && cos[i].sector == sector
  }

  ghost predicate SomeEndsAt(cos: seq<Co>, sector: nat) {
    exists i :: 0 <= i < |cos| && cos[i].Busy? && cos[i].sector + cos[i].n == sector
  }

  ghost predicate TilesOk(cos: seq<Co>, wrOffs: nat, sectorNum: nat) {
    && wrOffs <= sectorNum
    && (wrOffs < sectorNum ==> SomeStartsAt(cos, wrOffs) && SomeEndsAt(cos, sectorNum))
    && (forall i | 0 <= i < |cos| :: TileOk(cos, wrOffs, sectorNum, i))
  }

  /** Each entry starts where the one before it ended, the first at 0, none is empty. */
  predicate Contiguous(log: seq<(nat, nat, Effect)>) {
    && (forall k | 0 <= k < |log| :: log[k].1 > 0)
    && (log != [] ==> log[0].0 == 0)
    && (forall k | 0 < k < |log| :: log[k].0 == log[k - 1].0 + log[k - 1].1)
  }

  function LogEnd(log: seq<(nat, nat, Effect)>): nat {
    if log == [] then 0 else log[|log| - 1].0 + log[|log| - 1].1
  }

  predicate LogOk(cos: seq<Co>, wrOffs: nat, log: seq<(nat, nat, Effect)>) {
    && Contiguous(log)
    && (forall i | 0 <= i < |cos| && Writing(cos[i]) ::
          LogEnd(log) == cos[i].sector + if cos[i].phase.Write? then cos[i].phase.done else cos[i].n)
    && ((forall i | 0 <= i < |cos| :: !Writing(cos[i])) ==> LogEnd(log) == wrOffs)
  }

  ghost predicate OrderOk(cfg: Config, s: State) {
    cfg.inOrder ==> TilesOk(s.cos, s.wrOffs, s.sectorNum) && LogOk(s.cos, s.wrOffs, s.log)
  }

  /** Two coroutines never own extents with the same start. */
  lemma OneOwner(cfg: Config, s: State, i: nat, j: nat)
    requires Structure(cfg, s) && i < |s.cos| && j < |s.cos| && s.cos[i].Busy? && s.cos[j].Busy?
    requires s.cos[i].sector == s.cos[j].sector
    ensures i == j
  {
  }

  /** The tiling does not see a change of phase. */
  lemma TilesMove(a: seq<Co>, b: seq<Co>, wrOffs: nat, sectorNum: nat)
    requires TilesOk(a, wrOffs, sectorNum) && |a| == |b|
    requires forall i | 0 <= i < |a| :: a[i].Busy? == b[i].Busy?
    requires forall i | 0 <= i < |a| && a[i].Busy? :: a[i].sector == b[i].sector && a[i].n == b[i].n
    requires forall i | 0 <= i < |a| && Writing(b[i]) :: b[i].sector == wrOffs
    requires forall i | 0 <= i < |a| && b[i].Busy? && b[i].phase.Asleep? :: b[i].sector != wrOffs
    ensures TilesOk(b, wrOffs, sectorNum)
  {
    if wrOffs < sectorNum {
      var i :| 0 <= i < |a| && a[i].Busy? && a[i].sector == wrOffs;
      assert b[i].Busy? && b[i].sector == wrOffs;
      var j :| 0 <= j < |a| && a[j].Busy? && a[j].sector + a[j].n == sectorNum;
      assert b[j].Busy? && b[j].sector + b[j].n == sectorNum;
    }
    forall i | 0 <= i < |b|
      ensures TileOk(b, wrOffs, sectorNum, i)
    {
      assert TileOk(a, wrOffs, sectorNum, i);
      if a[i].Busy? && a[i].sector != wrOffs {
        var k :| 0 <= k < |a| && Precedes(a[k], a[i]);
        assert Precedes(b[k], b[i]);
      }
      if a[i].Busy? && a[i].sector + a[i].n != sectorNum {
        var k :| 0 <= k < |a| && Precedes(a[i], a[k]);
        assert Precedes(b[i], b[k]);
      }
    }
  }

  lemma PhasesOk(cos: seq<Co>, wrOffs: nat, sectorNum: nat)
    requires TilesOk(cos, wrOffs, sectorNum)
    ensures forall i | 0 <= i < |cos| && Writing(cos[i]) :: cos[i].sector == wrOffs
    ensures forall i | 0 <= i < |cos| && cos[i].Busy? && cos[i].phase.Asleep? :: cos[i].sector != wrOffs
  {
    forall i | 0 <= i < |cos|
      ensures Writing(cos[i]) ==> cos[i].sector == wrOffs
      ensures cos[i].Busy? && cos[i].phase.Asleep? ==> cos[i].sector != wrOffs
    {
      assert TileOk(cos, wrOffs, sectorNum, i);
    }
  }

  /** Coroutine i changes phase without becoming or ceasing to be the writer. */
  lemma QuietMoveKeepsOrder(cfg: Config, s: State, i: nat, co: Co, s': State)
    requires OrderOk(cfg, s) && i < |s.cos| && s.cos[i].Busy? && co.Busy?
    requires co.sector == s.cos[i].sector && co.n == s.cos[i].n
    requires !Writing(s.cos[i]) && !Writing(co)
    requires co.phase.Asleep? ==> co.sector != s.wrOffs
    requires s'.cos == s.cos[i := co] && s'.wrOffs == s.wrOffs && s'.sectorNum == s.sectorNum && s'.log == s.log
    ensures OrderOk(cfg, s')
  {
    if cfg.inOrder {
      PhasesOk(s.cos, s.wrOffs, s.sectorNum);
      TilesMove(s.cos, s'.cos, s.wrOffs, s.sectorNum);
      forall j | 0 <= j < |s.cos|
        ensures Writing(s'.cos[j]) <==> Writing(s.cos[j])
      {
      }
    }
  }

  /** Only the owner of the extent at wrOffs writes. */
  lemma NotWriting(cfg: Config, s: State, i: nat, j: nat)
    requires Structure(cfg, s) && TilesOk(s.cos, s.wrOffs, s.sectorNum) && i < |s.cos| && j < |s.cos| && i != j
    requires s.cos[i].Busy? && s.cos[i].sector == s.wrOffs
    ensures !Writing(s.cos[j])
  {
    assert TileOk(s.cos, s.wrOffs, s.sectorNum, j);
    if s.cos[j].Busy? && s.cos[j].sector == s.wrOffs { OneOwner(cfg, s, i, j); }
  }

  lemma OrderKeepsOrder(cfg: Config, s: State, i: nat, s': State)
    requires Structure(cfg, s) && OrderOk(cfg, s) && OrderStep(cfg, s, i, s') && s.ret.InProgress?
    ensures OrderOk(cfg, s')
  {
    if cfg.inOrder && s.wrOffs == s.cos[i].sector {
      forall j | 0 <= j < |s.cos| && j != i
        ensures !Writing(s.cos[j])
      {
        NotWriting(cfg, s, i, j);
      }
      PhasesOk(s.cos, s.wrOffs, s.sectorNum);
      TilesMove(s.cos, s'.cos, s.wrOffs, s.sectorNum);
    } else if cfg.inOrder {
      QuietMoveKeepsOrder(cfg, s, i, s'.cos[i], s');
    }
  }

  lemma ContiguousSnoc(log: seq<(nat, nat, Effect)>, entry: (nat, nat, Effect))
    requires Contiguous(log) && entry.0 == LogEnd(log) && entry.1 > 0
    ensures Contiguous(log + [entry]) && LogEnd(log + [entry]) == entry.0 + entry.1
  {
  }

  lemma WriteKeepsOrder(cfg: Config, s: State, i: nat, k: nat, e: Effect, s': State)
    requires Structure(cfg, s) && OrderOk(cfg, s) && WriteStep(cfg, s, i, k, e, s')
    ensures OrderOk(cfg, s')
  {
    if cfg.inOrder {
      assert Writing(s.cos[i]) && Writing(s'.cos[i]);
      assert TileOk(s.cos, s.wrOffs, s.sectorNum, i);
      ContiguousSnoc(s.log, (s.cos[i].sector + s.cos[i].phase.done, k, e));
      forall j | 0 <= j < |s.cos| && j != i
        ensures !Writing(s.cos[j])
      {
        NotWriting(cfg, s, i, j);
      }
      PhasesOk(s.cos, s.wrOffs, s.sectorNum);
      TilesMove(s.cos, s'.cos, s.wrOffs, s.sectorNum);
    }
  }

  lemma WriteDoneKeepsOrder(cfg: Config, s: State, i: nat, s': State)
    requires Structure(cfg, s) && OrderOk(cfg, s) && WriteDone(s, i, s')
    ensures OrderOk(cfg, s')
  {
    if cfg.inOrder {
      assert CoOk(s.cos[i], s.sectorNum);
      assert Writing(s.cos[i]) && Writing(s'.cos[i]);
      PhasesOk(s.cos, s.wrOffs, s.sectorNum);
      TilesMove(s.cos, s'.cos, s.wrOffs, s.sectorNum);
      forall j | 0 <= j < |s.cos|
        ensures Writing(s'.cos[j]) <==> Writing(s.cos[j])
      {
      }
    }
  }

  lemma ClaimKeepsTiles(cos: seq<Co>, i: nat, wrOffs: nat, sectorNum: nat, co: Co)
    requires TilesOk(cos, wrOffs, sectorNum) && i < |cos| && cos[i].AtLock?
    requires co.Busy? && co.sector == sectorNum && co.n > 0 && co.phase.Read?
    ensures TilesOk(cos[i := co], wrOffs, sectorNum + co.n)
  {
    var b := cos[i := co];
    var newNum := sectorNum + co.n;
    assert b[i].Busy? && b[i].sector + b[i].n == sectorNum + co.n;
    if wrOffs < sectorNum {
      var f :| 0 <= f < |cos| && cos[f].Busy? && cos[f].sector == wrOffs;
      assert b[f].Busy? && b[f].sector == wrOffs;
      var l :| 0 <= l < |cos| && cos[l].Busy? && cos[l].sector + cos[l].n == sectorNum;
      assert Precedes(b[l], b[i]);
    } else {
      assert b[i].sector == wrOffs;
    }
    forall j | 0 <= j < |b|
      ensures TileOk(b, wrOffs, newNum, j)
    {
      if j != i {
        assert TileOk(cos, wrOffs, sectorNum, j);
        if cos[j].Busy? && cos[j].sector != wrOffs {
          var k :| 0 <= k < |cos| && Precedes(cos[k], cos[j]);
          assert Precedes(b[k], b[j]);
        }
        if cos[j].Busy? {
          if cos[j].sector + cos[j].n == sectorNum {
            assert Precedes(b[j], b[i]);
          } else {
            var k :| 0 <= k < |cos| && Precedes(cos[j], cos[k]);
            assert Precedes(b[j], b[k]);
          }
        }
      }
    }
  }

  lemma ClaimKeepsOrder(cfg: Config, s: State, i: nat, s': State)
    requires cfg.Valid() && Structure(cfg, s) && OrderOk(cfg, s) && ClaimStep(cfg, s, i, s')
    ensures OrderOk(cfg, s')
  {
    hide Structure, TilesOk, LogOk;
    if cfg.inOrder {
      ClaimKeepsTiles(s.cos, i, s.wrOffs, s.sectorNum, s'.cos[i]);
      ClaimKeepsLog(s.cos, i, s'.cos[i], s.wrOffs, s.log);
    }
  }

  lemma ClaimKeepsLog(cos: seq<Co>, i: nat, co: Co, wrOffs: nat, log: seq<(nat, nat, Effect)>)
    requires LogOk(cos, wrOffs, log) && i < |cos| && !Writing(cos[i]) && !Writing(co)
    ensures LogOk(cos[i := co], wrOffs, log)
  {
    var b := cos[i := co];
    forall j | 0 <= j < |cos|
      ensures Writing(b[j]) <==> Writing(cos[j])
    {
    }
  }

  /** An idle coroutine that stays idle is no part of the order. */
  lemma IdleMoveKeepsOrder(cfg: Config, s: State, i: nat, s': State)
    requires OrderOk(cfg, s) && i < |s.cos| == |s'.cos| && !s.cos[i].Busy? && !s'.cos[i].Busy?
    requires s'.cos == s.cos[i := s'.cos[i]]
    requires s'.wrOffs == s.wrOffs && s'.sectorNum == s.sectorNum && s'.log == s.log
    ensures OrderOk(cfg, s')
  {
    if cfg.inOrder {
      PhasesOk(s.cos, s.wrOffs, s.sectorNum);
      TilesMove(s.cos, s'.cos, s.wrOffs, s.sectorNum);
      forall j | 0 <= j < |s.cos|
        ensures Writing(s'.cos[j]) <==> Writing(s.cos[j])
      {
      }
    }
  }

  /** Everyone but i after its turn is passed on: past the new wrOffs, not writing, and awake
      if it owns the extent there. */
  lemma FinishTile(cfg: Config, s: State, i: nat, s': State, j: nat)
    requires Structure(cfg, s) && TilesOk(s.cos, s.wrOffs, s.sectorNum) && FinishStep(cfg, s, i, s') && cfg.inOrder
    requires j < |s.cos|
    ensures |s'.cos| == |s.cos| && TileOk(s'.cos, s'.wrOffs, s'.sectorNum, j) && !Writing(s'.cos[j])
  {
    FinishShape(cfg, s, i, s', j);
    if j != i && s.cos[j].Busy? {
      var end := s.cos[i].sector + s.cos[i].n;
      assert TileOk(s.cos, s.wrOffs, s.sectorNum, i) && TileOk(s.cos, s.wrOffs, s.sectorNum, j);
      assert CoOk(s.cos[i], s.sectorNum) && CoOk(s.cos[j], s.sectorNum);
      NotWriting(cfg, s, i, j);
      if s.cos[j].sector == s.wrOffs { OneOwner(cfg, s, i, j); }
      assert end <= s.cos[j].sector by {
        if i < j { assert Apart(s.cos[i], s.cos[j]); } else { assert Apart(s.cos[j], s.cos[i]); }
      }
      if s.cos[j].sector == end {
        if s.cos[j].phase.Asleep? { FinishWakes(cfg, s, i, s', j); }
      } else {
        var k :| 0 <= k < |s.cos| && Precedes(s.cos[k], s.cos[j]);
        FinishShape(cfg, s, i, s', k);
        assert Precedes(s'.cos[k], s'.cos[j]);
      }
      if s.cos[j].sector + s.cos[j].n != s.sectorNum {
        var k :| 0 <= k < |s.cos| && Precedes(s.cos[j], s.cos[k]);
        FinishShape(cfg, s, i, s', k);
        assert Precedes(s'.cos[j], s'.cos[k]);
      }
    }
  }

  lemma FinishKeepsOrder(cfg: Config, s: State, i: nat, s': State)
    requires Structure(cfg, s) && OrderOk(cfg, s) && FinishStep(cfg, s, i, s')
    ensures OrderOk(cfg, s')
  {
    if cfg.inOrder {
      forall j | 0 <= j < |s'.cos|
        ensures TileOk(s'.cos, s'.wrOffs, s'.sectorNum, j) && !Writing(s'.cos[j])
      {
        FinishTile(cfg, s, i, s', j);
      }
      assert Writing(s.cos[i]) && CoOk(s.cos[i], s.sectorNum);
      assert TileOk(s.cos, s.wrOffs, s.sectorNum, i);
      if s'.wrOffs < s.sectorNum {
        var k :| 0 <= k < |s.cos| && Precedes(s.cos[i], s.cos[k]);
        FinishShape(cfg, s, i, s', k);
        assert s'.cos[k].Busy? && s'.cos[k].sector == s'.wrOffs;
        var l :| 0 <= l < |s.cos| && s.cos[l].Busy? && s.cos[l].sector + s.cos[l].n == s.sectorNum;
        FinishShape(cfg, s, i, s', l);
        assert s'.cos[l].Busy? && s'.cos[l].sector + s'.cos[l].n == s.sectorNum;
      }
    }
  }

  // ----- the whole invariant -----

  /** The claimed extents follow one another without gap or overlap, up to sectorNum. */
  predicate ClaimsOk(s: State) {
    && (forall k | 0 <= k < |s.claims| :: s.claims[k].1 > 0)
    && (forall k | 0 < k < |s.claims| :: s.claims[k].0 == s.claims[k - 1].0 + s.claims[k - 1].1)
    && (if s.claims == [] then s.sectorNum == 0
        else s.claims[0].0 == 0 && s.sectorNum == s.claims[|s.claims| - 1].0 + s.claims[|s.claims| - 1].1)
  }

  ghost predicate Inv(cfg: Config, s: State) {
    && cfg.Valid() && Structure(cfg, s) && ClaimsOk(s)
    && (!s.ret.Failure? ==> DataOk(cfg, s) && OrderOk(cfg, s))
  }

  lemma StartOrLeaveKeepsStructure(cfg: Config, s: State, i: nat, s': State)
    requires Inv(cfg, s) && (StartStep(s, i, s') || ExitStep(cfg, s, i, s') || ClaimFail(cfg, s, i, s'))
    ensures Structure(cfg, s')
  {
    if StartStep(s, i, s') {
      StartKeepsStructure(cfg, s, i, s');
    } else if ExitStep(cfg, s, i, s') {
      LeaveKeepsStructure(cfg, s, i, s');
    } else {
      LeaveKeepsStructure(cfg, s.(ret := Failure), i, s');
    }
  }

  lemma StartOrLeaveKeepsInv(cfg: Config, s: State, i: nat, s': State)
    requires Inv(cfg, s) && (StartStep(s, i, s') || ExitStep(cfg, s, i, s') || ClaimFail(cfg, s, i, s'))
    ensures Inv(cfg, s')
  {
    StartOrLeaveKeepsStructure(cfg, s, i, s');
    if !s'.ret.Failure? {
      DataMoves(cfg, s, i, s'.cos[i], s');
      IdleMoveKeepsOrder(cfg, s, i, s');
    }
  }

  lemma OrderStepKeepsStructure(cfg: Config, s: State, i: nat, s': State)
    requires Inv(cfg, s) && OrderStep(cfg, s, i, s')
    ensures Structure(cfg, s') && !s.ret.Success?
  {
    assert CoOk(s.cos[i], s.sectorNum);
    if s.ret.InProgress? && cfg.inOrder {
      assert TileOk(s.cos, s.wrOffs, s.sectorNum, i);
    }
    StructureMoves(cfg, s, i, s'.cos[i], s');
  }

  lemma OrderStepKeepsData(cfg: Config, s: State, i: nat, s': State)
    requires Structure(cfg, s) && DataOk(cfg, s) && OrderStep(cfg, s, i, s') && s.ret.InProgress?
    ensures DataOk(cfg, s')
  {
    assert CoOk(s.cos[i], s.sectorNum) && BufOk(cfg.Content(), s.cos[i]);
    DataMoves(cfg, s, i, s'.cos[i], s');
  }

  lemma OrderStepKeepsInv(cfg: Config, s: State, i: nat, s': State)
    requires Inv(cfg, s) && OrderStep(cfg, s, i, s')
    ensures Inv(cfg, s')
  {
    hide Structure, DataOk, OrderOk;
    OrderStepKeepsStructure(cfg, s, i, s');
    if s.ret.InProgress? {
      OrderStepKeepsData(cfg, s, i, s');
      OrderKeepsOrder(cfg, s, i, s');
    }
  }

  lemma ReadKeepsOrder(cfg: Config, s: State, i: nat, s': State)
    requires OrderOk(cfg, s) && ReadStep(cfg, s, i, s')
    ensures OrderOk(cfg, s')
  {
    hide OrderOk;
    QuietMoveKeepsOrder(cfg, s, i, s'.cos[i], s');
  }

  lemma WriteDoneKeepsData(cfg: Config, s: State, i: nat, s': State)
    requires Structure(cfg, s) && DataOk(cfg, s) && WriteDone(s, i, s')
    ensures DataOk(cfg, s')
  {
    assert CoOk(s.cos[i], s.sectorNum) && BufOk(cfg.Content(), s.cos[i]);
    DataMoves(cfg, s, i, s'.cos[i], s');
  }

  lemma ReadStepKeepsStructure(cfg: Config, s: State, i: nat, s': State)
    requires Structure(cfg, s) && ReadStep(cfg, s, i, s')
    ensures Structure(cfg, s')
  {
    assert CoOk(s.cos[i], s.sectorNum);
    StructureMoves(cfg, s, i, s'.cos[i], s');
  }

  lemma ReadStepKeepsInv(cfg: Config, s: State, i: nat, s': State)
    requires Inv(cfg, s) && ReadStep(cfg, s, i, s')
    ensures Inv(cfg, s')
  {
    hide Structure, DataOk, OrderOk;
    ReadStepKeepsStructure(cfg, s, i, s');
    if !s.ret.Failure? {
      ReadKeepsData(cfg, s, i, s');
      ReadKeepsOrder(cfg, s, i, s');
    }
  }

  lemma ReadFailKeepsInv(cfg: Config, s: State, i: nat, s': State)
    requires Inv(cfg, s) && ReadFail(s, i, s')
    ensures Inv(cfg, s')
  {
    assert CoOk(s.cos[i], s.sectorNum);
    StructureMoves(cfg, s, i, s'.cos[i], s');
  }

  lemma WriteStepKeepsStructure(cfg: Config, s: State, i: nat, k: nat, e: Effect, s': State)
    requires Structure(cfg, s) && WriteStep(cfg, s, i, k, e, s')
    ensures Structure(cfg, s')
  {
    assert CoOk(s.cos[i], s.sectorNum);
    StructureMoves(cfg, s, i, s'.cos[i], s');
  }

  lemma WriteStepKeepsInv(cfg: Config, s: State, i: nat, k: nat, e: Effect, s': State)
    requires Inv(cfg, s) && WriteStep(cfg, s, i, k, e, s')
    ensures Inv(cfg, s')
  {
    hide Structure, DataOk, OrderOk;
    WriteStepKeepsStructure(cfg, s, i, k, e, s');
    if !s'.ret.Failure? {
      WriteKeepsData(cfg, s, i, k, e, s');
      WriteKeepsOrder(cfg, s, i, k, e, s');
    }
  }

  lemma WriteEndKeepsStructure(cfg: Config, s: State, i: nat, s': State)
    requires Structure(cfg, s) && (WriteDone(s, i, s') || WriteFail(s, i, s'))
    ensures Structure(cfg, s')
  {
    assert CoOk(s.cos[i], s.sectorNum);
    StructureMoves(cfg, s, i, s'.cos[i], s');
  }

  lemma WriteEndKeepsInv(cfg: Config, s: State, i: nat, s': State)
    requires Inv(cfg, s) && (WriteDone(s, i, s') || WriteFail(s, i, s'))
    ensures Inv(cfg, s')
  {
    hide Structure, DataOk, OrderOk;
    WriteEndKeepsStructure(cfg, s, i, s');
    if !s'.ret.Failure? {
      WriteDoneKeepsData(cfg, s, i, s');
      WriteDoneKeepsOrder(cfg, s, i, s');
    }
  }

  lemma ClaimStepKeepsInv(cfg: Config, s: State, i: nat, s': State)
    requires Inv(cfg, s) && ClaimStep(cfg, s, i, s')
    ensures Inv(cfg, s')
  {
    hide Structure, DataOk, OrderOk;
    ClaimKeepsStructure(cfg, s, i, s');
    ClaimKeepsData(cfg, s, i, s');
    ClaimKeepsOrder(cfg, s, i, s');
  }

  lemma FinishStepKeepsInv(cfg: Config, s: State, i: nat, s': State)
    requires Inv(cfg, s) && FinishStep(cfg, s, i, s')
    ensures Inv(cfg, s')
  {
    hide Structure, DataOk, OrderOk;
    FinishKeepsStructure(cfg, s, i, s');
    if !s.ret.Failure? {
      FinishKeepsData(cfg, s, i, s');
      FinishKeepsOrder(cfg, s, i, s');
    }
  }

  lemma NextKeepsInv(cfg: Config, s: State, s': State)
    requires Inv(cfg, s) && Next(cfg, s, s')
    ensures Inv(cfg, s')
  {
    var i :| Step(cfg, s, i, s');
    if StartStep(s, i, s') || ExitStep(cfg, s, i, s') || ClaimFail(cfg, s, i, s') {
      StartOrLeaveKeepsInv(cfg, s, i, s');
    } else if ClaimStep(cfg, s, i, s') {
      ClaimStepKeepsInv(cfg, s, i, s');
    } else if ReadStep(cfg, s, i, s') {
      ReadStepKeepsInv(cfg, s, i, s');
    } else if ReadFail(s, i, s') {
      ReadFailKeepsInv(cfg, s, i, s');
    } else if OrderStep(cfg, s, i, s') {
      OrderStepKeepsInv(cfg, s, i, s');
    } else if WriteFail(s, i, s') || WriteDone(s, i, s') {
      WriteEndKeepsInv(cfg, s, i, s');
    } else if FinishStep(cfg, s, i, s') {
      FinishStepKeepsInv(cfg, s, i, s');
    } else {
      var k, e :| WriteStep(cfg, s, i, k, e, s');
      WriteStepKeepsInv(cfg, s, i, k, e, s');
    }
  }

  // ----- all runs -----

  ghost predicate IsRun(cfg: Config, r: seq<State>) {
    && cfg.Valid() && |r| > 0 && Init(cfg, r[0])
    && forall k | 0 <= k < |r| - 1 :: Next(cfg, r[k], r[k + 1])
  }

  lemma InitInv(cfg: Config, s: State)
    requires cfg.Valid() && Init(cfg, s)
    ensures Inv(cfg, s)
  {
    assert LiveOnes(s.cos) == {};
  }

  lemma {:induction false} RunInvariant(cfg: Config, r: seq<State>, k: nat)
    requires IsRun(cfg, r) && k < |r|
    ensures Inv(cfg, r[k])
  {
    hide Init, Next, Inv;
    if k == 0 {
      InitInv(cfg, r[0]);
    } else {
      RunInvariant(cfg, r, k - 1);
      assert Next(cfg, r[k - 1], r[k - 1 + 1]);
      NextKeepsInv(cfg, r[k - 1], r[k]);
    }
  }

  /** A run that reports success leaves the target equal to the concatenated sources. */
  lemma ConvertPreservesContent(cfg: Config, r: seq<State>, k: nat)
    requires IsRun(cfg, r) && k < |r| && r[k].ret.Success?
    ensures r[k].data == cfg.Content()
  {
    RunInvariant(cfg, r, k);
    var s := r[k];
    forall x | 0 <= x < |s.data|
      ensures s.data[x] == cfg.Content()[x]
    {
      assert !Pending(s.cos, x);
    }
  }

  /** In every schedule the claims partition the sectors handed out so far, all of them
      once the run reports success, and none is empty. */
  lemma ClaimsPartition(cfg: Config, r: seq<State>, k: nat, x: nat)
    requires IsRun(cfg, r) && k < |r| && x < r[k].sectorNum
    ensures ClaimsOk(r[k]) && r[k].sectorNum <= |cfg.Content()|
    ensures r[k].ret.Success? ==> r[k].sectorNum == |cfg.Content()|
    ensures exists c :: 0 <= c < |r[k].claims| && r[k].claims[c].0 <= x < r[k].claims[c].0 + r[k].claims[c].1
    ensures forall c, d | 0 <= c < d < |r[k].claims| :: r[k].claims[c].0 + r[k].claims[c].1 <= r[k].claims[d].0
  {
    RunInvariant(cfg, r, k);
    var claims := r[k].claims;
    forall c, d | 0 <= c < d < |claims|
      ensures claims[c].0 + claims[c].1 <= claims[d].0
    {
      ClaimsAscend(r[k], c, d);
    }
    var c := ClaimOf(r[k], x, |claims|);
  }

  lemma {:induction false} ClaimsAscend(s: State, c: nat, d: nat)
    requires ClaimsOk(s) && c < d < |s.claims|
    ensures s.claims[c].0 + s.claims[c].1 <= s.claims[d].0
    decreases d
  {
    if c < d - 1 {
      ClaimsAscend(s, c, d - 1);
    }
  }

  lemma {:induction false} ClaimOf(s: State, x: nat, m: nat) returns (c: nat)
    requires ClaimsOk(s) && 0 < m <= |s.claims| && x < s.claims[m - 1].0 + s.claims[m - 1].1
    ensures c < m && s.claims[c].0 <= x < s.claims[c].0 + s.claims[c].1
    decreases m
  {
    if s.claims[m - 1].0 <= x {
      c := m - 1;
    } else {
      c := ClaimOf(s, x, m - 1);
    }
  }

  /** As long as nothing has failed, what was skipped or zeroed in place of data is zero in
      the source; with in-order writing, the target was written in ascending order without
      gap or repetition, completely so once the run reports success. */
  lemma WritesAreRightAndOrdered(cfg: Config, r: seq<State>, k: nat)
    requires IsRun(cfg, r) && k < |r| && !r[k].ret.Failure?
    ensures forall l | 0 <= l < |r[k].log| :: ZeroEntryOk(cfg.Content(), r[k].log[l])
    ensures cfg.inOrder ==> Contiguous(r[k].log)
    ensures cfg.inOrder && r[k].ret.Success? ==> LogEnd(r[k].log) == |cfg.Content()|
  {
    RunInvariant(cfg, r, k);
  }

  /** As long as nothing has failed, the extent whose turn it is has an owner, and the owner
      is not the one asleep. */
  lemma TurnOwnerIsAwake(cfg: Config, r: seq<State>, k: nat)
    requires IsRun(cfg, r) && k < |r| && !r[k].ret.Failure? && cfg.inOrder && r[k].wrOffs < r[k].sectorNum
    ensures exists i :: && 0 <= i < |r[k].cos| && r[k].cos[i].Busy? && r[k].cos[i].sector == r[k].wrOffs
                        && !r[k].cos[i].phase.Asleep?
  {
    RunInvariant(cfg, r, k);
    var s := r[k];
    var i :| 0 <= i < |s.cos| && s.cos[i].Busy? && s.cos[i].sector == s.wrOffs;
    assert TileOk(s.cos, s.wrOffs, s.sectorNum, i);
  }

  // ----- the group cannot stall, whatever fails -----

  ghost predicate CanStep(cfg: Config, s: State, i: nat) {
    exists s' :: Step(cfg, s, i, s')
  }

  /** Behind every sleeper, however long the queue, there is a coroutine at work. */
  lemma {:induction false} AwakeBehind(cfg: Config, s: State, i: nat) returns (j: nat)
    requires Structure(cfg, s) && i < |s.cos| && s.cos[i].Busy?
    ensures j < |s.cos| && s.cos[j].Busy? && !s.cos[j].phase.Asleep?
    decreases s.cos[i].sector
  {
    j := i;
    if s.cos[i].phase.Asleep? {
      assert SleeperOk(s.cos, i);
      var k :| 0 <= k < |s.cos| && Precedes(s.cos[k], s.cos[i]);
      assert CoOk(s.cos[k], s.sectorNum);
      j := AwakeBehind(cfg, s, k);
    }
  }

  /** A coroutine with an extent that does not sleep can take a step in which nothing fails. */
  lemma AwakeCanStep(cfg: Config, s: State, i: nat) returns (s': State)
    requires cfg.Valid() && Structure(cfg, s) && i < |s.cos| && s.cos[i].Busy? && !s.cos[i].phase.Asleep?
    ensures Step(cfg, s, i, s') && s'.ret == s.ret
  {
    var co := s.cos[i];
    assert CoOk(co, s.sectorNum);
    match co.phase
    case Read => {
      var zeroes: seq<Sector> := seq(co.n, _ => ZERO);
      var co' := if co.status.Data? then co.(buf := cfg.Content()[co.sector..co.sector + co.n], phase := Order)
                 else if cfg.minSparse == 0 then co.(buf := zeroes, status := Data, phase := Order)
                 else co.(buf := zeroes, phase := Order);
      s' := Put(s, i, co');
      assert InPhase(s, i, Read);
      assert ReadStep(cfg, s, i, s');
    }
    case Order => {
      var p := if cfg.inOrder && s.wrOffs != co.sector && s.ret.InProgress? then Asleep
               else if s.ret.InProgress? then Write(0) else Finish;
      s' := Put(s, i, co.(phase := p));
      assert OrderStep(cfg, s, i, s');
    }
    case Write(done) => {
      if done == co.n {
        s' := Put(s, i, co.(phase := Finish));
        assert WriteDone(s, i, s');
      } else {
        var e := if co.status.Data? then WriteData else if cfg.hasZeroInit then Skip else WriteZeroes;
        assert EffectOk(cfg, co.status, co.buf[done..], 1, e);
        s' := Put(s, i, co.(phase := Write(done + 1)))
                .(data := Apply(s.data, co.sector + done, co.buf[done..], 1, e),
                  log := s.log + [(co.sector + done, 1, e)]);
        assert WriteStep(cfg, s, i, 1, e, s');
      }
    }
    case Finish => {
      var end, cos := co.sector + co.n, s.cos[i := AtLock];
      s' := if cfg.inOrder then s.(cos := Wake(cos, end), wrOffs := end) else s.(cos := cos);
      assert FinishStep(cfg, s, i, s');
    }
  }

  /** In every reachable state, with or without failures, a coroutine that holds an extent
      implies one that can make progress: the group never stalls. */
  lemma NoStall(cfg: Config, r: seq<State>, k: nat, i: nat)
    requires IsRun(cfg, r) && k < |r| && i < |r[k].cos| && r[k].cos[i].Busy?
    ensures exists j: nat :: j < |r[k].cos| && r[k].cos[j].Busy? && CanStep(cfg, r[k], j)
  {
    RunInvariant(cfg, r, k);
    var j := AwakeBehind(cfg, r[k], i);
    var s' := AwakeCanStep(cfg, r[k], j);
  }
}
