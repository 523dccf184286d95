/** The building blocks of qemu-img convert: sparse scanning, extent selection, reading
    across sources and writing extents, without target backing, salvage or copy offloading. */
module Convert {
  import opened Buffers

  function Zeroes(n: nat): (s: seq<byte>)
    ensures |s| == n && IsZero(s)
  {
    seq(n, _ => 0)
  }

  type Sector = s: seq<byte> | |s| == SECTOR_SIZE witness Zeroes(SECTOR_SIZE)

  const ZERO: Sector := Zeroes(SECTOR_SIZE)

  const MAX_SECTORS: nat := 0x3fffff

  datatype BlockStatus = Data | Zero

  predicate AllZero(s: seq<Sector>) {
    forall i | 0 <= i < |s| :: s[i] == ZERO
  }

  /** Sectors lo up to hi of s are zero. */
  predicate ZeroSectors(s: seq<Sector>, lo: nat, hi: nat) {
    forall i | lo <= i < hi && i < |s| :: s[i] == ZERO
  }

  /** How many leading sectors agree with the first on being zero. */
  function Run(buf: seq<Sector>): (n: nat)
    ensures n <= |buf| && (|buf| > 0 ==> n > 0)
    ensures forall i | 0 <= i < n :: (buf[i] == ZERO) == (buf[0] == ZERO)
    ensures n < |buf| ==> (buf[n] == ZERO) != (buf[0] == ZERO)
  {
    if |buf| <= 1 then |buf|
    else
      var k := Run(buf[..|buf| - 1]);
      if k == |buf| - 1 && (buf[k] == ZERO) == (buf[0] == ZERO) then k + 1 else k
  }

  lemma RunUnique(buf: seq<Sector>, n: nat)
    requires 0 < n <= |buf|
    requires forall i | 0 <= i < n :: (buf[i] == ZERO) == (buf[0] == ZERO)
    requires n < |buf| ==> (buf[n] == ZERO) != (buf[0] == ZERO)
    ensures n == Run(buf)
  {
  }

  /** Where is_allocated_sectors ends the first extent of a buffer, and what it calls it. */
  function Verdict(buf: seq<Sector>, sectorNum: nat, alignment: nat): (v: (bool, nat))
    requires alignment > 0 && |buf| > 0
    ensures 0 < v.1 <= |buf|
  {
    var run := Run(buf);
    var tail := (sectorNum + run) % alignment;
    var data := buf[0] != ZERO || (run < |buf| && run <= tail);
    (data, if run == |buf| || tail == 0 then run else if data then Min(run + (alignment - tail), |buf|) else run - tail)
  }

  /** is_allocated_sectors.  A zero run is reported as data when it is too short to reach
      back to an alignment boundary; otherwise the verdict is that of the first sector.  The
      extent ends on an alignment boundary or with the buffer. */
  method IsAllocatedSectors(buf: seq<Sector>, sectorNum: nat, alignment: nat) returns (alloc: bool, pnum: nat)
    requires alignment > 0
    ensures |buf| == 0 ==> !alloc && pnum == 0
    ensures |buf| > 0 ==> 0 < pnum <= |buf|
    ensures !alloc ==> AllZero(buf[..pnum])
    ensures |buf| > 0 ==>
              (alloc <==> buf[0] != ZERO || (Run(buf) < |buf| && Run(buf) <= (sectorNum + Run(buf)) % alignment))
    ensures pnum == |buf| || (sectorNum + pnum) % alignment == 0
    ensures alloc ==> Run(buf) <= pnum < Run(buf) + alignment
    ensures !alloc && Run(buf) < |buf| ==> Run(buf) - alignment < pnum <= Run(buf)
    ensures Run(buf) == |buf| ==> pnum == |buf|
    ensures |buf| > 0 ==> (alloc, pnum) == Verdict(buf, sectorNum, alignment)
  {
    if |buf| == 0 {
      return false, 0;
    }
    var isZero := buf[0] == ZERO;
    var i := 1;
    while i < |buf| && isZero == (buf[i] == ZERO)
      invariant 1 <= i <= |buf|
      invariant forall j | 0 <= j < i :: (buf[j] == ZERO) == isZero
    {
      i := i + 1;
    }
    RunUnique(buf, i);
    if i == |buf| {
      return !isZero, i;
    }
    isZero, i := AlignRun(isZero, i, |buf|, sectorNum, alignment);
    return !isZero, i;
  }

  /** The comment on is_allocated_sectors says that it returns true if and only if the first
      sector has a non-zero byte.  It does not, where the zero sector before the data is not
      enough to reach an alignment boundary. */
  method ShortZeroRunIsData(x: Sector) returns (alloc: bool, pnum: nat)
    requires x != ZERO
    ensures alloc && pnum == 2
  {
    var buf := [ZERO, x];
    RunUnique(buf, 1);
    alloc, pnum := IsAllocatedSectors(buf, 0, 8);
    assert pnum != 1;
  }

  /** The end of is_allocated_sectors: a run of i sectors that ends before the buffer does is
      made to end on an alignment boundary. */
  method AlignRun(isZero0: bool, i0: nat, size: nat, sectorNum: nat, alignment: nat) returns (isZero: bool, i: nat)
    requires alignment > 0 && 0 < i0 < size
    ensures isZero <==> isZero0 && i0 > (sectorNum + i0) % alignment
    ensures 0 < i <= size && (if isZero then i0 - alignment < i <= i0 else i0 <= i < i0 + alignment)
    ensures i == size || (sectorNum + i) % alignment == 0
    ensures var tail := (sectorNum + i0) % alignment;
            i == if tail == 0 then i0 else if isZero then i0 - tail else Min(i0 + (alignment - tail), size)
  {
    isZero, i := isZero0, i0;
    var tail := (sectorNum + i) % alignment;
    AlignNeighbours(sectorNum + i, alignment);
    if tail != 0 {
      if isZero && i <= tail {
        isZero := false;
      }
      if !isZero {
        i := Min(i + (alignment - tail), size);
      } else {
        i := i - tail;
      }
    }
  }

  lemma AlignNeighbours(x: nat, alignment: nat)
    requires alignment > 0
    ensures (x - x % alignment) % alignment == 0
    ensures (x + (alignment - x % alignment)) % alignment == 0
  {
    var q := x / alignment;
    Remainder(q, 0, x - x % alignment, alignment);
    assert x + (alignment - x % alignment) == (q + 1) * alignment;
    Remainder(q + 1, 0, x + (alignment - x % alignment), alignment);
  }

  /** An extent as is_allocated_sectors reports it. */
  datatype Extent = Extent(at: nat, n: nat, data: bool) {
    function End(): nat {
      at + n
    }
  }

  /** The extents that is_allocated_sectors cuts a buffer into, from at on. */
  function Extents(buf: seq<Sector>, at: nat, sectorNum: nat, alignment: nat): seq<Extent>
    requires alignment > 0 && at <= |buf|
    decreases |buf| - at
  {
    if at == |buf| then []
    else
      var v := Verdict(buf[at..], sectorNum + at, alignment);
      [Extent(at, v.1, v.0)] + Extents(buf, at + v.1, sectorNum, alignment)
  }

  lemma {:induction false} ExtentsFollow(buf: seq<Sector>, at: nat, sectorNum: nat, alignment: nat, x: Extent)
    requires alignment > 0 && at <= |buf| && x in Extents(buf, at, sectorNum, alignment)
    ensures at <= x.at && x.n > 0 && x.End() <= |buf|
    decreases |buf| - at
  {
    var v := Verdict(buf[at..], sectorNum + at, alignment);
    if x != Extent(at, v.1, v.0) {
      ExtentsFollow(buf, at + v.1, sectorNum, alignment, x);
    }
  }

  /** Of the extents passed so far, used is the end of the last data extent, and no zero extent
      is long enough to stop at. */
  predicate Passed(passed: seq<Extent>, used: nat, checked: nat, least: nat) {
    && (forall x | x in passed :: x.End() <= checked && (x.data || x.n < least))
    && (exists x :: x in passed && x.data && x.End() == used)
    && (forall x | x in passed && x.data :: x.End() <= used)
  }

  lemma PassOne(passed: seq<Extent>, used: nat, checked: nat, least: nat, x: Extent)
    requires Passed(passed, used, checked, least) && x.at == checked && (x.data || x.n < least) && used <= checked
    ensures Passed(passed + [x], if x.data then x.End() else used, x.End(), least)
  {
    var p := passed + [x];
    if x.data {
      assert x in p;
    } else {
      var y :| y in passed && y.data && y.End() == used;
      assert y in p;
    }
  }

  /** A data extent ends at pnum: it holds no zero extent of least sectors, ends with data, and
      what data follows does so behind a zero extent of least sectors. */
  ghost predicate EndsAt(all: seq<Extent>, pnum: nat, least: nat) {
    && (forall x | x in all && x.End() <= pnum :: x.data || x.n < least)
    && (exists x :: x in all && x.data && x.End() == pnum)
    && (forall x | x in all && x.data && x.End() > pnum ::
          exists z :: z in all && !z.data && z.n >= least && pnum <= z.at < x.at)
  }

  lemma StoppedHere(buf: seq<Sector>, sectorNum: nat, alignment: nat, passed: seq<Extent>, rest: seq<Extent>,
      used: nat, at: nat, least: nat)
    requires alignment > 0 && at <= |buf| && rest == Extents(buf, at, sectorNum, alignment) && used <= at
    requires Passed(passed, used, at, least) && (rest != [] ==> !rest[0].data && rest[0].n >= least)
    ensures EndsAt(passed + rest, used, least)
  {
    var all := passed + rest;
    hide Extents, Verdict, Run;
    forall x | x in rest
      ensures x.End() > used
      ensures x.data ==> rest[0] in all && used <= rest[0].at < x.at
    {
      ExtentsFollow(buf, at, sectorNum, alignment, x);
      if x.data {
        ExtentsFollow(buf, at, sectorNum, alignment, rest[0]);
        FirstExtent(buf, at, sectorNum, alignment);
        ExtentsFollow(buf, rest[0].End(), sectorNum, alignment, x);
      }
    }
    var last :| last in passed && last.data && last.End() == used;
    assert last in all;
    assert forall x | x in all && x.End() <= used :: x in passed;
  }

  lemma FirstExtent(buf: seq<Sector>, at: nat, sectorNum: nat, alignment: nat)
    requires alignment > 0 && at < |buf|
    ensures var all := Extents(buf, at, sectorNum, alignment);
            && all != [] && all[0].at == at && all[0].End() <= |buf|
            && all == [all[0]] + Extents(buf, all[0].End(), sectorNum, alignment)
  {
    hide Verdict, Run;
  }

  lemma NextExtent(buf: seq<Sector>, at: nat, sectorNum: nat, alignment: nat, data: bool, n: nat)
    requires alignment > 0 && at < |buf| && (data, n) == Verdict(buf[at..], sectorNum + at, alignment)
    ensures at + n <= |buf|
    ensures Extents(buf, at, sectorNum, alignment) ==
            [Extent(at, n, data)] + Extents(buf, at + n, sectorNum, alignment)
  {
    hide Verdict, Run;
  }

  lemma NoMoreExtents(buf: seq<Sector>, sectorNum: nat, alignment: nat)
    requires alignment > 0
    ensures Extents(buf, |buf|, sectorNum, alignment) == []
  {
  }

  lemma NothingBetween(buf: seq<Sector>, at: nat)
    ensures ZeroSectors(buf, at, at)
  {
  }

  lemma ZeroEnough(buf: seq<Sector>, used: nat, zeroTo: nat, min: nat)
    requires ZeroSectors(buf, used, zeroTo) && (zeroTo >= |buf| || zeroTo >= used + min)
    ensures ZeroSectors(buf, used, used + min)
  {
  }

  lemma FirstPassed(n: nat, least: nat)
    ensures Passed([Extent(0, n, true)], n, n, least)
  {
    assert [Extent(0, n, true)][0] in [Extent(0, n, true)];
  }

  lemma ZeroFurther(buf: seq<Sector>, used: nat, checked: nat, n: nat)
    requires checked + n <= |buf| && ZeroSectors(buf, used, checked) && AllZero(buf[checked..][..n])
    ensures ZeroSectors(buf, used, checked + n)
  {
    assert forall i | checked <= i < checked + n :: buf[i] == buf[checked..][..n][i - checked];
  }

  /** An extent ends on an alignment boundary or with the buffer. */
  predicate EndsAligned(size: nat, sectorNum: nat, end: nat, alignment: nat)
    requires alignment > 0
  {
    end == size || (sectorNum + end) % alignment == 0
  }

  lemma AlignedEnd(size: nat, sectorNum: nat, end: nat, alignment: nat)
    requires alignment > 0 && (end == size || (sectorNum + end) % alignment == 0)
    ensures EndsAligned(size, sectorNum, end, alignment)
  {
  }

  /** One more extent, from at on. */
  method ExtentAt(buf: seq<Sector>, at: nat, sectorNum: nat, alignment: nat) returns (data: bool, n: nat)
    requires alignment > 0 && at < |buf|
    ensures n > 0 && at + n <= |buf| && (!data ==> AllZero(buf[at..][..n]))
    ensures EndsAligned(|buf|, sectorNum, at + n, alignment)
    ensures Extents(buf, at, sectorNum, alignment) ==
            [Extent(at, n, data)] + Extents(buf, at + n, sectorNum, alignment)
  {
    data, n := IsAllocatedSectors(buf[at..], sectorNum + at, alignment);
    NextExtent(buf, at, sectorNum, alignment, data, n);
  }

  /** is_allocated_sectors_min.  The verdict is that on the first extent.  A data extent ends with
      the last data extent before the first zero extent of at least min sectors, or before the
      end of the buffer. */
  method IsAllocatedSectorsMin(buf: seq<Sector>, min: nat, sectorNum: nat, alignment: nat)
      returns (alloc: bool, pnum: nat)
    requires alignment > 0
    ensures |buf| == 0 ==> !alloc && pnum == 0
    ensures |buf| > 0 ==> 0 < pnum <= |buf| && alloc == Verdict(buf, sectorNum, alignment).0
    ensures !alloc ==> AllZero(buf[..pnum])
    ensures !alloc && |buf| > 0 ==> pnum == Verdict(buf, sectorNum, alignment).1
    ensures |buf| > 0 && buf[0] != ZERO ==> alloc
    ensures alloc ==> ZeroSectors(buf, pnum, pnum + min)
    ensures EndsAligned(|buf|, sectorNum, pnum, alignment)
    ensures alloc ==> EndsAt(Extents(buf, 0, sectorNum, alignment), pnum, Min(min, |buf|))
  {
    hide Verdict, Extents, Passed, Run, EndsAt, ZeroSectors, AllZero, EndsAligned;
    var least := Min(min, |buf|);
    alloc, pnum := IsAllocatedSectors(buf, sectorNum, alignment);
    assert EndsAligned(|buf|, sectorNum, pnum, alignment) by { AlignedEnd(|buf|, sectorNum, pnum, alignment); }
    if !alloc {
      return;
    }
    var used, checked := pnum, pnum;
    assert buf[0..] == buf;
    NextExtent(buf, 0, sectorNum, alignment, true, pnum);
    FirstPassed(pnum, least);
    ghost var passed, rest := [Extent(0, pnum, true)], Extents(buf, checked, sectorNum, alignment);
    ghost var zeroTo := checked;
    assert ZeroSectors(buf, used, zeroTo) by { NothingBetween(buf, used); }
    while checked < |buf|
      invariant 0 < used <= checked == zeroTo <= |buf|
      invariant ZeroSectors(buf, used, zeroTo)
      invariant EndsAligned(|buf|, sectorNum, used, alignment)
      invariant rest == Extents(buf, checked, sectorNum, alignment)
      invariant Extents(buf, 0, sectorNum, alignment) == passed + rest
      invariant Passed(passed, used, checked, least)
      decreases |buf| - checked
    {
      var ret, n := ExtentAt(buf, checked, sectorNum, alignment);
      ghost var x := Extent(checked, n, ret);
      if !ret {
        ZeroFurther(buf, used, checked, n);
        zeroTo := checked + n;
        if n >= least {
          break;
        }
      }
      PassOne(passed, used, checked, least, x);
      assert passed + rest == (passed + [x]) + rest[1..];
      passed, rest := passed + [x], rest[1..];
      checked := checked + n;
      zeroTo := checked;
      if ret {
        used := checked;
        NothingBetween(buf, used);
      }
    }
    NoMoreExtents(buf, sectorNum, alignment);
    ZeroEnough(buf, used, zeroTo, min);
    StoppedHere(buf, sectorNum, alignment, passed, rest, used, checked, least);
    pnum := used;
  }

  // ----- sources -----

  /** A source image: its sectors, its alignment in sectors, whether its I/O succeeds, and what
      bdrv_block_status_above reports of the rest of it from every sector: whether it is zero, and
      for how many bytes that holds. */
  datatype Source = Source(sectors: seq<Sector>, alignment: nat, reliable: bool, report: nat -> (bool, nat)) {
    /** An extent is not empty and stays in the source; sectors it touches are zero if it is
        reported zero. */
    predicate Honest() {
      forall first: nat | first < |sectors| ::
        && 0 < report(first).1 <= (|sectors| - first) * SECTOR_SIZE
        && (report(first).0 ==>
              forall i | first <= i < |sectors| && (i - first) * SECTOR_SIZE < report(first).1 :: sectors[i] == ZERO)
    }
  }

  function Flat(srcs: seq<Source>): seq<Sector> {
    if srcs == [] then [] else srcs[0].sectors + Flat(srcs[1..])
  }

  lemma {:induction false} FlatSplit(srcs: seq<Source>, k: nat)
    requires k < |srcs|
    ensures Flat(srcs) == Flat(srcs[..k]) + srcs[k].sectors + Flat(srcs[k + 1..])
  {
    if k == 0 {
      assert srcs[..0] == [];
      assert Flat(srcs[..0]) == [];
    } else {
      FlatSplit(srcs[1..], k - 1);
      assert srcs[1..][..k - 1] == srcs[1..k];
      assert srcs[..k][1..] == srcs[1..k];
      assert srcs[1..][k..] == srcs[k + 1..];
    }
  }

  lemma {:induction false} FlatSnoc(srcs: seq<Source>, k: nat)
    requires k < |srcs|
    ensures Flat(srcs[..k + 1]) == Flat(srcs[..k]) + srcs[k].sectors
  {
    FlatSplit(srcs[..k + 1], k);
    assert srcs[..k + 1][..k] == srcs[..k];
    assert srcs[..k + 1][k + 1..] == [];
  }

  /** convert_select_part: the source that holds a sector, and where that source starts. */
  method SelectPart(srcs: seq<Source>, sectorNum: nat) returns (cur: nat, curOffset: nat)
    requires sectorNum < |Flat(srcs)|
    ensures cur < |srcs| && curOffset == |Flat(srcs[..cur])|
    ensures curOffset <= sectorNum < curOffset + |srcs[cur].sectors|
  {
    cur, curOffset := 0, 0;
    assert srcs[..0] == [];
    assert srcs[..|srcs|] == srcs;
    while sectorNum - curOffset >= |srcs[cur].sectors|
      invariant cur < |srcs| && curOffset == |Flat(srcs[..cur])| && curOffset <= sectorNum
      decreases |srcs| - cur
    {
      FlatSnoc(srcs, cur);
      curOffset := curOffset + |srcs[cur].sectors|;
      cur := cur + 1;
    }
  }

  lemma {:induction false} FlatGrows(srcs: seq<Source>, a: nat, b: nat)
    requires a <= b <= |srcs|
    ensures |Flat(srcs[..a])| <= |Flat(srcs[..b])|
    decreases b - a
  {
    if a < b {
      FlatGrows(srcs, a, b - 1);
      FlatSnoc(srcs, b - 1);
    }
  }

  /** The sector x belongs to source k. */
  predicate InPart(srcs: seq<Source>, k: nat, x: nat) {
    k < |srcs| && |Flat(srcs[..k])| <= x < |Flat(srcs[..k])| + |srcs[k].sectors|
  }

  lemma OnePart(srcs: seq<Source>, a: nat, b: nat, x: nat)
    requires InPart(srcs, a, x) && InPart(srcs, b, x)
    ensures a == b
  {
    if a < b {
      FlatSnoc(srcs, a);
      FlatGrows(srcs, a + 1, b);
    } else if b < a {
      FlatSnoc(srcs, b);
      FlatGrows(srcs, b + 1, a);
    }
  }

  /** bdrv_block_status_above on a source, in bytes. */
  method SourceStatus(src: Source, first: nat, count: nat) returns (ok: bool, zero: bool, got: nat)
    requires src.Honest() && first < |src.sectors| && count > 0
    ensures src.reliable ==> ok
    ensures zero == src.report(first).0 && got == Min(src.report(first).1, count)
    ensures 0 < got <= count && got <= (|src.sectors| - first) * SECTOR_SIZE
    ensures zero ==> forall i | first <= i < |src.sectors| && (i - first) * SECTOR_SIZE < got :: src.sectors[i] == ZERO
  {
    ok := *;
    ok := ok || src.reliable;
    zero, got := src.report(first).0, Min(src.report(first).1, count);
  }

  lemma ReadPart(srcs: seq<Source>, cur: nat, from: nat, at: nat, n: nat)
    requires cur < |srcs| && |Flat(srcs[..cur])| <= at && at + n <= |Flat(srcs[..cur])| + |srcs[cur].sectors|
             && from <= at
    ensures var first := at - |Flat(srcs[..cur])|;
            at + n <= |Flat(srcs)|
              && Flat(srcs)[from..at + n] == Flat(srcs)[from..at] + srcs[cur].sectors[first..first + n]
  {
    FlatSplit(srcs, cur);
    hide Flat;
    SlicePart(Flat(srcs), Flat(srcs[..cur]), srcs[cur].sectors, Flat(srcs[cur + 1..]), from, at, n);
  }

  lemma SlicePart<T>(f: seq<T>, a: seq<T>, b: seq<T>, c: seq<T>, from: nat, at: nat, n: nat)
    requires f == a + b + c && |a| <= at && at + n <= |a| + |b| && from <= at
    ensures f[from..at + n] == f[from..at] + b[at - |a|..at - |a| + n]
  {
  }

  /** convert_co_read: nb sectors, across sources if need be. */
  method CoRead(srcs: seq<Source>, sectorNum: nat, nb: nat) returns (ok: bool, buf: seq<Sector>)
    requires sectorNum + nb <= |Flat(srcs)|
    ensures (forall k | 0 <= k < |srcs| :: srcs[k].reliable) ==> ok
    ensures ok ==> buf == Flat(srcs)[sectorNum..sectorNum + nb]
  {
    hide Flat;
    buf, ok := [], true;
    var at, left := sectorNum, nb;
    while left > 0
      invariant ok && sectorNum <= at && 0 <= left && at + left == sectorNum + nb
      invariant buf == Flat(srcs)[sectorNum..at]
    {
      var cur, curOffset := SelectPart(srcs, at);
      var src := srcs[cur];
      var first := at - curOffset;
      var n := Min(left, |src.sectors| - first);
      ok := *;
      ok := ok || src.reliable;
      if !ok {
        return;
      }
      ReadPart(srcs, cur, sectorNum, at, n);
      buf := buf + src.sectors[first..first + n];
      at, left := at + n, left - n;
    }
  }

  // ----- the extent cache -----

  /** The part of ImgConvertState that is fixed while the copy runs. */
  datatype Config = Config(
    srcs: seq<Source>,
    minSparse: nat,
    alignment: nat,
    hasZeroInit: bool,
    compressed: bool,
    clusterSectors: nat,
    bufSectors: nat,
    inOrder: bool)
  {
    /** convert_do_copy rejects a cluster that does not fit the buffer, then copies one
        cluster at a time. */
    predicate Valid() {
      && alignment > 0 && bufSectors > 0
      && (compressed ==> 0 < clusterSectors && bufSectors == clusterSectors)
      && forall k | 0 <= k < |srcs| :: srcs[k].alignment > 0
    }

    /** The sources report rightly. */
    predicate Honest() {
      forall k | 0 <= k < |srcs| :: srcs[k].Honest()
    }

    function Content(): seq<Sector> {
      Flat(srcs)
    }
  }

  /** The cached extent reaches to next; while it is in use, a zero verdict is right. */
  predicate CacheOk(content: seq<Sector>, sectorNum: nat, status: BlockStatus, next: nat) {
    && next <= |content|
    && (status.Zero? ==> ZeroSectors(content, sectorNum, next))
  }

  /** What convert_iteration_sectors may answer for sectorNum. */
  predicate ClaimOk(cfg: Config, sectorNum: nat, n: nat, status: BlockStatus) {
    && 0 < n && sectorNum + n <= |cfg.Content()|
    && (status.Zero? ==> ZeroSectors(cfg.Content(), sectorNum, sectorNum + n))
    && (status.Data? ==> n <= cfg.bufSectors)
  }

  lemma FlatIsPart(srcs: seq<Source>, cur: nat, i: nat)
    requires cur < |srcs| && |Flat(srcs[..cur])| <= i < |Flat(srcs[..cur])| + |srcs[cur].sectors|
    ensures i < |Flat(srcs)| && Flat(srcs)[i] == srcs[cur].sectors[i - |Flat(srcs[..cur])|]
  {
    FlatSplit(srcs, cur);
  }

  /** Bytes in whole sectors, rounded up. */
  function SectorsOf(bytes: nat): nat {
    (bytes + SECTOR_SIZE - 1) / SECTOR_SIZE
  }

  /** n sectors from first on, cut back to end on an alignment boundary if that leaves any. */
  function CutBack(first: nat, n: nat, alignment: nat): nat
    requires alignment > 0
  {
    var tail := (first + n) % alignment;
    if n > tail then n - tail else n
  }

  lemma CutBackMeans(first: nat, n: nat, alignment: nat)
    requires alignment > 0 && n > 0
    ensures var len := CutBack(first, n, alignment);
            && 0 < len <= n && n - alignment < len
            && ((first + len) % alignment == 0 || (len == n && n < alignment))
  {
    AlignNeighbours(first + n, alignment);
  }

  /** How much is cached of what a source reports from first on, with left sectors to go. */
  function ExtentLength(src: Source, first: nat, left: nat): nat
    requires src.alignment > 0
  {
    CutBack(first, SectorsOf(Min(src.report(first).1, Min(left, MAX_SECTORS) * SECTOR_SIZE)), src.alignment)
  }

  function StatusOf(zero: bool): BlockStatus {
    if zero then Zero else Data
  }

  class ExtentCache {
    const cfg: Config
    var status: BlockStatus
    var next: nat

    constructor (cfg: Config)
      ensures this.cfg == cfg && next == 0 && status == Data
    {
      this.cfg, next, status := cfg, 0, Data;
    }

    ghost predicate AllReliable() {
      forall k | 0 <= k < |cfg.srcs| :: cfg.srcs[k].reliable
    }

    /** The extent from sectorNum on is cached up to end. */
    ghost predicate CachedFor(sectorNum: nat, end: nat)
      requires cfg.Valid() && sectorNum < |cfg.Content()|
    {
      forall k: nat | InPart(cfg.srcs, k, sectorNum) ::
        end == sectorNum + ExtentLength(cfg.srcs[k], sectorNum - |Flat(cfg.srcs[..k])|, |cfg.Content()| - sectorNum)
    }

    /** The source at sectorNum reports this status. */
    ghost predicate Reported(sectorNum: nat, reported: BlockStatus) {
      forall k: nat | InPart(cfg.srcs, k, sectorNum) ::
        reported == StatusOf(cfg.srcs[k].report(sectorNum - |Flat(cfg.srcs[..k])|).0)
    }

    lemma AnswerOf(cur: nat, sectorNum: nat, reported: BlockStatus, end: nat)
      requires cfg.Valid() && sectorNum < |cfg.Content()| && InPart(cfg.srcs, cur, sectorNum)
      requires reported == StatusOf(cfg.srcs[cur].report(sectorNum - |Flat(cfg.srcs[..cur])|).0)
      requires end == sectorNum + ExtentLength(cfg.srcs[cur], sectorNum - |Flat(cfg.srcs[..cur])|,
                                               |cfg.Content()| - sectorNum)
      ensures Reported(sectorNum, reported) && CachedFor(sectorNum, end)
    {
      hide ExtentLength, Flat;
      forall k: nat | InPart(cfg.srcs, k, sectorNum)
        ensures k == cur
      {
        OnePart(cfg.srcs, k, cur, sectorNum);
      }
    }

    lemma WithinSource(cur: nat, sectorNum: nat, n: nat, zero: bool)
      requires InPart(cfg.srcs, cur, sectorNum) && sectorNum + n <= |Flat(cfg.srcs[..cur])| + |cfg.srcs[cur].sectors|
      requires var first := sectorNum - |Flat(cfg.srcs[..cur])|;
               zero ==> forall i | first <= i < first + n :: cfg.srcs[cur].sectors[i] == ZERO
      ensures CacheOk(cfg.Content(), sectorNum, StatusOf(zero), sectorNum + n)
    {
      forall i | sectorNum <= i < sectorNum + n
        ensures i < |cfg.Content()| && (zero ==> cfg.Content()[i] == ZERO)
      {
        FlatIsPart(cfg.srcs, cur, i);
      }
      FlatSplit(cfg.srcs, cur);
    }

    /** Asks the source for the extent at sectorNum and caches it. */
    method Refill(sectorNum: nat) returns (ok: bool)
      requires cfg.Valid() && cfg.Honest() && sectorNum < |cfg.Content()|
      modifies this
      ensures AllReliable() ==> ok
      ensures ok ==> sectorNum < next && CacheOk(cfg.Content(), sectorNum, status, next)
      ensures ok ==> Reported(sectorNum, status) && CachedFor(sectorNum, next)
    {
      hide Flat, CacheOk, Reported, CachedFor, CutBack;
      var cur, curOffset := SelectPart(cfg.srcs, sectorNum);
      var src := cfg.srcs[cur];
      var first := sectorNum - curOffset;
      var n := Min(|cfg.Content()| - sectorNum, MAX_SECTORS);
      var zero, got;
      ok, zero, got := SourceStatus(src, first, n * SECTOR_SIZE);
      if !ok {
        return;
      }
      var whole := SectorsOf(got);
      assert (whole - 1) * SECTOR_SIZE < got <= whole * SECTOR_SIZE;
      CutBackMeans(first, whole, src.alignment);
      n := CutBack(first, whole, src.alignment);
      status := if zero then Zero else Data;
      next := sectorNum + n;
      WithinSource(cur, sectorNum, n, zero);
      AnswerOf(cur, sectorNum, status, next);
    }

    /** convert_iteration_sectors: how many sectors from sectorNum on to treat alike, and how.  A
        cached extent is used up before another one is asked for.  All of what is cached is taken
        that fits a request, and the buffer if it has to be read; of a compressed image whole
        clusters, and what does not fill one is data. */
    method IterationSectors(sectorNum: nat) returns (ok: bool, n: nat)
      requires cfg.Valid() && cfg.Honest() && sectorNum < |cfg.Content()|
      requires CacheOk(cfg.Content(), sectorNum, status, next)
      modifies this
      ensures AllReliable() ==> ok
      ensures ok ==> ClaimOk(cfg, sectorNum, n, status)
      ensures ok ==> CacheOk(cfg.Content(), sectorNum, status, next)
      ensures ok && old(next) > sectorNum ==> next == old(next)
      ensures ok && old(next) <= sectorNum ==> CachedFor(sectorNum, next)
      ensures ok && !cfg.compressed ==>
                if old(next) > sectorNum then status == old(status) else Reported(sectorNum, status)
      ensures ok && !cfg.compressed ==>
                && sectorNum + n <= next && n <= MAX_SECTORS
                && (n == next - sectorNum || n == MAX_SECTORS || (status.Data? && n == cfg.bufSectors))
      ensures ok && cfg.compressed ==>
                || (n % cfg.clusterSectors == 0 && sectorNum + n <= next && n <= MAX_SECTORS)
                || (status.Data? && n == Min(cfg.clusterSectors, |cfg.Content()| - sectorNum))
    {
      hide Reported, CachedFor;
      var total := |cfg.Content()|;
      n := Min(total - sectorNum, MAX_SECTORS);
      if next <= sectorNum {
        ok := Refill(sectorNum);
        if !ok {
          return;
        }
      }
      n := Min(n, next - sectorNum);
      if status.Data? {
        n := Min(n, cfg.bufSectors);
      }
      if cfg.compressed {
        if n < cfg.clusterSectors {
          n := Min(cfg.clusterSectors, total - sectorNum);
          status := Data;
        } else {
          WholeClusters(n, cfg.clusterSectors);
          n := n - n % cfg.clusterSectors;
        }
      }
      ok := true;
    }
  }

  lemma WholeClusters(n: nat, size: nat)
    requires 0 < size <= n
    ensures 0 < n - n % size <= n && (n - n % size) % size == 0
  {
    AlignNeighbours(n, size);
  }

  /** Extents claimed one after the other: each starts where the one before ended, and the
      cache stays right for whatever is claimed next. */
  lemma CacheMovesOn(content: seq<Sector>, sectorNum: nat, status: BlockStatus, next: nat, n: nat)
    requires CacheOk(content, sectorNum, status, next)
    ensures CacheOk(content, sectorNum + n, status, next)
  {
  }

  // ----- writing -----

  datatype Effect = WriteData | WriteZeroes | Skip

  /** What one turn of convert_co_write may do with the first k of the sectors left. */
  predicate EffectOk(cfg: Config, status: BlockStatus, rest: seq<Sector>, k: nat, e: Effect) {
    && 0 < k <= |rest|
    && match e
       case WriteData => status.Data?
       case WriteZeroes => !cfg.hasZeroInit && (status.Zero? || (cfg.minSparse > 0 && AllZero(rest[..k])))
       case Skip => cfg.hasZeroInit && (status.Zero? || (cfg.minSparse > 0 && AllZero(rest[..k])))
  }

  /** data with w in place of what it had from at on. */
  function Splice(data: seq<Sector>, at: nat, w: seq<Sector>): (r: seq<Sector>)
    requires at + |w| <= |data|
    ensures |r| == |data|
  {
    seq(|data|, i requires 0 <= i < |data| => if at <= i < at + |w| then w[i - at] else data[i])
  }

  /** The target after an effect on k sectors from at on. */
  function Apply(data: seq<Sector>, at: nat, rest: seq<Sector>, k: nat, e: Effect): (r: seq<Sector>)
    requires k <= |rest| && at + k <= |data|
    ensures |r| == |data|
  {
    match e
    case WriteData => Splice(data, at, rest[..k])
    case WriteZeroes => Splice(data, at, seq(k, _ => ZERO))
    case Skip => data
  }

  /** The target; reliable says whether all writes to it succeed. */
  class Target {
    const reliable: bool
    var data: seq<Sector>

    constructor (data: seq<Sector>, reliable: bool)
      ensures this.data == data && this.reliable == reliable
    {
      this.data, this.reliable := data, reliable;
    }
  }

  /** What convert_co_write does with the first k of the sectors left, and why: a zero extent is
      zeroed as a whole, with -S 0 data is written as a whole, a compressed cluster is written
      unless it is all zero, and otherwise data ends where is_allocated_sectors_min ends it.  A
      target known to start out zero is not written with zeroes. */
  ghost predicate ChunkOk(cfg: Config, at: nat, rest: seq<Sector>, status: BlockStatus, k: nat, e: Effect)
    requires cfg.Valid() && |rest| > 0
  {
    && 0 < k <= |rest|
    && (e.Skip? ==> cfg.hasZeroInit) && (e.WriteZeroes? ==> !cfg.hasZeroInit)
    && if status.Zero? then !e.WriteData? && k == |rest|
       else if cfg.minSparse == 0 then e.WriteData? && k == |rest|
       else if cfg.compressed then (e.WriteData? <==> !AllZero(rest)) && k == |rest|
       else
         var v := Verdict(rest, at, cfg.alignment);
         && (e.WriteData? <==> v.0)
         && (if v.0 then EndsAt(Extents(rest, 0, at, cfg.alignment), k, Min(cfg.minSparse, |rest|)) else k == v.1)
  }

  /** The effects follow one another from at on, and each is the right one. */
  ghost predicate Planned(cfg: Config, at: nat, buf: seq<Sector>, status: BlockStatus,
      effects: seq<(nat, nat, Effect)>)
    requires cfg.Valid()
    decreases |effects|
  {
    if effects == [] then buf == []
    else
      var (x, k, e) := effects[0];
      && x == at && buf != [] && ChunkOk(cfg, at, buf, status, k, e)
      && Planned(cfg, at + k, buf[k..], status, effects[1..])
  }

  /** The effects so far take the plan from at on to the rest of the buffer. */
  ghost predicate PlannedTo(cfg: Config, at: nat, buf: seq<Sector>, status: BlockStatus, done: nat,
      effects: seq<(nat, nat, Effect)>)
    requires cfg.Valid() && done <= |buf|
  {
    forall more | Planned(cfg, at + done, buf[done..], status, more) :: Planned(cfg, at, buf, status, effects + more)
  }

  lemma PlanStarts(cfg: Config, at: nat, buf: seq<Sector>, status: BlockStatus)
    requires cfg.Valid()
    ensures PlannedTo(cfg, at, buf, status, 0, [])
  {
    forall more | Planned(cfg, at + 0, buf[0..], status, more)
      ensures Planned(cfg, at, buf, status, [] + more)
    {
      assert buf[0..] == buf && [] + more == more;
    }
  }

  lemma PlanGrows(cfg: Config, at: nat, buf: seq<Sector>, status: BlockStatus, done: nat,
      effects: seq<(nat, nat, Effect)>, k: nat, e: Effect)
    requires cfg.Valid() && done < |buf| && PlannedTo(cfg, at, buf, status, done, effects)
    requires ChunkOk(cfg, at + done, buf[done..], status, k, e)
    ensures done + k <= |buf| && PlannedTo(cfg, at, buf, status, done + k, effects + [(at + done, k, e)])
  {
    hide ChunkOk;
    assert 0 < k <= |buf[done..]| by { ChunkFits(cfg, at + done, buf[done..], status, k, e); }
    var pos, left := at + (done + k), buf[done + k..];
    forall more | Planned(cfg, pos, left, status, more)
      ensures Planned(cfg, at, buf, status, (effects + [(at + done, k, e)]) + more)
    {
      var next := [(at + done, k, e)] + more;
      assert next[1..] == more && buf[done..][k..] == buf[done + k..];
      assert Planned(cfg, at + done, buf[done..], status, next);
      assert (effects + [(at + done, k, e)]) + more == effects + next;
    }
  }

  lemma ChunkFits(cfg: Config, at: nat, rest: seq<Sector>, status: BlockStatus, k: nat, e: Effect)
    requires cfg.Valid() && |rest| > 0 && ChunkOk(cfg, at, rest, status, k, e)
    ensures 0 < k <= |rest|
  {
  }

  lemma PlanEnds(cfg: Config, at: nat, buf: seq<Sector>, status: BlockStatus, effects: seq<(nat, nat, Effect)>)
    requires cfg.Valid() && PlannedTo(cfg, at, buf, status, |buf|, effects)
    ensures Planned(cfg, at, buf, status, effects)
  {
    assert Planned(cfg, at + |buf|, buf[|buf|..], status, []);
    assert effects + [] == effects;
  }

  /** The sectors an extent must end up with. */
  function Wanted(status: BlockStatus, buf: seq<Sector>): (r: seq<Sector>)
    ensures |r| == |buf|
  {
    if status.Data? then buf else seq(|buf|, _ => ZERO)
  }

  /** convert_co_write: afterwards the extent holds buf, or zeroes for a zero extent, and no
      other sector has changed; a failed write leaves its chunk undefined.  The chunks are those
      that Planned describes. */
  method CoWrite(cfg: Config, target: Target, sectorNum: nat, buf: seq<Sector>, status: BlockStatus)
      returns (ok: bool, ghost effects: seq<(nat, nat, Effect)>)
    requires cfg.Valid() && sectorNum + |buf| <= |target.data|
    requires cfg.hasZeroInit ==> ZeroSectors(target.data, sectorNum, sectorNum + |buf|)
    modifies target
    ensures target.reliable ==> ok
    ensures |target.data| == |old(target.data)|
    ensures ok ==> target.data == Splice(old(target.data), sectorNum, Wanted(status, buf))
    ensures forall i | 0 <= i < |target.data| && !(sectorNum <= i < sectorNum + |buf|) ::
            target.data[i] == old(target.data)[i]
    ensures ok ==> Planned(cfg, sectorNum, buf, status, effects)
  {
    hide PlannedTo, ChunkOk, Planned, Splice, Apply, Wanted, ZeroSectors;
    var at := 0;
    effects := [];
    ghost var before := target.data;
    PlanStarts(cfg, sectorNum, buf, status);
    SpliceNothing(before, sectorNum, Wanted(status, buf)[..0]);
    while at < |buf|
      invariant 0 <= at <= |buf|
      invariant |target.data| == |before| && target.data == Splice(before, sectorNum, Wanted(status, buf)[..at])
      invariant PlannedTo(cfg, sectorNum, buf, status, at, effects)
    {
      var rest := buf[at..];
      var alloc, n := ChooseChunk(cfg, sectorNum + at, rest, status);
      var e := if alloc then WriteData else if cfg.hasZeroInit then Skip else WriteZeroes;
      EffectReaches(cfg, before, sectorNum, at, buf, n, e, status);
      PlanGrows(cfg, sectorNum, buf, status, at, effects, n, e);
      if !e.Skip? {
        ok := *;
        ok := ok || target.reliable;
        if !ok {
          assert |rest[..n]| == n;
          var torn: seq<Sector> :| |torn| == n;
          SpliceTwice(before, sectorNum, Wanted(status, buf)[..at], torn);
          SpliceOutside(before, sectorNum, Wanted(status, buf)[..at] + torn);
          target.data := Splice(target.data, sectorNum + at, torn);
          return;
        }
      }
      target.data := Apply(target.data, sectorNum + at, rest, n, e);
      effects := effects + [(sectorNum + at, n, e)];
      at := at + n;
    }
    PlanEnds(cfg, sectorNum, buf, status, effects);
    assert Wanted(status, buf)[..at] == Wanted(status, buf);
    SpliceOutside(before, sectorNum, Wanted(status, buf));
    ok := true;
  }

  lemma SpliceNothing(data: seq<Sector>, at: nat, w: seq<Sector>)
    requires at <= |data| && w == []
    ensures Splice(data, at, w) == data
  {
  }

  lemma SpliceOutside(data: seq<Sector>, at: nat, w: seq<Sector>)
    requires at + |w| <= |data|
    ensures forall i | 0 <= i < |data| && !(at <= i < at + |w|) :: Splice(data, at, w)[i] == data[i]
  {
  }

  lemma SpliceTwice(data: seq<Sector>, at: nat, a: seq<Sector>, b: seq<Sector>)
    requires at + |a| + |b| <= |data|
    ensures Splice(Splice(data, at, a), at + |a|, b) == Splice(data, at, a + b)
  {
  }

  /** The condition at the head of the loop: whether to write real data, and how much. */
  method ChooseChunk(cfg: Config, at: nat, rest: seq<Sector>, status: BlockStatus) returns (alloc: bool, n: nat)
    requires cfg.Valid() && |rest| > 0
    ensures EffectOk(cfg, status, rest, n, if alloc then WriteData else if cfg.hasZeroInit then Skip else WriteZeroes)
    ensures ChunkOk(cfg, at, rest, status, n,
                    if alloc then WriteData else if cfg.hasZeroInit then Skip else WriteZeroes)
  {
    hide Verdict, Extents, EndsAt;
    n := |rest|;
    if status.Zero? {
      return false, n;
    }
    if cfg.minSparse == 0 {
      return true, n;
    }
    if cfg.compressed {
      alloc := exists i | 0 <= i < |rest| :: rest[i] != ZERO;
    } else {
      alloc, n := IsAllocatedSectorsMin(rest, cfg.minSparse, at, cfg.alignment);
    }
  }

  /** One allowed effect extends the finished part of the extent by k sectors. */
  lemma EffectReaches(cfg: Config, before: seq<Sector>, sectorNum: nat, at: nat, buf: seq<Sector>,
                      k: nat, e: Effect, status: BlockStatus)
    requires sectorNum + |buf| <= |before| && at < |buf|
    requires EffectOk(cfg, status, buf[at..], k, e)
    requires cfg.hasZeroInit ==> ZeroSectors(before, sectorNum, sectorNum + |buf|)
    ensures Apply(Splice(before, sectorNum, Wanted(status, buf)[..at]), sectorNum + at, buf[at..], k, e)
         == Splice(before, sectorNum, Wanted(status, buf)[..at + k])
  {
    var w := Wanted(status, buf);
    var l := Apply(Splice(before, sectorNum, w[..at]), sectorNum + at, buf[at..], k, e);
    var r := Splice(before, sectorNum, w[..at + k]);
    forall i | 0 <= i < |before|
      ensures l[i] == r[i]
    {
      if sectorNum + at <= i < sectorNum + at + k {
        var j := i - sectorNum - at;
        assert buf[at..][..k][j] == buf[at + j];
        assert r[i] == w[at + j];
      }
    }
  }
}
