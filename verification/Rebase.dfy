/** The safe-rebase loop of img_rebase in qemu-img.c. */
module Rebase {
  import opened Options
  import opened Buffers

  /** What one layer stores: None is a byte the layer leaves to its backing file. */
  type Layer = seq<Option<byte>>

  function Visible(layer: Layer, backing: seq<byte>, i: nat): byte
    requires i < |layer|
  {
    if layer[i].Some? then layer[i].value else Z(backing, i)
  }

  /** The guest-visible content of a layer over a backing file. */
  function Content(layer: Layer, backing: seq<byte>): (c: seq<byte>)
    ensures |c| == |layer|
  {
    seq(|layer|, i requires 0 <= i < |layer| => Visible(layer, backing, i))
  }

  /** Allocation is decided for whole granules of align bytes. */
  predicate Uniform(layer: Layer, align: nat)
    requires align > 0
  {
    forall i, j | 0 <= i < |layer| && 0 <= j < |layer| && i / align == j / align :: layer[i].None? == layer[j].None?
  }

  /** Whether byte i lies in a granule that a write to [off, off + n) touches. */
  predicate Touched(align: nat, off: nat, n: nat, i: nat)
    requires align > 0 && n > 0
  {
    off / align <= i / align <= (off + n - 1) / align
  }

  /** A write allocates every granule it touches; what it does not cover there is copied up
      from the backing file. */
  function Written(layer: Layer, backing: seq<byte>, align: nat, off: nat, buf: seq<byte>): (r: Layer)
    requires align > 0 && |buf| > 0 && off + |buf| <= |layer|
    ensures |r| == |layer|
  {
    seq(|layer|, i requires 0 <= i < |layer| =>
      if off <= i < off + |buf| then Some(buf[i - off])
      else if Touched(align, off, |buf|, i) then Some(Visible(layer, backing, i))
      else layer[i])
  }

  /** Some byte of the granule of byte i reads differently through the two backing files. */
  predicate GranuleDiffers(size: nat, align: nat, oldBs: seq<byte>, newBs: seq<byte>, i: nat)
    requires align > 0
  {
    exists j | 0 <= j < size :: j / align == i / align && Z(oldBs, j) != Z(newBs, j)
  }

  /** What a safe rebase has to make of a layer: exactly the unallocated granules in which
      the backing files differ are filled with the old content. */
  function Rebased(layer: Layer, align: nat, oldBs: seq<byte>, newBs: seq<byte>): (r: Layer)
    requires align > 0
    ensures |r| == |layer|
  {
    seq(|layer|, i requires 0 <= i < |layer| =>
      if layer[i].None? && GranuleDiffers(|layer|, align, oldBs, newBs, i) then Some(Z(oldBs, i)) else layer[i])
  }

  /** The rebased layer shows over the new backing file what the layer showed over the old one. */
  lemma RebasedKeepsContent(layer: Layer, align: nat, oldBs: seq<byte>, newBs: seq<byte>)
    requires align > 0
    ensures Content(Rebased(layer, align, oldBs, newBs), newBs) == Content(layer, oldBs)
    ensures Content(Rebased(layer, align, oldBs, newBs), oldBs) == Content(layer, oldBs)
  {
  }

  /** No layer that keeps the content and only adds to the allocation allocates less: every
      granule the rebase fills, any such layer must fill somewhere. */
  lemma RebasedIsMinimal(layer: Layer, align: nat, oldBs: seq<byte>, newBs: seq<byte>, other: Layer, i: nat)
    requires align > 0 && |other| == |layer| && i < |layer| && Uniform(other, align)
    requires Content(other, newBs) == Content(layer, oldBs)
    requires Uniform(layer, align) && layer[i].None? && Rebased(layer, align, oldBs, newBs)[i].Some?
    ensures other[i].Some?
  {
    var j :| 0 <= j < |layer| && j / align == i / align && Z(oldBs, j) != Z(newBs, j);
    assert layer[j].None?;
    assert Content(other, newBs)[j] == Visible(other, newBs, j);
    assert Content(layer, oldBs)[j] == Visible(layer, oldBs, j);
    assert other[j].Some?;
  }

  // ----- granule arithmetic -----

  function AlignDown(x: nat, align: nat): (r: nat)
    requires align > 0
    ensures r <= x < r + align
  {
    x - x % align
  }

  function AlignUp(x: nat, align: nat): (r: nat)
    requires align > 0
    ensures x <= r < x + align
  {
    AlignDown(x + align - 1, align)
  }

  lemma AlignDownDivides(x: nat, align: nat)
    requires align > 0
    ensures AlignDown(x, align) % align == 0
    ensures forall i | AlignDown(x, align) <= i <= x :: i / align == x / align
  {
    var q := x / align;
    assert AlignDown(x, align) == q * align;
    forall i | AlignDown(x, align) <= i <= x
      ensures i / align == q
    {
      Remainder(q, i - q * align, i, align);
    }
    Remainder(q, 0, q * align, align);
  }

  /** The bytes between end and its rounded-up value lie in the granule of the byte before end. */
  lemma AlignUpGranule(end: nat, align: nat, i: nat)
    requires align > 0 && end > 0 && end - 1 <= i < AlignUp(end, align)
    ensures i / align == (end - 1) / align
  {
    var up := AlignUp(end, align);
    AlignDownDivides(end + align - 1, align);
    var q := up / align;
    assert up == q * align;
    Remainder(q - 1, i - (q - 1) * align, i, align);
    Remainder(q - 1, end - 1 - (q - 1) * align, end - 1, align);
  }

  lemma AlignedSum(a: nat, b: nat, align: nat)
    requires align > 0 && a % align == 0 && b % align == 0
    ensures (a + b) % align == 0
  {
    var q := a / align + b / align;
    assert a + b == q * align;
    Remainder(q, 0, a + b, align);
  }

  /** Bytes of one chunk of a granule-aligned region lie in one granule. */
  lemma ChunkInGranule(base: nat, c: nat, align: nat, i: nat)
    requires align > 0 && base % align == 0 && c % align == 0 && c <= i < c + align
    ensures (base + i) / align == (base + c) / align
  {
    AlignedSum(base, c, align);
    var q := (base + c) / align;
    assert base + c == q * align;
    Remainder(q, i - c, base + i, align);
  }

  /** A write that starts and ends on granule boundaries, or ends with the layer, touches
      nothing outside itself. */
  lemma AlignedTouch(align: nat, off: nat, n: nat, size: nat, i: nat)
    requires align > 0 && n > 0 && off % align == 0 && i < size
    requires (off + n) % align == 0 || off + n == size
    requires Touched(align, off, n, i)
    ensures off <= i < off + n
  {
    DivLower(off / align, i, align);
    DivUpper((off + n - 1) / align, i, align);
    if (off + n) % align == 0 {
      var e := (off + n) / align;
      Remainder(e - 1, align - 1, off + n - 1, align);
    }
  }

  lemma DivLower(q: nat, i: nat, align: nat)
    requires align > 0 && i / align >= q
    ensures i >= q * align
  {
  }

  lemma DivUpper(q: nat, i: nat, align: nat)
    requires align > 0 && i / align <= q
    ensures i < (q + 1) * align
  {
  }

  // ----- the overlay and its operations -----

  /** One point in time at which the process may stop: what is on disk then. */
  datatype View = View(layer: Layer, backing: seq<byte>)

  /** A backing file, opened by itself: what it holds, and whether all requests to it succeed. */
  datatype File = File(data: seq<byte>, reliable: bool)

  /** The overlay; reliable says whether all requests to it succeed. */
  class Overlay {
    const align: nat
    const reliable: bool
    var layer: Layer
    var backing: seq<byte>
    ghost var history: seq<View>

    ghost predicate Valid()
      reads this
    {
      align > 0 && Uniform(layer, align)
    }

    constructor (align: nat, reliable: bool, layer: Layer, backing: seq<byte>)
      requires align > 0 && Uniform(layer, align)
      ensures Valid() && this.align == align && this.reliable == reliable
      ensures this.layer == layer && this.backing == backing && history == []
    {
      this.align, this.reliable, this.layer, this.backing, this.history := align, reliable, layer, backing, [];
    }

    /** bdrv_is_allocated: some prefix of the range with the allocation of its first byte. */
    method IsAllocated(offset: nat, bytes: nat) returns (ok: bool, alloc: bool, n: nat)
      requires bytes > 0 && offset + bytes <= |layer|
      ensures reliable ==> ok
      ensures ok ==> 0 < n <= bytes && forall i | offset <= i < offset + n :: layer[i].Some? == alloc
    {
      ok := *;
      ok := ok || reliable;
      alloc := layer[offset].Some?;
      assert forall i | offset <= i < offset + 1 :: layer[i].Some? == alloc;
      n :| 0 < n <= bytes && forall i | offset <= i < offset + n :: layer[i].Some? == alloc;
    }

    /** blk_pwrite and blk_pwrite_zeroes.  A write that fails may have been done in part. */
    method Write(off: nat, buf: seq<byte>) returns (ok: bool)
      requires align > 0 && |buf| > 0 && off + |buf| <= |layer|
      modifies this
      ensures reliable ==> ok
      ensures backing == old(backing) && |layer| == |old(layer)|
      ensures ok ==> layer == Written(old(layer), backing, align, off, buf)
      ensures forall i | 0 <= i < |layer| ::
                layer[i] == old(layer)[i] || layer[i] == Written(old(layer), backing, align, off, buf)[i]
      ensures history == old(history) + [View(layer, backing)]
    {
      var done := Written(layer, backing, align, off, buf);
      ok := *;
      ok := ok || reliable;
      if ok {
        layer := done;
      } else {
        var torn: Layer :| |torn| == |layer| &&
            forall i | 0 <= i < |layer| :: torn[i] == layer[i] || torn[i] == done[i];
        layer := torn;
      }
      history := history + [View(layer, backing)];
    }

    /** bdrv_change_backing_file */
    method ChangeBacking(newBacking: seq<byte>) returns (ok: bool)
      modifies this
      ensures reliable ==> ok
      ensures layer == old(layer)
      ensures backing == if ok then newBacking else old(backing)
      ensures history == old(history) + [View(layer, backing)]
    {
      ok := *;
      ok := ok || reliable;
      if ok {
        backing := newBacking;
      }
      history := history + [View(layer, backing)];
    }
  }

  predicate SameRange(a: seq<byte>, b: seq<byte>, offset: nat, n: nat) {
    forall i | offset <= i < offset + n :: Z(a, i) == Z(b, i)
  }

  /** bdrv_is_allocated_above between the old backing file and a new one further down its
      own chain: an unallocated prefix reads alike, and the prefix is empty only at the end
      of the old backing file. */
  method IsAllocatedAbove(oldFile: File, newBs: seq<byte>, offset: nat, bytes: nat)
      returns (ok: bool, above: bool, n: nat)
    requires bytes > 0
    ensures oldFile.reliable ==> ok
    ensures ok ==> n <= bytes && (n == 0 ==> !above && offset >= |oldFile.data|)
    ensures ok && !above ==> SameRange(oldFile.data, newBs, offset, n)
  {
    var oldBs := oldFile.data;
    ok, above := *, *;
    ok := ok || oldFile.reliable;
    if above || Z(oldBs, offset) != Z(newBs, offset) {
      above := true;
      n :| 0 < n <= bytes;
    } else {
      assert SameRange(oldBs, newBs, offset, 1);
      n :| 0 <= n <= bytes && SameRange(oldBs, newBs, offset, n) && (n == 0 ==> offset >= |oldBs|);
    }
  }

  /** A read that may fail, with zeroes past the end of the file.  Where there is nothing to
      read nothing can fail. */
  method ReadZeroExtended(file: File, offset: nat, n: nat) returns (ok: bool, buf: seq<byte>, eof: bool)
    ensures file.reliable || eof ==> ok
    ensures ok ==> |buf| == n && forall i | 0 <= i < n :: buf[i] == Z(file.data, offset + i)
    ensures eof <==> n == 0 || offset >= |file.data|
  {
    var backing := file.data;
    var avail := Min(n, if |backing| >= offset then |backing| - offset else 0);
    var zeroes: seq<byte> := seq(n - avail, _ => 0);
    eof := avail == 0;
    if eof {
      return true, zeroes, eof;
    }
    ok := *;
    ok := ok || file.reliable;
    buf := backing[offset..offset + avail] + zeroes;
  }

  // ----- what the loop keeps -----

  /** Every byte is as it was, or filled the way the rebase has to fill it. */
  ghost predicate Progress(cur: Layer, start: Layer, align: nat, oldBs: seq<byte>, newBs: seq<byte>)
    requires align > 0
  {
    && |cur| == |start| && Uniform(cur, align)
    && forall i | 0 <= i < |cur| ::
         cur[i] == start[i] || (cur[i] == Rebased(start, align, oldBs, newBs)[i] && cur[i] == Some(Z(oldBs, i)))
  }

  /** Below hi, what the layer still leaves to its backing file reads alike in both. */
  predicate Settled(cur: Layer, oldBs: seq<byte>, newBs: seq<byte>, hi: nat)
    requires hi <= |cur|
  {
    forall i | 0 <= i < hi :: cur[i].None? ==> Z(oldBs, i) == Z(newBs, i)
  }

  lemma ProgressKeepsContent(cur: Layer, start: Layer, align: nat, oldBs: seq<byte>, newBs: seq<byte>)
    requires align > 0 && Progress(cur, start, align, oldBs, newBs)
    ensures Content(cur, oldBs) == Content(start, oldBs)
  {
  }

  lemma SettledIsRebased(cur: Layer, start: Layer, align: nat, oldBs: seq<byte>, newBs: seq<byte>)
    requires align > 0 && Progress(cur, start, align, oldBs, newBs) && Settled(cur, oldBs, newBs, |cur|)
    ensures cur == Rebased(start, align, oldBs, newBs)
  {
  }

  /** Filling whole differing granules with the old content is progress. */
  lemma FillIsProgress(cur: Layer, start: Layer, align: nat, oldBs: seq<byte>, newBs: seq<byte>, base: nat,
      buf: seq<byte>)
    requires align > 0 && Progress(cur, start, align, oldBs, newBs)
    requires |buf| > 0 && base + |buf| <= |cur| && base % align == 0
    requires (base + |buf|) % align == 0 || base + |buf| == |cur|
    requires forall i | base <= i < base + |buf| :: cur[i].None? && GranuleDiffers(|cur|, align, oldBs, newBs, i)
    requires forall i | 0 <= i < |buf| :: buf[i] == Z(oldBs, base + i)
    ensures var w := Written(cur, oldBs, align, base, buf);
            && Progress(w, start, align, oldBs, newBs)
            && (forall i | 0 <= i < |cur| && !(base <= i < base + |buf|) :: w[i] == cur[i])
            && (forall i | base <= i < base + |buf| :: w[i].Some?)
  {
    var w := Written(cur, oldBs, align, base, buf);
    forall i | 0 <= i < |cur|
      ensures Touched(align, base, |buf|, i) <==> base <= i < base + |buf|
    {
      if Touched(align, base, |buf|, i) {
        AlignedTouch(align, base, |buf|, |cur|, i);
      }
      if base <= i < base + |buf| {
        DivMonotone(base, i, align);
        DivMonotone(i, base + |buf| - 1, align);
      }
    }
    forall i, j | 0 <= i < |w| && 0 <= j < |w| && i / align == j / align
      ensures w[i].None? == w[j].None?
    {
      assert Touched(align, base, |buf|, i) == Touched(align, base, |buf|, j);
    }
    forall i | 0 <= i < |w|
      ensures w[i] == start[i] || (w[i] == Rebased(start, align, oldBs, newBs)[i] && w[i] == Some(Z(oldBs, i)))
    {
      if base <= i < base + |buf| {
        assert start[i].None?;
      }
    }
  }

  lemma DivMonotone(x: nat, y: nat, align: nat)
    requires align > 0 && x <= y
    ensures x / align <= y / align
  {
    var q := x / align;
    assert q * align <= y;
    NotBelow(q, y, align);
  }

  lemma NotBelow(q: nat, y: nat, align: nat)
    requires align > 0 && q * align <= y
    ensures q <= y / align
  {
    var d := y / align;
    assert y < (d + 1) * align;
    assert q * align < (d + 1) * align;
    MulLess(q, d + 1, align);
  }

  lemma MulLess(a: int, b: int, m: nat)
    requires a * m < b * m
    ensures a < b
  {
  }

  /** A chunk of the buffers that differs makes the granule it is in differ. */
  lemma ChunkDiffersGranule(a: seq<byte>, b: seq<byte>, align: nat, oldBs: seq<byte>, newBs: seq<byte>, base: nat,
      size: nat, i: nat)
    requires align > 0 && |a| == |b| && base + |a| <= size && base % align == 0 && i < |a|
    requires forall k | 0 <= k < |a| :: a[k] == Z(oldBs, base + k) && b[k] == Z(newBs, base + k)
    requires Differs(a, b, align, AlignDown(i, align))
    ensures GranuleDiffers(size, align, oldBs, newBs, base + i)
  {
    var c := AlignDown(i, align);
    AlignDownDivides(i, align);
    var ca, cb := Chunk(a, align, c), Chunk(b, align, c);
    assert |ca| == |cb|;
    assert exists k | 0 <= k < |ca| :: ca[k] != cb[k];
    var k :| 0 <= k < |ca| && ca[k] != cb[k];
    assert ca[k] == a[c + k] && cb[k] == b[c + k];
    ChunkInGranule(base, c, align, i);
    ChunkInGranule(base, c, align, c + k);
    assert Z(oldBs, base + (c + k)) != Z(newBs, base + (c + k));
  }

  /** A write of progress, done or torn, shows the same content. */
  lemma TornKeepsContent(cur: Layer, w: Layer, torn: Layer, start: Layer, align: nat, oldBs: seq<byte>,
      newBs: seq<byte>)
    requires align > 0 && Progress(cur, start, align, oldBs, newBs) && Progress(w, start, align, oldBs, newBs)
    requires |torn| == |cur| && forall i | 0 <= i < |cur| :: torn[i] == cur[i] || torn[i] == w[i]
    ensures Content(torn, oldBs) == Content(start, oldBs)
  {
  }

  /** What compare_buffers reports as differing is a fill of whole differing granules. */
  lemma ChunkIsFill(cur: Layer, start: Layer, align: nat, oldBs: seq<byte>, newBs: seq<byte>, base: nat,
                    a: seq<byte>, b: seq<byte>, pnum: nat, buf: seq<byte>)
    requires align > 0 && Progress(cur, start, align, oldBs, newBs) && base % align == 0
    requires |a| == |b| && 0 < pnum <= |a| && base + |a| <= |cur|
    requires (base + |a|) % align == 0 || base + |a| == |cur|
    requires pnum == |a| || pnum % align == 0
    requires forall k | 0 <= k < |a| :: a[k] == Z(oldBs, base + k) && b[k] == Z(newBs, base + k)
    requires forall i | 0 <= i < pnum && i % align == 0 :: Differs(a, b, align, i)
    requires forall i | base <= i < base + |a| :: cur[i].None?
    requires |buf| == pnum && forall i | 0 <= i < pnum :: buf[i] == a[i]
    ensures var w := Written(cur, oldBs, align, base, buf);
            && Progress(w, start, align, oldBs, newBs)
            && (forall i | 0 <= i < |cur| && !(base <= i < base + pnum) :: w[i] == cur[i])
            && (forall i | base <= i < base + pnum :: w[i].Some?)
  {
    forall i | base <= i < base + pnum
      ensures GranuleDiffers(|cur|, align, oldBs, newBs, i)
    {
      AlignDownDivides(i - base, align);
      ChunkDiffersGranule(a, b, align, oldBs, newBs, base, |cur|, i - base);
    }
    if pnum < |a| {
      AlignedSum(base, pnum, align);
    }
    FillIsProgress(cur, start, align, oldBs, newBs, base, buf);
  }

  /** Rounding an unallocated region out to granule boundaries keeps it unallocated. */
  lemma RoundedOut(cur: Layer, align: nat, offset: nat, n: nat, lo: nat, hi: nat)
    requires align > 0 && Uniform(cur, align) && n > 0 && offset + n <= |cur|
    requires forall i | offset <= i < offset + n :: cur[i].None?
    requires lo == AlignDown(offset, align) && hi == Min(AlignUp(offset + n, align), |cur|)
    ensures forall i | lo <= i < hi :: cur[i].None?
    ensures lo % align == 0 && (hi % align == 0 || hi == |cur|)
  {
    AlignDownDivides(offset, align);
    AlignDownDivides(offset + n + align - 1, align);
    forall i | lo <= i < hi
      ensures cur[i].None?
    {
      if i < offset {
        SameGranule(cur, align, i, offset);
      } else if i >= offset + n {
        AlignUpGranule(offset + n, align, i);
        SameGranule(cur, align, i, offset + n - 1);
      }
    }
  }

  lemma SameGranule(cur: Layer, align: nat, i: nat, j: nat)
    requires align > 0 && Uniform(cur, align) && i < |cur| && j < |cur| && i / align == j / align
    ensures cur[i].None? == cur[j].None?
  {
  }

  // ----- the loops -----

  /** The history grew, and every view added shows the given content. */
  ghost predicate Kept(before: seq<View>, after: seq<View>, content: seq<byte>) {
    && |before| <= |after| && after[..|before|] == before
    && forall k | |before| <= k < |after| :: Content(after[k].layer, after[k].backing) == content
  }

  lemma KeptTransitive(a: seq<View>, b: seq<View>, c: seq<View>, content: seq<byte>)
    requires Kept(a, b, content) && Kept(b, c, content)
    ensures Kept(a, c, content)
  {
  }

  /** One turn of the inner loop at the granule boundary base. */
  method CopyChunk(ov: Overlay, newBs: seq<byte>, base: nat, a: seq<byte>, b: seq<byte>, atEof: bool,
      ghost start: Layer)
      returns (ok: bool, pnum: nat)
    requires ov.Valid() && |a| == |b| > 0 && base + |a| <= |ov.layer| && base % ov.align == 0
    requires (base + |a|) % ov.align == 0 || base + |a| == |ov.layer|
    requires forall i | 0 <= i < |a| :: a[i] == Z(ov.backing, base + i) && b[i] == Z(newBs, base + i)
    requires atEof ==> base >= |ov.backing|
    requires forall i | base <= i < base + |a| :: ov.layer[i].None?
    requires Progress(ov.layer, start, ov.align, ov.backing, newBs) && Settled(ov.layer, ov.backing, newBs, base)
    modifies ov
    ensures ov.backing == old(ov.backing) && |ov.layer| == |old(ov.layer)|
    ensures Kept(old(ov.history), ov.history, Content(start, ov.backing))
    ensures Content(ov.layer, ov.backing) == Content(start, ov.backing)
    ensures ov.reliable ==> ok
    ensures ok ==> 0 < pnum <= |a| && (pnum == |a| || pnum % ov.align == 0)
    ensures ok ==> Progress(ov.layer, start, ov.align, ov.backing, newBs)
    ensures ok ==> Settled(ov.layer, ov.backing, newBs, base + pnum)
    ensures ok ==> forall i | base + pnum <= i < |ov.layer| :: ov.layer[i] == old(ov.layer)[i]
  {
    var oldBs, align := ov.backing, ov.align;
    ghost var before := ov.layer;
    var differs;
    differs, pnum := CompareBuffers(a, b, align);
    assert ChunkSize(align) == align;
    ok := true;
    if differs {
      var buf: seq<byte> := if atEof then seq(pnum, _ => 0) else a[..pnum];
      ChunkIsFill(before, start, align, oldBs, newBs, base, a, b, pnum, buf);
      ok := ov.Write(base, buf);
      TornKeepsContent(before, Written(before, oldBs, align, base, buf), ov.layer, start, align, oldBs, newBs);
    } else {
      ProgressKeepsContent(before, start, align, oldBs, newBs);
      forall i | base <= i < base + pnum
        ensures Z(oldBs, i) == Z(newBs, i)
      {
        assert a[..pnum][i - base] == b[..pnum][i - base];
      }
    }
  }

  /** The inner loop: over an aligned, unallocated region, write the chunks in which the
      backing files differ. */
  method CopyDiffering(ov: Overlay, newBs: seq<byte>, offset: nat, bufOld: seq<byte>, bufNew: seq<byte>, eof: bool,
      ghost start: Layer)
      returns (ok: bool)
    requires ov.Valid() && |bufOld| == |bufNew| > 0 && offset + |bufOld| <= |ov.layer| && offset % ov.align == 0
    requires (offset + |bufOld|) % ov.align == 0 || offset + |bufOld| == |ov.layer|
    requires forall i | 0 <= i < |bufOld| :: bufOld[i] == Z(ov.backing, offset + i) && bufNew[i] == Z(newBs, offset + i)
    requires eof ==> offset >= |ov.backing|
    requires forall i | offset <= i < offset + |bufOld| :: ov.layer[i].None?
    requires Progress(ov.layer, start, ov.align, ov.backing, newBs) && Settled(ov.layer, ov.backing, newBs, offset)
    modifies ov
    ensures ov.backing == old(ov.backing) && |ov.layer| == |old(ov.layer)|
    ensures Kept(old(ov.history), ov.history, Content(start, ov.backing))
    ensures Content(ov.layer, ov.backing) == Content(start, ov.backing)
    ensures ov.reliable ==> ok
    ensures ok ==> Progress(ov.layer, start, ov.align, ov.backing, newBs)
    ensures ok ==> Settled(ov.layer, ov.backing, newBs, offset + |bufOld|)
  {
    var oldBs, align, n := ov.backing, ov.align, |bufOld|;
    var written, atEof := 0, eof;
    ProgressKeepsContent(ov.layer, start, align, oldBs, newBs);
    while written < n
      invariant ov.backing == oldBs && |ov.layer| == |old(ov.layer)|
      invariant 0 <= written <= n && (written == n || written % align == 0)
      invariant atEof ==> offset + written >= |oldBs|
      invariant forall i | offset + written <= i < offset + n :: ov.layer[i].None?
      invariant Progress(ov.layer, start, align, oldBs, newBs)
      invariant Settled(ov.layer, oldBs, newBs, offset + written)
      invariant Kept(old(ov.history), ov.history, Content(start, oldBs))
      invariant Content(ov.layer, oldBs) == Content(start, oldBs)
    {
      AlignedSum(offset, written, align);
      ghost var h := ov.history;
      var a, b := bufOld[written..], bufNew[written..];
      assert offset + written + |a| == offset + n;
      assert forall i | 0 <= i < |a| :: a[i] == bufOld[written + i] && b[i] == bufNew[written + i];
      var pnum;
      ok, pnum := CopyChunk(ov, newBs, offset + written, a, b, atEof, start);
      KeptTransitive(old(ov.history), h, ov.history, Content(start, oldBs));
      if !ok {
        return;
      }
      if written + pnum < n {
        AlignedSum(written, pnum, align);
      }
      written := written + pnum;
      if offset + written >= |oldBs| {
        atEof := true;
      }
    }
    ok := true;
  }

  /** One turn of the outer loop, from offset to next. */
  method RebaseStep(ov: Overlay, oldFile: File, newFile: File, inChain: bool, offset: nat, ghost start: Layer)
      returns (ok: bool, next: nat)
    requires ov.Valid() && ov.backing == oldFile.data && offset < |ov.layer|
    requires Progress(ov.layer, start, ov.align, ov.backing, newFile.data)
    requires Settled(ov.layer, ov.backing, newFile.data, offset)
    modifies ov
    ensures ov.backing == old(ov.backing) && |ov.layer| == |old(ov.layer)|
    ensures Kept(old(ov.history), ov.history, Content(start, ov.backing))
    ensures Content(ov.layer, ov.backing) == Content(start, ov.backing)
    ensures ov.reliable && oldFile.reliable && newFile.reliable ==> ok
    ensures ok ==> offset < next <= |ov.layer|
    ensures ok ==> Progress(ov.layer, start, ov.align, ov.backing, newFile.data)
    ensures ok ==> Settled(ov.layer, ov.backing, newFile.data, next)
  {
    hide Progress, Content, AlignDown, AlignUp;
    var oldBs, newBs, align, size := oldFile.data, newFile.data, ov.align, |ov.layer|;
    ProgressKeepsContent(ov.layer, start, align, oldBs, newBs);
    next := offset;
    var n := Min(IO_BUF_SIZE, size - offset);
    var alloc;
    ok, alloc, n := ov.IsAllocated(offset, n);
    if !ok {
      return;
    }
    if alloc {
      return true, offset + n;
    }
    if inChain {
      var above, m;
      ok, above, m := IsAllocatedAbove(oldFile, newBs, offset, n);
      if !ok {
        return;
      }
      if !above && m > 0 {
        return true, offset + m;
      }
      n := if m == 0 then n else m;
    }
    var lo := AlignDown(offset, align);
    var hi := Min(AlignUp(offset + n, align), size);
    RoundedOut(ov.layer, align, offset, n, lo, hi);
    var bufOld, bufNew, eof, newEof;
    ok, bufOld, eof := ReadZeroExtended(oldFile, lo, hi - lo);
    if !ok {
      return;
    }
    ok, bufNew, newEof := ReadZeroExtended(newFile, lo, hi - lo);
    if !ok {
      return;
    }
    ok := CopyDiffering(ov, newBs, lo, bufOld, bufNew, eof, start);
    next := hi;
  }

  /** img_rebase without compression.  With a new backing file from the overlay's own chain
      (inChain) unchanged ranges are skipped.  If no request fails the rebase succeeds, whatever
      the lengths of the files.  Success leaves the layer rebased over the new backing file; at
      every point in time, success or not, the visible content is the original one. */
  method Rebase(ov: Overlay, oldFile: File, newFile: File, inChain: bool) returns (ok: bool)
    requires ov.Valid() && ov.backing == oldFile.data
    modifies ov
    ensures ov.reliable && oldFile.reliable && newFile.reliable ==> ok
    ensures ok ==> ov.backing == newFile.data
    ensures ok ==> ov.layer == Rebased(old(ov.layer), ov.align, old(ov.backing), newFile.data)
    ensures !ok ==> ov.backing == old(ov.backing)
    ensures Kept(old(ov.history), ov.history, old(Content(ov.layer, ov.backing)))
    ensures Content(ov.layer, ov.backing) == old(Content(ov.layer, ov.backing))
  {
    ghost var start := ov.layer;
    var oldBs, newBs, align, size := oldFile.data, newFile.data, ov.align, |ov.layer|;
    var offset := 0;
    while offset < size
      invariant ov.backing == oldBs && |ov.layer| == size && 0 <= offset <= size
      invariant Progress(ov.layer, start, align, oldBs, newBs) && Settled(ov.layer, oldBs, newBs, offset)
      invariant Kept(old(ov.history), ov.history, Content(start, oldBs))
    {
      ghost var h := ov.history;
      ok, offset := RebaseStep(ov, oldFile, newFile, inChain, offset, start);
      KeptTransitive(old(ov.history), h, ov.history, Content(start, oldBs));
      if !ok {
        return;
      }
    }
    SettledIsRebased(ov.layer, start, align, oldBs, newBs);
    RebasedKeepsContent(start, align, oldBs, newBs);
    ghost var h := ov.history;
    ok := ov.ChangeBacking(newBs);
    KeptTransitive(old(ov.history), h, ov.history, Content(start, oldBs));
  }
}
