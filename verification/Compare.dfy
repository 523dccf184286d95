/** The compare loops of img_compare in qemu-img.c. */
module Compare {
  import opened Buffers

  /** The flags bdrv_block_status_above reports: zero, allocated, and all others together. */
  datatype Status = Status(zero: bool, alloc: bool, others: nat)

  /** An opened image: what it reads as, what bdrv_block_status_above reports of the rest of it
      from every offset (the flags, and for how many bytes they hold), and whether all I/O on it
      succeeds. */
  datatype Image = Image(content: seq<byte>, extents: nat -> (Status, nat), reliable: bool) {
    function Flags(offset: nat): Status {
      extents(offset).0
    }

    function Length(offset: nat): nat {
      extents(offset).1
    }

    /** The promise of bdrv_block_status_above with no base: it reports of a non-empty part of
        what it was asked for; what it says is zero, or allocated in no layer, reads as zero. */
    predicate Honest() {
      forall o: nat | o < |content| ::
        && 0 < Length(o) <= |content| - o
        && (Flags(o).zero || !Flags(o).alloc ==> ZeroRange(content, o, Length(o)))
    }

    /** What is reported of an extent is reported from every offset in it. */
    predicate Uniform() {
      forall o: nat, i: nat | o < |content| && o <= i < o + Length(o) :: Flags(i) == Flags(o)
    }
  }

  /** Two images agree when they read alike at every offset, the shorter one zero-extended. */
  ghost predicate Agree(a: seq<byte>, b: seq<byte>) {
    forall i: nat :: Z(a, i) == Z(b, i)
  }

  predicate ZeroRange(content: seq<byte>, offset: nat, n: nat) {
    forall i | offset <= i < offset + n :: Z(content, i) == 0
  }

  /** bdrv_block_status_above */
  method BlockStatus(img: Image, offset: nat, bytes: nat) returns (ok: bool, status: Status, pnum: nat)
    requires img.Honest() && offset < |img.content| == offset + bytes
    ensures img.reliable ==> ok
    ensures status == img.Flags(offset) && pnum == img.Length(offset)
    ensures 0 < pnum <= bytes && (status.zero || !status.alloc ==> ZeroRange(img.content, offset, pnum))
  {
    ok := *;
    ok := ok || img.reliable;
    status, pnum := img.Flags(offset), img.Length(offset);
  }

  /** blk_pread */
  method Read(img: Image, offset: nat, bytes: nat) returns (ok: bool, buf: seq<byte>)
    requires offset + bytes <= |img.content|
    ensures img.reliable ==> ok
    ensures ok ==> buf == img.content[offset..offset + bytes]
  {
    ok := *;
    ok := ok || img.reliable;
    buf := img.content[offset..offset + bytes];
  }

  /** check_empty_sectors: 0 if the range is all zero, 1 if not, 4 if it could not be read. */
  method CheckEmptySectors(img: Image, offset: nat, bytes: nat) returns (ret: nat)
    requires offset + bytes <= |img.content|
    ensures ret == 0 ==> ZeroRange(img.content, offset, bytes)
    ensures ret == 1 ==> !ZeroRange(img.content, offset, bytes)
    ensures ret == 0 || ret == 1 || (ret == 4 && !img.reliable)
  {
    var ok, buf := Read(img, offset, bytes);
    if !ok {
      return 4;
    }
    var idx := FindNonzero(buf);
    if idx >= 0 {
      var j :| 0 <= j < |buf| && buf[j] != 0;
      assert Z(img.content, offset + j) != 0;
      return 1;
    }
    assert forall i | offset <= i < offset + bytes :: Z(img.content, i) == buf[i - offset];
    return 0;
  }

  predicate AgreeBelow(a: seq<byte>, b: seq<byte>, hi: nat) {
    forall i | 0 <= i < hi :: Z(a, i) == Z(b, i)
  }

  /** How far one turn of the first loop goes. */
  function Step(img1: Image, img2: Image, offset: nat): nat {
    var chunk := Min(img1.Length(offset), img2.Length(offset));
    var f1, f2 := img1.Flags(offset), img2.Flags(offset);
    if (f1.zero && f2.zero) || (!f1.alloc && !f2.alloc) then chunk else Min(chunk, IO_BUF_SIZE)
  }

  lemma StepAdvances(img1: Image, img2: Image, offset: nat)
    requires img1.Honest() && img2.Honest() && offset < |img1.content| && offset < |img2.content|
    ensures 0 < Step(img1, img2, offset) <= img1.Length(offset) && Step(img1, img2, offset) <= img2.Length(offset)
    ensures offset + Step(img1, img2, offset) <= |img1.content|
    ensures offset + Step(img1, img2, offset) <= |img2.content|
  {
    assert 0 < img1.Length(offset) <= |img1.content| - offset;
    assert 0 < img2.Length(offset) <= |img2.content| - offset;
  }

  /** The statuses are equal at every offset at which they are compared, from offset on. */
  ghost predicate StatusesMatch(img1: Image, img2: Image, offset: nat)
    requires img1.Honest() && img2.Honest()
    decreases |img1.content| - offset
  {
    if offset < |img1.content| && offset < |img2.content| then
      StepAdvances(img1, img2, offset);
      img1.Flags(offset) == img2.Flags(offset) && StatusesMatch(img1, img2, offset + Step(img1, img2, offset))
    else
      true
  }

  /** The statuses are equal everywhere, as far as both images go. */
  predicate SameFlags(img1: Image, img2: Image, offset: nat) {
    forall i | offset <= i < Min(|img1.content|, |img2.content|) :: img1.Flags(i) == img2.Flags(i)
  }

  /** Looking only where the loop looks misses no difference. */
  lemma {:induction false} MatchIsSameFlags(img1: Image, img2: Image, offset: nat)
    requires img1.Honest() && img2.Honest() && img1.Uniform() && img2.Uniform()
    ensures StatusesMatch(img1, img2, offset) <==> SameFlags(img1, img2, offset)
    decreases |img1.content| - offset
  {
    if offset < |img1.content| && offset < |img2.content| {
      StepAdvances(img1, img2, offset);
      var next := offset + Step(img1, img2, offset);
      MatchIsSameFlags(img1, img2, next);
      assert forall i | offset <= i < next ::
          img1.Flags(i) == img1.Flags(offset) && img2.Flags(i) == img2.Flags(offset);
    }
  }

  /** One turn of the first loop: compares a prefix of what follows offset. */
  method CompareChunk(img1: Image, img2: Image, offset: nat, strict: bool) returns (ret: nat, chunk: nat)
    requires img1.Honest() && img2.Honest() && offset < |img1.content| && offset < |img2.content|
    requires AgreeBelow(img1.content, img2.content, offset)
    ensures ret == 0 ==> 0 < chunk && offset + chunk <= |img1.content| && offset + chunk <= |img2.content|
    ensures ret == 0 ==> AgreeBelow(img1.content, img2.content, offset + chunk)
    ensures ret == 0 ==> chunk == Step(img1, img2, offset)
    ensures ret == 0 && strict ==> img1.Flags(offset) == img2.Flags(offset)
    ensures ret == 1 ==> || !Agree(img1.content, img2.content)
                         || (strict && img1.Flags(offset) != img2.Flags(offset))
    ensures ret == 0 || ret == 1 || ((ret == 3 || ret == 4) && !(img1.reliable && img2.reliable))
  {
    chunk := 0;
    var c1, c2 := img1.content, img2.content;
    var ok1, status1, pnum1 := BlockStatus(img1, offset, |c1| - offset);
    if !ok1 {
      return 3, 0;
    }
    var ok2, status2, pnum2 := BlockStatus(img2, offset, |c2| - offset);
    if !ok2 {
      return 3, 0;
    }
    chunk := Min(pnum1, pnum2);
    if strict && status1 != status2 {
      return 1, chunk;
    }
    ret := 0;
    if status1.zero && status2.zero {
    } else if status1.alloc == status2.alloc {
      if status1.alloc {
        chunk := Min(chunk, IO_BUF_SIZE);
        var buf1, buf2;
        ok1, buf1 := Read(img1, offset, chunk);
        if !ok1 {
          return 4, chunk;
        }
        ok2, buf2 := Read(img2, offset, chunk);
        if !ok2 {
          return 4, chunk;
        }
        var differs, pnum := CompareBuffers(buf1, buf2, 0);
        assert ChunkSize(0) == SECTOR_SIZE;
        if differs || pnum != chunk {
          var k := DifferenceIn(buf1, buf2, differs, pnum);
          assert Z(c1, offset + k) != Z(c2, offset + k);
          return 1, chunk;
        }
        assert forall i | offset <= i < offset + chunk ::
            Z(c1, i) == buf1[..pnum][i - offset] && Z(c2, i) == buf2[..pnum][i - offset];
      }
    } else {
      chunk := Min(chunk, IO_BUF_SIZE);
      if status1.alloc {
        ret := CheckEmptySectors(img1, offset, chunk);
      } else {
        ret := CheckEmptySectors(img2, offset, chunk);
      }
      if ret == 1 {
        var i :| offset <= i < offset + chunk && Z(if status1.alloc then c1 else c2, i) != 0;
        assert Z(c1, i) != Z(c2, i);
      }
    }
  }

  /** Where compare_buffers found the buffers to differ. */
  lemma DifferenceIn(a: seq<byte>, b: seq<byte>, differs: bool, pnum: nat) returns (k: nat)
    requires |a| == |b| > 0 && 0 < pnum <= |a| && (differs || pnum != |a|)
    requires forall i | 0 <= i < pnum && i % SECTOR_SIZE == 0 :: Differs(a, b, SECTOR_SIZE, i) == differs
    requires pnum < |a| ==> Differs(a, b, SECTOR_SIZE, pnum) != differs
    ensures k < |a| && a[k] != b[k]
  {
    var c := if differs then 0 else pnum;
    assert Differs(a, b, SECTOR_SIZE, c);
    var ca, cb := Chunk(a, SECTOR_SIZE, c), Chunk(b, SECTOR_SIZE, c);
    assert |ca| == |cb|;
    var j :| 0 <= j < |ca| && ca[j] != cb[j];
    k := c + j;
  }

  /** The second loop: what the longer image has past the end of the shorter one. */
  method CompareTail(over: Image, start: nat) returns (ret: nat)
    requires over.Honest() && start <= |over.content|
    ensures ret == 0 ==> ZeroRange(over.content, start, |over.content| - start)
    ensures ret == 1 ==> !ZeroRange(over.content, start, |over.content| - start)
    ensures ret == 0 || ret == 1 || ((ret == 3 || ret == 4) && !over.reliable)
  {
    var offset, size := start, |over.content|;
    while offset < size
      invariant start <= offset <= size
      invariant ZeroRange(over.content, start, offset - start)
    {
      var ok, status, chunk := BlockStatus(over, offset, size - offset);
      if !ok {
        return 3;
      }
      if status.alloc && !status.zero {
        chunk := Min(chunk, IO_BUF_SIZE);
        ret := CheckEmptySectors(over, offset, chunk);
        if ret != 0 {
          return;
        }
      }
      offset := offset + chunk;
    }
    ret := 0;
  }

  /** What img_compare calls identical: the images agree, the shorter one zero-extended; in
      strict mode they have one size and one content, and the statuses match. */
  ghost predicate Identical(img1: Image, img2: Image, strict: bool)
    requires img1.Honest() && img2.Honest()
  {
    if strict then img1.content == img2.content && StatusesMatch(img1, img2, 0)
    else Agree(img1.content, img2.content)
  }

  /** img_compare is exact: 0 when the images are identical, 1 when they are not, and 3 or 4
      only after a failed request. */
  method Compare(img1: Image, img2: Image, strict: bool) returns (ret: nat)
    requires img1.Honest() && img2.Honest()
    ensures ret == 0 ==> Identical(img1, img2, strict)
    ensures ret == 1 ==> !Identical(img1, img2, strict)
    ensures ret == 0 || ret == 1 || ((ret == 3 || ret == 4) && !(img1.reliable && img2.reliable))
  {
    var c1, c2 := img1.content, img2.content;
    if strict && |c1| != |c2| {
      return 1;
    }
    var offset, size := 0, Min(|c1|, |c2|);
    while offset < size
      invariant 0 <= offset <= size && AgreeBelow(c1, c2, offset)
      invariant strict ==> StatusesMatch(img1, img2, 0) == StatusesMatch(img1, img2, offset)
    {
      var chunk;
      ret, chunk := CompareChunk(img1, img2, offset, strict);
      if ret != 0 {
        return;
      }
      offset := offset + chunk;
    }
    ret := 0;
    if |c1| != |c2| {
      var over := if |c1| > |c2| then img1 else img2;
      ret := CompareTail(over, offset);
      if ret == 1 {
        var i :| offset <= i < offset + (|over.content| - offset) && Z(over.content, i) != 0;
        assert Z(c1, i) != Z(c2, i);
      }
    }
    if ret == 0 {
      assert forall i: nat :: Z(c1, i) == Z(c2, i);
      if strict {
        assert forall i | 0 <= i < |c1| :: c1[i] == Z(c1, i) && c2[i] == Z(c2, i);
      }
    }
  }
}
