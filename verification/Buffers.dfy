/** The buffer scans of qemu-img.c on which compare, convert and rebase rest. */
module Buffers {

  const SECTOR_SIZE: nat := 512

  const IO_BUF_SIZE: nat := 2 * 1024 * 1024

  newtype byte = x: int | 0 <= x < 256

  /** An image read at any offset: bytes past its end are zero. */
  function Z(image: seq<byte>, i: nat): byte {
    if i < |image| then image[i] else 0
  }

  function Min(a: int, b: int): (m: int)
    ensures m <= a && m <= b && (m == a || m == b)
  {
    if a <= b then a else b
  }

  /** buffer_is_zero */
  predicate IsZero(s: seq<byte>) {
    forall i | 0 <= i < |s| :: s[i] == 0
  }

  /** The chunk of s that starts at byte i: size bytes, or what is left. */
  function Chunk(s: seq<byte>, size: nat, i: nat): seq<byte>
    requires i <= |s|
  {
    s[i..Min(i + size, |s|)]
  }

  predicate Differs(a: seq<byte>, b: seq<byte>, size: nat, i: nat)
    requires |a| == |b| && i <= |a|
  {
    Chunk(a, size, i) != Chunk(b, size, i)
  }

  function ChunkSize(chsize: nat): (size: nat)
    ensures size > 0
  {
    if chsize == 0 then SECTOR_SIZE else chsize
  }

  lemma NextMultiple(i: nat, size: nat)
    requires size > 0 && i % size == 0
    ensures (i + size) % size == 0
    ensures forall j | i < j < i + size :: j % size != 0
  {
    NextMultipleAux(i / size, i, size);
    forall j | i < j < i + size
      ensures j % size != 0
    {
      Remainder(i / size, j - i, j, size);
    }
  }

  lemma NextMultipleAux(q: int, i: int, size: nat)
    requires size > 0 && i == q * size
    ensures (i + size) % size == 0
  {
    assert i + size == (q + 1) * size;
    Remainder(q + 1, 0, i + size, size);
  }

  lemma MulAtLeast(d: int, size: nat)
    requires d >= 1
    ensures d * size >= size
  {
  }

  /** Division with remainder is unique. */
  lemma Remainder(q: int, r: int, x: int, size: nat)
    requires size > 0 && 0 <= r < size && x == q * size + r
    ensures x % size == r && x / size == q
  {
    var q', r' := x / size, x % size;
    assert x == q' * size + r';
    Unique(q, r, q', r', size);
  }

  lemma Unique(q: int, r: int, q': int, r': int, size: nat)
    requires 0 <= r < size && 0 <= r' < size
    requires q * size + r == q' * size + r'
    ensures q == q' && r == r'
  {
    assert (q' - q) * size == r - r';
    if q' > q {
      MulAtLeast(q' - q, size);
    } else if q' < q {
      assert (q - q') * size == r' - r;
      MulAtLeast(q - q', size);
    }
  }

  /** compare_buffers: whether the first chunks differ, and how far the same verdict reaches.
      The prefix ends on a chunk boundary or at the end, every chunk in it has the verdict of
      the first, and the chunk after it has the other one. */
  method CompareBuffers(a: seq<byte>, b: seq<byte>, chsize: nat) returns (differs: bool, pnum: nat)
    requires |a| == |b| > 0
    ensures 0 < pnum <= |a| && (pnum == |a| || pnum % ChunkSize(chsize) == 0)
    ensures forall i | 0 <= i < pnum && i % ChunkSize(chsize) == 0 :: Differs(a, b, ChunkSize(chsize), i) == differs
    ensures pnum < |a| ==> Differs(a, b, ChunkSize(chsize), pnum) != differs
    ensures !differs ==> a[..pnum] == b[..pnum]
  {
    var size := ChunkSize(chsize);
    var i := Min(|a|, size);
    differs := a[..i] != b[..i];
    NextMultiple(0, size);
    assert Chunk(a, size, 0) == a[..i] && Chunk(b, size, 0) == b[..i];
    while i < |a|
      invariant 0 < i <= |a| && (i == |a| || i % size == 0)
      invariant forall j | 0 <= j < i && j % size == 0 :: Differs(a, b, size, j) == differs
      invariant !differs ==> a[..i] == b[..i]
    {
      var len := Min(|a| - i, size);
      assert Chunk(a, size, i) == a[i..i + len] && Chunk(b, size, i) == b[i..i + len];
      if (a[i..i + len] != b[i..i + len]) != differs {
        break;
      }
      NextMultiple(i, size);
      assert a[..i + len] == a[..i] + a[i..i + len] && b[..i + len] == b[..i] + b[i..i + len];
      i := i + len;
    }
    pnum := i;
  }

  /** find_nonzero: -1 if buf is all zero, else the first sector boundary whose sector is not. */
  method FindNonzero(buf: seq<byte>) returns (idx: int)
    ensures idx == -1 <==> IsZero(buf)
    ensures idx == -1 || (0 <= idx < |buf| && idx % SECTOR_SIZE == 0)
    ensures 0 <= idx < |buf| ==> IsZero(buf[..idx]) && !IsZero(Chunk(buf, SECTOR_SIZE, idx))
  {
    var i, end := 0, |buf| - |buf| % SECTOR_SIZE;
    while i < end
      invariant 0 <= i <= end && i % SECTOR_SIZE == 0
      invariant IsZero(buf[..i])
    {
      if !IsZero(buf[i..i + SECTOR_SIZE]) {
        var j :| 0 <= j < SECTOR_SIZE && buf[i..i + SECTOR_SIZE][j] != 0;
        assert Chunk(buf, SECTOR_SIZE, i)[j] == buf[i + j] != 0;
        return i;
      }
      assert buf[..i + SECTOR_SIZE] == buf[..i] + buf[i..i + SECTOR_SIZE];
      i := i + SECTOR_SIZE;
    }
    if i < |buf| && !IsZero(buf[i..]) {
      var j :| 0 <= j < |buf| - i && buf[i..][j] != 0;
      assert Chunk(buf, SECTOR_SIZE, i)[j] == buf[i + j] != 0;
      return i;
    }
    assert buf == buf[..i] + buf[i..];
    return -1;
  }
}
