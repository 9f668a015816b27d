/** File contents and the 64-bit arithmetic on them. */
module Content {

  newtype byte = x: int | 0 <= x < 256
  type Bytes = seq<byte>

  const TWO63: int := 0x8000_0000_0000_0000
  const TWO64: int := 0x1_0000_0000_0000_0000
  /** The longest string the C++ library can hold; growing a value past it throws. */
  const MAX_SIZE: int := TWO63 - 1

  type U64 = x: int | 0 <= x < TWO64
  type I64 = x: int | -TWO63 <= x < TWO63
  type Buffer = b: Bytes | |b| < TWO64 witness []

  /** What a C++ string can hold. */
  type Value = v: Bytes | |v| <= MAX_SIZE witness []

  function Max(a: int, b: int): int { if a < b then b else a }
  function Min(a: int, b: int): int { if a < b then a else b }

  /** Unsigned 64-bit addition. */
  function AddU64(a: U64, b: U64): U64 { (a + b) % TWO64 }

  /** Conversion of an unsigned 64-bit value to a signed one. */
  function ToSigned(x: U64): I64
  {
    if x < TWO63 then x else x - TWO64
  }

  /** The sum `offset += size` of a signed offset and an unsigned size, as the C++ conversions compute it. */
  function AddSigned(offset: I64, size: U64): I64
  {
    ToSigned((offset + size) % TWO64)
  }

  /** The wrapped sum is exact when the true sum is a valid offset, and negative otherwise. */
  lemma SeekArithmetic(offset: I64, size: U64)
    requires size < TWO63
    ensures 0 <= offset + size < TWO63 ==> AddSigned(offset, size) == offset + size
    ensures !(0 <= offset + size < TWO63) ==> AddSigned(offset, size) < 0
  {
    var sum := offset + size;
    if sum < 0 {
      assert sum % TWO64 == sum + TWO64;
    } else {
      assert sum % TWO64 == sum;
    }
  }

  /** The overflow test of a write detects exactly the sums that do not fit 64 bits. */
  lemma OverflowTest(offset: U64, count: U64)
    ensures AddU64(offset, count) < offset <==> TWO64 <= offset + count
    ensures offset + count < TWO64 ==> AddU64(offset, count) == offset + count
  {
    if offset + count < TWO64 {
      assert (offset + count) % TWO64 == offset + count;
    } else {
      assert (offset + count) % TWO64 == offset + count - TWO64;
    }
  }

  function Zeros(n: nat): (z: Bytes)
  {
    seq(n, _ => 0)
  }

  /** `value.resize(n)` when the value is shorter. */
  function Grow(v: Bytes, n: nat): Bytes
  {
    if |v| < n then v + Zeros(n - |v|) else v
  }

  /** `memcpy` of `buf` over `v` at `offset`. */
  function Copy(v: Bytes, offset: nat, buf: Bytes): Bytes
    requires offset + |buf| <= |v|
  {
    v[..offset] + buf + v[offset + |buf|..]
  }

  /** A write, byte by byte: the buffer where it lies, the old bytes elsewhere, zeros in a gap. */
  function Overlay(v: Bytes, offset: nat, buf: Bytes): (r: Bytes)
    ensures |r| == Max(|v|, offset + |buf|)
  {
    seq(Max(|v|, offset + |buf|), i requires 0 <= i =>
      if offset <= i < offset + |buf| then buf[i - offset] else if i < |v| then v[i] else 0)
  }

  lemma CopyIsOverlay(v: Bytes, offset: nat, buf: Bytes)
    ensures Copy(Grow(v, offset + |buf|), offset, buf) == Overlay(v, offset, buf)
  {
    var a, b := Copy(Grow(v, offset + |buf|), offset, buf), Overlay(v, offset, buf);
    assert |a| == |b|;
    forall i | 0 <= i < |a| ensures a[i] == b[i] {
      assert i < offset ==> a[i] == Grow(v, offset + |buf|)[i];
    }
  }

  /** Writes to disjoint ranges commute. */
  lemma DisjointWritesCommute(v: Bytes, o1: nat, b1: Bytes, o2: nat, b2: Bytes)
    requires o1 + |b1| <= o2 || o2 + |b2| <= o1
    ensures Overlay(Overlay(v, o1, b1), o2, b2) == Overlay(Overlay(v, o2, b2), o1, b1)
  {
    var x, y := Overlay(Overlay(v, o1, b1), o2, b2), Overlay(Overlay(v, o2, b2), o1, b1);
    assert |x| == |y|;
    assert forall i :: 0 <= i < |x| ==> x[i] == y[i];
  }

  datatype WriteAt = WriteAt(offset: nat, buf: Bytes)

  function ApplyWrites(v: Bytes, ws: seq<WriteAt>): Bytes
  {
    if ws == [] then v
    else
      var w := ws[|ws| - 1];
      Overlay(ApplyWrites(v, ws[..|ws| - 1]), w.offset, w.buf)
  }

  /** The last write covering position `i`, looking back from the end; -1 if there is none. */
  function LastCover(ws: seq<WriteAt>, i: nat): (j: int)
    ensures -1 <= j < |ws|
    ensures 0 <= j ==> ws[j].offset <= i < ws[j].offset + |ws[j].buf|
    ensures forall k :: j < k < |ws| ==> !(ws[k].offset <= i < ws[k].offset + |ws[k].buf|)
  {
    if ws == [] then -1
    else
      var w := ws[|ws| - 1];
      if w.offset <= i < w.offset + |w.buf| then |ws| - 1 else LastCover(ws[..|ws| - 1], i)
  }

  /** Folding writes: the length is the largest end of anything written or present. */
  lemma {:induction false} LargestEnd(v: Bytes, ws: seq<WriteAt>)
    ensures |v| <= |ApplyWrites(v, ws)|
    ensures forall i :: 0 <= i < |ws| ==> ws[i].offset + |ws[i].buf| <= |ApplyWrites(v, ws)|
    ensures |ApplyWrites(v, ws)| == |v| || exists i :: 0 <= i < |ws| && |ApplyWrites(v, ws)| == ws[i].offset + |ws[i].buf|
  {
    hide Overlay;
    if ws != [] {
      var rest := ws[..|ws| - 1];
      LargestEnd(v, rest);
      assert forall i :: 0 <= i < |rest| ==> rest[i] == ws[i];
    }
  }

  /** Folding writes: each byte is the last writer's, else the old one, else zero in a gap. */
  lemma {:induction false} LastWriterWins(v: Bytes, ws: seq<WriteAt>, i: nat)
    requires i < |ApplyWrites(v, ws)|
    ensures ApplyWrites(v, ws)[i] ==
      var j := LastCover(ws, i);
      if 0 <= j then ws[j].buf[i - ws[j].offset] else if i < |v| then v[i] else 0
    decreases |ws|
  {
    if ws != [] {
      var w, rest := ws[|ws| - 1], ws[..|ws| - 1];
      if !(w.offset <= i < w.offset + |w.buf|) {
        if i < |ApplyWrites(v, rest)| {
          LastWriterWins(v, rest, i);
        } else {
          LargestEnd(v, rest);
        }
      }
    }
  }

  /** What a read of `count` bytes at `offset` delivers. */
  function Slice(v: Bytes, offset: nat, count: nat): Bytes
  {
    v[Min(offset, |v|)..Min(offset + count, |v|)]
  }
}
