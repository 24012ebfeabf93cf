/** Little-endian fields in a byte buffer. */
module Wire {
  import opened Masks
  import opened Sequences

  type byte = x: int | 0 <= x < 256
  type u32 = x: int | 0 <= x < 0x1_0000_0000
  type u64 = x: int | 0 <= x < 0x1_0000_0000_0000_0000

  function Pow256(w: nat): (p: nat)
    ensures p > 0
  {
    if w == 0 then 1 else 256 * Pow256(w - 1)
  }

  function Le(b: seq<byte>): (n: nat)
    ensures n < Pow256(|b|)
  {
    if b == [] then 0 else b[0] + 256 * Le(b[1..])
  }

  function Bytes(n: nat, w: nat): (b: seq<byte>)
    ensures |b| == w
    decreases w
  {
    if w == 0 then [] else [n % 256] + Bytes(n / 256, w - 1)
  }

  lemma {:induction false} LeOfBytes(n: nat, w: nat)
    requires n < Pow256(w)
    ensures Le(Bytes(n, w)) == n
    decreases w
  {
    if w > 0 {
      LeOfBytes(n / 256, w - 1);
      assert Bytes(n, w)[1..] == Bytes(n / 256, w - 1);
    }
  }

  lemma {:induction false} BytesOfLe(b: seq<byte>)
    ensures Bytes(Le(b), |b|) == b
  {
    if b != [] {
      BytesOfLe(b[1..]);
      assert Le(b) % 256 == b[0] && Le(b) / 256 == Le(b[1..]);
      assert b == [b[0]] + b[1..];
    }
  }

  lemma Widths()
    ensures Pow256(4) == 0x1_0000_0000 && Pow256(8) == 0x1_0000_0000_0000_0000
  {
    assert Pow256(2) == 0x1_0000;
    assert Pow256(4) == 0x1_0000_0000;
    assert Pow256(6) == 0x1_0000_0000_0000;
    assert Pow256(8) == 0x1_0000_0000_0000_0000;
  }

  function Bytes32(n: u32): (b: seq<byte>)
    ensures |b| == 4
  {
    Bytes(n, 4)
  }

  function Bytes64(n: u64): (b: seq<byte>)
    ensures |b| == 8
  {
    Bytes(n, 8)
  }

  /** The bytes from off on start with b. */
  predicate At(buf: seq<byte>, off: nat, b: seq<byte>)
    decreases |b|
  {
    if b == [] then off <= |buf| else off < |buf| && buf[off] == b[0] && At(buf, off + 1, b[1..])
  }

  lemma {:induction false} AtSlice(buf: seq<byte>, off: nat, b: seq<byte>)
    ensures At(buf, off, b) <==> off + |b| <= |buf| && buf[off..off + |b|] == b
    decreases |b|
  {
    if b != [] {
      AtSlice(buf, off + 1, b[1..]);
      if off + |b| <= |buf| {
        assert buf[off..off + |b|] == [buf[off]] + buf[off + 1..off + |b|];
      }
    }
  }

  lemma {:induction false} AtAppend(buf: seq<byte>, off: nat, a: seq<byte>, b: seq<byte>)
    ensures At(buf, off, a + b) <==> At(buf, off, a) && At(buf, off + |a|, b)
    decreases |a|
  {
    if a == [] {
      assert a + b == b;
      AtSlice(buf, off, b);
    } else {
      AtAppend(buf, off + 1, a[1..], b);
      assert (a + b)[1..] == a[1..] + b;
    }
  }

  /** Reading past the end of the buffer is not defined. */
  function Get32(buf: seq<byte>, off: nat): Option<u32> {
    if off + 4 <= |buf| then
      Widths();
      Some(Le(buf[off..off + 4]))
    else None
  }

  function Get64(buf: seq<byte>, off: nat): Option<u64> {
    if off + 8 <= |buf| then
      Widths();
      Some(Le(buf[off..off + 8]))
    else None
  }

  lemma Get32Exact(buf: seq<byte>, off: nat, n: u32)
    ensures Get32(buf, off) == Some(n) <==> At(buf, off, Bytes32(n))
  {
    Widths();
    LeOfBytes(n, 4);
    AtSlice(buf, off, Bytes32(n));
    if off + 4 <= |buf| { BytesOfLe(buf[off..off + 4]); }
  }

  lemma Get64Exact(buf: seq<byte>, off: nat, n: u64)
    ensures Get64(buf, off) == Some(n) <==> At(buf, off, Bytes64(n))
  {
    Widths();
    LeOfBytes(n, 8);
    AtSlice(buf, off, Bytes64(n));
    if off + 8 <= |buf| { BytesOfLe(buf[off..off + 8]); }
  }
}
