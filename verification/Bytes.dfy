/** Bytes, 32-bit big-endian words and the `copy` built-in. */
module Bytes {
  import opened Arith

  newtype byte = x: int | 0 <= x < 0x100
  type Bytes = seq<byte>

  const WORD: nat := 0x1_0000_0000

  datatype Option<+T> = None | Some(value: T)

  /** The number whose base-256 digits, most significant first, are b. */
  function BigEndian(b: Bytes): (n: nat)
    ensures n < Pow256(|b|)
  {
    if b == [] then 0 else BigEndian(b[..|b| - 1]) * 0x100 + b[|b| - 1] as int
  }

  /** The k lowest base-256 digits of n. */
  function PutBigEndian(n: nat, k: nat): (b: Bytes)
    ensures |b| == k
  {
    if k == 0 then [] else PutBigEndian(n / 0x100, k - 1) + [(n % 0x100) as byte]
  }

  function Pow256(k: nat): (p: nat)
    ensures p > 0
  {
    if k == 0 then 1 else 0x100 * Pow256(k - 1)
  }

  lemma {:induction false} BigEndianRoundTrip(n: nat, k: nat)
    ensures BigEndian(PutBigEndian(n, k)) == n % Pow256(k)
  {
    if k > 0 {
      BigEndianRoundTrip(n / 0x100, k - 1);
      assert PutBigEndian(n, k)[..k - 1] == PutBigEndian(n / 0x100, k - 1);
      DivDiv(n, 0x100, Pow256(k - 1));
    }
  }

  lemma WordIsPow()
    ensures Pow256(4) == WORD
  {
    assert Pow256(2) == 0x1_0000;
    assert Pow256(3) == 0x100_0000;
  }

  /** binary.BigEndian.Uint32(b[at:at+4]) */
  function Uint32(b: Bytes, at: nat): (n: nat)
    requires at + 4 <= |b|
    ensures n < WORD
  {
    WordIsPow();
    BigEndian(b[at..at + 4])
  }

  /** The most significant byte comes first. */
  lemma Uint32Is(b: Bytes, at: nat)
    requires at + 4 <= |b|
    ensures Uint32(b, at) ==
            b[at] as int * 0x100_0000 + b[at + 1] as int * 0x1_0000 + b[at + 2] as int * 0x100 + b[at + 3] as int
  {
    assert b[at..at + 4] == [b[at]] + [b[at + 1]] + [b[at + 2]] + [b[at + 3]];
    LastByte([], b[at]);
    LastByte([b[at]], b[at + 1]);
    LastByte([b[at]] + [b[at + 1]], b[at + 2]);
    LastByte([b[at]] + [b[at + 1]] + [b[at + 2]], b[at + 3]);
    assert [] + [b[at]] == [b[at]];
  }

  lemma LastByte(b: Bytes, x: byte)
    ensures BigEndian(b + [x]) == BigEndian(b) * 0x100 + x as int
  {
    assert (b + [x])[..|b|] == b;
  }

  lemma {:induction false} BytesRoundTrip(b: Bytes)
    ensures PutBigEndian(BigEndian(b), |b|) == b
  {
    if b != [] {
      BytesRoundTrip(b[..|b| - 1]);
    }
  }

  lemma Uint16Is(b: Bytes)
    requires |b| == 2
    ensures BigEndian(b) == b[0] as int * 0x100 + b[1] as int
  {
    LastByte([], b[0]);
    LastByte([b[0]], b[1]);
    assert [] + [b[0]] == [b[0]] && b == [b[0]] + [b[1]];
  }

  /** binary.BigEndian.PutUint32 of uint32(n): the high bits of n are dropped. */
  function PutUint32(n: nat): (b: Bytes)
    ensures |b| == 4
  {
    PutBigEndian(n, 4)
  }

  /** A word written at any offset reads back as itself, modulo 2^32. */
  lemma WordRoundTrip(before: Bytes, n: nat, after: Bytes)
    ensures Uint32(before + PutUint32(n) + after, |before|) == n % WORD
  {
    var all := before + PutUint32(n) + after;
    assert all[|before|..|before| + 4] == PutUint32(n);
    BigEndianRoundTrip(n, 4);
    WordIsPow();
  }

  /** copy(dst[at:], src): as much of src as fits, the rest of dst unchanged. */
  function Overlay<T>(dst: seq<T>, at: nat, src: seq<T>): (r: seq<T>)
    requires at <= |dst|
    ensures |r| == |dst|
    ensures forall x :: 0 <= x < |dst| ==>
                          r[x] == if at <= x < at + |src| then src[x - at] else dst[x]
  {
    if at + |src| <= |dst| then dst[..at] + src + dst[at + |src|..] else dst[..at] + src[..|dst| - at]
  }

  /** The same copy on an array, in place. */
  method CopyInto<T>(dst: array<T>, at: nat, src: seq<T>)
    requires at <= dst.Length
    modifies dst
    ensures dst[..] == Overlay(old(dst[..]), at, src)
  {
    var n := if at + |src| <= dst.Length then |src| else dst.Length - at;
    forall k | 0 <= k < n {
      dst[at + k] := src[k];
    }
    assert dst[..] == Overlay(old(dst[..]), at, src);
  }

  lemma Associative<T>(a: seq<T>, b: seq<T>, c: seq<T>)
    ensures a + b + c == a + (b + c)
  {
  }
}
