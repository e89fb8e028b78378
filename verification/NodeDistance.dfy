/** Node IDs and their XOR distance. */
module NodeDistance {
  const ID_LENGTH: nat := 20

  type NodeID = id: seq<bv8> | |id| == ID_LENGTH witness seq(ID_LENGTH, _ => 0)

  datatype Node = Node(id: NodeID, addr: int)

  function Xor(a: NodeID, b: NodeID): NodeID {
    seq(ID_LENGTH, i requires 0 <= i < ID_LENGTH => a[i] ^ b[i])
  }

  function Digits(s: seq<bv8>): (d: seq<nat>)
    ensures |d| == |s| && forall i :: 0 <= i < |d| ==> d[i] < 256
  {
    seq(|s|, i requires 0 <= i < |s| => s[i] as int)
  }

  /** The number whose base-256 digits, most significant first, are d. */
  function Number(d: seq<nat>): nat {
    if d == [] then 0 else Number(d[..|d| - 1]) * 256 + d[|d| - 1]
  }

  /** The distance of two nodes is the 160-bit number their XOR spells. */
  function Distance(a: NodeID, b: NodeID): nat {
    Number(Digits(Xor(a, b)))
  }

  /** The first place where two numbers differ decides which is smaller. */
  lemma {:induction false} FirstDifference(d: seq<nat>, e: seq<nat>, i: nat)
    requires |d| == |e| && i < |d| && d[..i] == e[..i] && d[i] < e[i]
    requires forall k :: 0 <= k < |d| ==> d[k] < 256
    ensures Number(d) < Number(e)
  {
    var n := |d| - 1;
    if i == n {
      assert d[..n] == e[..n];
    } else {
      assert d[..n][..i] == d[..i] && e[..n][..i] == e[..i];
      FirstDifference(d[..n], e[..n], i);
    }
  }

  lemma ByteOrder(x: bv8, y: bv8)
    requires x < y
    ensures x as int < y as int
  {
  }

  /** The first byte in which two strings differ decides it. */
  lemma FirstByte(s: NodeID, t: NodeID, i: nat)
    requires i < ID_LENGTH && s[..i] == t[..i] && s[i] < t[i]
    ensures Number(Digits(s)) < Number(Digits(t))
  {
    var d, e := Digits(s), Digits(t);
    ByteOrder(s[i], t[i]);
    forall k | 0 <= k < i
      ensures d[k] == e[k]
    {
      assert s[k] == s[..i][k] == t[..i][k] == t[k];
    }
    assert d[..i] == e[..i];
    FirstDifference(d, e, i);
  }

  lemma XorInjective(t: bv8, x: bv8, y: bv8)
    requires x != y
    ensures t ^ x != t ^ y
  {
  }

  lemma {:induction false} DiffersAt(s: seq<bv8>, t: seq<bv8>) returns (i: nat)
    requires |s| == |t| && s != t
    ensures i < |s| && s[..i] == t[..i] && s[i] != t[i]
  {
    if s[0] != t[0] {
      i := 0;
    } else {
      assert s == [s[0]] + s[1..] && t == [t[0]] + t[1..];
      var j := DiffersAt(s[1..], t[1..]);
      i := j + 1;
      assert s[..i] == [s[0]] + s[1..][..j] && t[..i] == [t[0]] + t[1..][..j];
    }
  }

  lemma NumberInjective(s: NodeID, t: NodeID)
    requires s != t
    ensures Number(Digits(s)) != Number(Digits(t))
  {
    var i := DiffersAt(s, t);
    if s[i] < t[i] {
      FirstByte(s, t, i);
    } else {
      FirstByte(t, s, i);
    }
  }

  /** The nodes at one distance from a target are one node. */
  lemma DistanceInjective(target: NodeID, a: NodeID, b: NodeID)
    ensures Distance(target, a) == Distance(target, b) <==> a == b
  {
    if a != b {
      var i := DiffersAt(a, b);
      var s, t := Xor(target, a), Xor(target, b);
      XorInjective(target[i], a[i], b[i]);
      assert s[i] != t[i];
      NumberInjective(s, t);
    }
  }

  method XORDistance(a: NodeID, b: NodeID) returns (dist: NodeID)
    ensures dist == Xor(a, b)
  {
    var d := new bv8[ID_LENGTH](_ => 0);
    for i := 0 to ID_LENGTH
      invariant forall k :: 0 <= k < i ==> d[k] == a[k] ^ b[k]
    {
      d[i] := a[i] ^ b[i];
    }
    dist := d[..];
    assert dist == Xor(a, b);
  }

  /** Negative, positive or zero as a is closer to the target than b, farther, or the same node. */
  method CompareDistance(target: NodeID, a: NodeID, b: NodeID) returns (c: int)
    ensures c == -1 || c == 0 || c == 1
    ensures c == -1 <==> Distance(target, a) < Distance(target, b)
    ensures c == 1 <==> Distance(target, a) > Distance(target, b)
    ensures c == 0 <==> a == b
  {
    var distA := XORDistance(target, a);
    var distB := XORDistance(target, b);
    for i := 0 to ID_LENGTH
      invariant distA[..i] == distB[..i]
    {
      if distA[i] < distB[i] {
        FirstByte(distA, distB, i);
        return -1;
      }
      if distA[i] > distB[i] {
        FirstByte(distB, distA, i);
        return 1;
      }
      assert distA[..i + 1] == distA[..i] + [distA[i]] && distB[..i + 1] == distB[..i] + [distB[i]];
    }
    assert distA == distA[..ID_LENGTH] && distB == distB[..ID_LENGTH];
    DistanceInjective(target, a, b);
    c := 0;
  }

  // ----- Prefixes

  const ID_BITS: nat := 160

  /** Bit j of a byte, counted from the least significant one. */
  predicate Has(x: bv8, j: nat) {
    if j == 0 then x & 1 != 0 else Has(x >> 1, j - 1)
  }

  /** 1 << j for j up to 7 */
  function Mask(j: nat): bv8 {
    if j == 0 then 1 else if j == 1 then 2 else if j == 2 then 4 else if j == 3 then 8
    else if j == 4 then 16 else if j == 5 then 32 else if j == 6 then 64 else 128
  }

  lemma MaskStep(x: bv8, j: nat)
    requires j < 7
    ensures x & Mask(j + 1) != 0 <==> (x >> 1) & Mask(j) != 0
  {
    if j < 4 {
      LowMask(x);
    } else {
      HighMask(x);
    }
  }

  lemma LowMask(x: bv8)
    ensures x & 2 != 0 <==> (x >> 1) & 1 != 0
    ensures x & 4 != 0 <==> (x >> 1) & 2 != 0
    ensures x & 8 != 0 <==> (x >> 1) & 4 != 0
    ensures x & 16 != 0 <==> (x >> 1) & 8 != 0
  {
  }

  lemma HighMask(x: bv8)
    ensures x & 32 != 0 <==> (x >> 1) & 16 != 0
    ensures x & 64 != 0 <==> (x >> 1) & 32 != 0
    ensures x & 128 != 0 <==> (x >> 1) & 64 != 0
  {
  }

  /** Masking tests the bit. */
  lemma {:induction false} MaskHas(x: bv8, j: nat)
    requires j < 8
    ensures x & Mask(j) != 0 <==> Has(x, j)
  {
    if j > 0 {
      MaskStep(x, j - 1);
      MaskHas(x >> 1, j - 1);
    }
  }

  /** Bit k of an ID, counted from the most significant one. */
  predicate Bit(id: NodeID, k: nat)
    requires k < ID_BITS
  {
    Has(id[k / 8], 7 - k % 8)
  }

  predicate SharePrefix(a: NodeID, b: NodeID, n: nat)
    requires n <= ID_BITS
  {
    forall k :: 0 <= k < n ==> (Bit(a, k) <==> Bit(b, k))
  }

  /** The number of leading bits two IDs share, looked for from k on. */
  function PrefixFrom(a: NodeID, b: NodeID, k: nat): (n: nat)
    requires k <= ID_BITS
    ensures k <= n <= ID_BITS
    decreases 8 * |a| - k
  {
    if k == ID_BITS || Bit(a, k) != Bit(b, k) then k else PrefixFrom(a, b, k + 1)
  }

  /** The length of the longest common prefix, in bits. */
  function CommonPrefix(a: NodeID, b: NodeID): (n: nat)
    ensures n <= ID_BITS
  {
    PrefixFrom(a, b, 0)
  }

  lemma {:induction false} PrefixFromShares(a: NodeID, b: NodeID, k: nat)
    requires k <= ID_BITS && SharePrefix(a, b, k)
    ensures SharePrefix(a, b, PrefixFrom(a, b, k))
    ensures PrefixFrom(a, b, k) < ID_BITS ==> Bit(a, PrefixFrom(a, b, k)) != Bit(b, PrefixFrom(a, b, k))
    decreases ID_BITS - k
  {
    if k < ID_BITS && Bit(a, k) == Bit(b, k) {
      PrefixFromShares(a, b, k + 1);
    }
  }

  /**
   * It is common, and it is the longest: n is the common prefix length exactly when the bits agree up to n and not
   * at n.
   */
  lemma PrefixMeaning(a: NodeID, b: NodeID, n: nat)
    requires n <= ID_BITS
    ensures CommonPrefix(a, b) == n <==> SharePrefix(a, b, n) && (n < ID_BITS ==> Bit(a, n) != Bit(b, n))
  {
    PrefixFromShares(a, b, 0);
  }

  lemma XorShift(x: bv8, y: bv8, z: bv8)
    requires z == x ^ y
    ensures z >> 1 == (x >> 1) ^ (y >> 1)
  {
  }

  lemma XorLow(x: bv8, y: bv8, z: bv8)
    requires z == x ^ y
    ensures z & 1 != 0 <==> (x & 1 != 0) != (y & 1 != 0)
  {
  }

  lemma {:induction false} XorHas(x: bv8, y: bv8, z: bv8, j: nat)
    requires z == x ^ y
    ensures Has(z, j) <==> Has(x, j) != Has(y, j)
  {
    if j == 0 {
      XorLow(x, y, z);
    } else {
      XorShift(x, y, z);
      XorHas(x >> 1, y >> 1, z >> 1, j - 1);
    }
  }

  /** x has no bit beyond the first n. */
  predicate Fits(x: bv8, n: nat) {
    if n == 0 then x == 0 else Fits(x >> 1, n - 1)
  }

  lemma EightBits(x: bv8)
    ensures Fits(x, 8)
  {
    var x4 := x >> 1 >> 1 >> 1 >> 1;
    FourBits(x, 4);
    FourBits(x4, 0);
    assert x4 >> 1 >> 1 >> 1 >> 1 == 0;
  }

  lemma FourBits(x: bv8, n: nat)
    ensures Fits(x, n + 4) == Fits(x >> 1 >> 1 >> 1 >> 1, n)
  {
    assert Fits(x, n + 4) == Fits(x >> 1, n + 3);
    assert Fits(x >> 1, n + 3) == Fits(x >> 1 >> 1, n + 2);
    assert Fits(x >> 1 >> 1, n + 2) == Fits(x >> 1 >> 1 >> 1, n + 1);
  }

  lemma Halves(x: bv8, y: bv8)
    ensures x >> 1 == y >> 1 && (x & 1 != 0 <==> y & 1 != 0) ==> x == y
    ensures x >> 1 < y >> 1 ==> x < y
    ensures x >> 1 == y >> 1 && x & 1 == 0 && y & 1 != 0 ==> x < y
  {
  }

  /** Bits j and up, of n, are the same. */
  predicate SameFrom(x: bv8, y: bv8, j: nat, n: nat) {
    forall m :: j <= m < n ==> (Has(x, m) <==> Has(y, m))
  }

  lemma SameShifted(x: bv8, y: bv8, j: nat, n: nat)
    requires n > 0 && SameFrom(x, y, j + 1, n)
    ensures SameFrom(x >> 1, y >> 1, j, n - 1)
  {
    var u, v := x >> 1, y >> 1;
    forall m | j <= m < n - 1
      ensures Has(u, m) <==> Has(v, m)
    {
      assert Has(x, m + 1) <==> Has(y, m + 1);
    }
  }

  /** A byte is determined by its bits. */
  lemma {:induction false} ByteBits(x: bv8, y: bv8, n: nat)
    requires Fits(x, n) && Fits(y, n) && SameFrom(x, y, 0, n)
    ensures x == y
  {
    if n > 0 {
      assert Has(x, 0) <==> Has(y, 0);
      SameShifted(x, y, 0, n);
      ByteBits(x >> 1, y >> 1, n - 1);
      Halves(x, y);
    }
  }

  /** The highest bit in which two bytes differ decides which is smaller. */
  lemma {:induction false} HighestDecides(x: bv8, y: bv8, j: nat, n: nat)
    requires j < n && Fits(x, n) && Fits(y, n) && SameFrom(x, y, j + 1, n) && !Has(x, j) && Has(y, j)
    ensures x < y
  {
    SameShifted(x, y, j, n);
    if j == 0 {
      ByteBits(x >> 1, y >> 1, n - 1);
    } else {
      SameFromShift(x, y, j, n);
      HighestDecides(x >> 1, y >> 1, j - 1, n - 1);
    }
    Halves(x, y);
  }

  lemma SameFromShift(x: bv8, y: bv8, j: nat, n: nat)
    requires 0 < j < n && SameFrom(x >> 1, y >> 1, j, n - 1)
    ensures SameFrom(x >> 1, y >> 1, j - 1 + 1, n - 1)
  {
  }

  /** IDs that share all the bits of byte i share the byte. */
  lemma SharedByte(a: NodeID, b: NodeID, i: nat)
    requires i < ID_LENGTH && SharePrefix(a, b, i * 8 + 8)
    ensures a[i] == b[i]
  {
    forall j | 0 <= j < 8
      ensures Has(a[i], j) <==> Has(b[i], j)
    {
      BitOfByte(a, i, j);
      BitOfByte(b, i, j);
    }
    EightBits(a[i]);
    EightBits(b[i]);
    ByteBits(a[i], b[i], 8);
  }

  /** Two IDs agree on all bits exactly when they are equal. */
  lemma WholePrefix(a: NodeID, b: NodeID)
    ensures CommonPrefix(a, b) == ID_BITS <==> a == b
  {
    PrefixMeaning(a, b, ID_BITS);
    if CommonPrefix(a, b) == ID_BITS {
      forall i | 0 <= i < ID_LENGTH
        ensures a[i] == b[i]
      {
        SharedByte(a, b, i);
      }
      assert a == b;
    }
  }

  /** Whichever shares more leading bits with the target is strictly closer to it. */
  lemma LongerPrefixCloser(target: NodeID, a: NodeID, b: NodeID)
    requires CommonPrefix(target, a) < CommonPrefix(target, b)
    ensures Distance(target, b) < Distance(target, a)
  {
    var f := CommonPrefix(target, a);
    PrefixMeaning(target, a, f);
    PrefixMeaning(target, b, CommonPrefix(target, b));
    var i := f / 8;
    var s, t := Xor(target, b), Xor(target, a);
    forall k | 0 <= k <= f
      ensures !Bit(s, k) && (Bit(t, k) <==> k == f)
    {
      XorBitAt(target, a, k);
      XorBitAt(target, b, k);
    }
    forall k | 0 <= k < i
      ensures s[k] == t[k]
    {
      SharedByte(s, t, k);
    }
    assert s[..i] == t[..i];
    LowerByte(s, t, i, 7 - f % 8);
    FirstByte(s, t, i);
  }

  /** The bits of the XOR are where the IDs differ. */
  lemma XorBitAt(a: NodeID, b: NodeID, k: nat)
    requires k < ID_BITS
    ensures Bit(Xor(a, b), k) <==> Bit(a, k) != Bit(b, k)
  {
    XorByteAt(a, b, k / 8, 7 - k % 8);
  }

  lemma XorByteAt(a: NodeID, b: NodeID, i: nat, j: nat)
    requires i < ID_LENGTH
    ensures Has(Xor(a, b)[i], j) <==> Has(a[i], j) != Has(b[i], j)
  {
    XorHas(a[i], b[i], Xor(a, b)[i], j);
  }

  lemma LowerByte(s: NodeID, t: NodeID, i: nat, j: nat)
    requires i < ID_LENGTH && j < 8 && SharePrefix(s, t, i * 8 + (7 - j))
    requires !Bit(s, i * 8 + (7 - j)) && Bit(t, i * 8 + (7 - j))
    ensures s[i] < t[i]
  {
    BitOfByte(s, i, j);
    BitOfByte(t, i, j);
    forall m | j + 1 <= m < 8
      ensures Has(s[i], m) <==> Has(t[i], m)
    {
      SharedBit(s, t, i, j, m);
    }
    EightBits(s[i]);
    EightBits(t[i]);
    HighestDecides(s[i], t[i], j, 8);
  }

  lemma SharedBit(s: NodeID, t: NodeID, i: nat, j: nat, m: nat)
    requires i < ID_LENGTH && j < m < 8 && SharePrefix(s, t, i * 8 + (7 - j))
    ensures Has(s[i], m) <==> Has(t[i], m)
  {
    BitOfByte(s, i, m);
    BitOfByte(t, i, m);
  }

  lemma BitOfByte(s: NodeID, i: nat, m: nat)
    requires i < ID_LENGTH && m < 8
    ensures Bit(s, i * 8 + (7 - m)) <==> Has(s[i], m)
  {
    ByteIndex(i, m);
  }

  lemma ByteIndex(i: nat, m: nat)
    requires m < 8
    ensures (i * 8 + (7 - m)) / 8 == i && 7 - (i * 8 + (7 - m)) % 8 == m
  {
  }
}
