/** The text that the encoder prints, byte by byte, and the order of its keys. */
module BencodeCanon {
  import opened Bytes
  import opened Bencode
  import opened BencodeText
  import opened BencodeGrammar

  // ----- Numerals

  /** The digits of n with no zero (48) in front, unless n is 0. */
  predicate IsNumeral(d: Bytes, n: int) {
    IsNatural(d, n) && (d[0] == 48 ==> d == [48])
  }

  lemma {:induction false} DecimalIsNumeral(n: nat)
    ensures IsNumeral(Decimal(n), n)
  {
    DecimalValue(n);
    if n >= 10 {
      DecimalIsNumeral(n / 10);
      DecimalLeads(n / 10);
    }
  }

  lemma {:induction false} DecimalLeads(n: nat)
    requires n > 0
    ensures Decimal(n)[0] != 48
  {
    if n >= 10 {
      DecimalLeads(n / 10);
    }
  }

  /** A digit string that does not start with a zero is not 0. */
  lemma {:induction false} LeadingDigit(d: Bytes)
    requires d != [] && AllDigits(d) && d[0] != 48
    ensures DigitsValue(d).Some? && DigitsValue(d).value > 0
  {
    DigitsIff(d);
    var init := d[..|d| - 1];
    if init != [] {
      assert forall i :: 0 <= i < |init| ==> d[i] == init[i];
      LeadingDigit(init);
    }
  }

  lemma OneDigit(x: byte)
    requires 48 <= x <= 57
    ensures DigitsValue([x]) == Some(x as int - 48) && Decimal(x as int - 48) == [x]
  {
    assert [x][..0] == [];
    assert DigitsValue([x][..0]) == Some(0);
  }

  lemma OneMoreDigit(init: Bytes, x: byte, v: nat)
    requires DigitsValue(init) == Some(v) && v > 0 && 48 <= x <= 57
    ensures DigitsValue(init + [x]) == Some(v * 10 + (x as int - 48))
    ensures Decimal(v * 10 + (x as int - 48)) == Decimal(v) + [x]
  {
    assert (init + [x])[..|init|] == init;
    var n := v * 10 + (x as int - 48);
    assert n / 10 == v && n % 10 == x as int - 48;
  }

  /** All but the last digit of a longer numeral are a numeral too. */
  lemma InitNumeral(init: Bytes, x: byte, n: nat) returns (v: nat)
    requires init != [] && IsNumeral(init + [x], n)
    ensures v > 0 && IsNumeral(init, v) && 48 <= x <= 57 && DigitsValue(init) == Some(v)
  {
    var d := init + [x];
    assert d[|init|] == x && d[..|init|] == init;
    assert forall i :: 0 <= i < |init| ==> d[i] == init[i];
    LeadingDigit(init);
    v := DigitsValue(init).value;
  }

  lemma OneDigitUnique(x: byte, n: nat)
    requires IsNumeral([x], n)
    ensures Decimal(n) == [x]
  {
    OneDigit(x);
  }

  lemma LongerUnique(init: Bytes, x: byte, v: nat, n: nat)
    requires DigitsValue(init) == Some(v) && v > 0 && 48 <= x <= 57 && init == Decimal(v)
    requires DigitsValue(init + [x]) == Some(n)
    ensures Decimal(n) == init + [x]
  {
    OneMoreDigit(init, x, v);
  }

  /** There is only one such text for a number, and it is the one printed. */
  lemma {:induction false} NumeralUnique(d: Bytes, n: nat)
    requires IsNumeral(d, n)
    ensures d == Decimal(n)
    decreases |d|, 0
  {
    if |d| == 1 {
      assert d == [d[0]];
      OneDigitUnique(d[0], n);
    } else {
      var init, x := d[..|d| - 1], d[|d| - 1];
      assert d == init + [x];
      LongerNumeral(init, x, n);
    }
  }

  lemma {:induction false} LongerNumeral(init: Bytes, x: byte, n: nat)
    requires init != [] && IsNumeral(init + [x], n)
    ensures Decimal(n) == init + [x]
    decreases |init|, 1
  {
    var v := InitNumeral(init, x, n);
    NumeralUnique(init, v);
    LongerUnique(init, x, v, n);
  }

  /** Digits for a non-negative number, and a minus (45) in front of them for a negative one. */
  predicate IsPrinted(t: Bytes, n: int) {
    if n >= 0 then IsNumeral(t, n) else t != [] && t[0] == 45 && IsNumeral(t[1..], -n)
  }

  lemma ItoaIff(t: Bytes, n: int)
    ensures t == Itoa(n) <==> IsPrinted(t, n)
  {
    if n >= 0 {
      DecimalIsNumeral(n);
      if IsNumeral(t, n) {
        NumeralUnique(t, n);
      }
    } else {
      DecimalIsNumeral(-n);
      assert Itoa(n)[1..] == Decimal(-n);
      if IsPrinted(t, n) {
        NumeralUnique(t[1..], -n);
        assert t == [45] + t[1..];
      }
    }
  }

  // ----- Values

  /** A length, a colon (58) and the bytes. */
  lemma StringText(s: Bytes, text: Bytes)
    ensures text == EncodeString(s) <==> exists d :: IsNumeral(d, |s|) && text == d + [58] + s
  {
    DecimalIsNumeral(|s|);
    forall d | IsNumeral(d, |s|)
      ensures d == Decimal(|s|)
    {
      NumeralUnique(d, |s|);
    }
  }

  /** An integer between 'i' (105) and 'e' (101). */
  lemma IntegerText(n: int, text: Bytes)
    ensures text == Encode(Int(n)) <==> exists t :: IsPrinted(t, n) && text == [105] + t + [101]
  {
    ItoaIff(Itoa(n), n);
    forall t | IsPrinted(t, n)
      ensures t == Itoa(n)
    {
      ItoaIff(t, n);
    }
  }

  /** All of them in order. */
  function Joined(texts: seq<Bytes>): Bytes {
    if texts == [] then [] else texts[0] + Joined(texts[1..])
  }

  lemma {:induction false} ItemsText(items: seq<Value>, texts: seq<Bytes>)
    requires |texts| == |items| && forall i :: 0 <= i < |items| ==> texts[i] == Encode(items[i])
    ensures EncodeItems(items) == Joined(texts)
  {
    if items != [] {
      ItemsText(items[1..], texts[1..]);
    }
  }

  /** The items between 'l' (108) and 'e'. */
  lemma ListText(items: seq<Value>, texts: seq<Bytes>)
    requires |texts| == |items| && forall i :: 0 <= i < |items| ==> texts[i] == Encode(items[i])
    ensures Encode(List(items)) == [108] + Joined(texts) + [101]
  {
    ItemsText(items, texts);
  }

  /** The texts of a key and its value. */
  ghost function PairText(d: Value, k: Bytes): Bytes
    requires d.Dict? && k in d.entries
  {
    EncodeString(k) + Encode(d.entries[k])
  }

  lemma {:induction false} EntriesText(d: Value, ks: seq<Bytes>, texts: seq<Bytes>)
    requires d.Dict? && (forall k :: k in ks ==> k in d.entries) && |texts| == |ks|
    requires forall i :: 0 <= i < |ks| ==> ks[i] in d.entries && texts[i] == PairText(d, ks[i])
    ensures EncodeEntries(d, ks) == Joined(texts)
  {
    if ks != [] {
      assert ks[0] in ks;
      EntriesText(d, ks[1..], texts[1..]);
      Associative(EncodeString(ks[0]), Encode(d.entries[ks[0]]), Joined(texts[1..]));
    }
  }

  /** The pairs between 'd' (100) and 'e', by ascending keys. */
  lemma DictText(d: Value, ks: seq<Bytes>, texts: seq<Bytes>)
    requires d.Dict? && (forall k :: k in ks <==> k in d.entries) && |texts| == |ks|
    requires forall i, j :: 0 <= i < j < |ks| ==> Precedes(ks[i], ks[j])
    requires forall i :: 0 <= i < |ks| ==> ks[i] in d.entries && texts[i] == PairText(d, ks[i])
    ensures Encode(d) == [100] + Joined(texts) + [101]
  {
    forall i, j | 0 <= i < j < |ks|
      ensures Less(ks[i], ks[j])
    {
      LessIff(ks[i], ks[j]);
    }
    AscendingUnique(ks, SortedKeys(d.entries.Keys));
    EntriesText(d, ks, texts);
  }

  // ----- The order of strings

  /** The strings agree on k bytes; then a ends, or has the smaller byte. */
  predicate DiffersAt(a: Bytes, b: Bytes, k: nat) {
    k <= |a| && k < |b| && a[..k] == b[..k] && (k == |a| || a[k] < b[k])
  }

  predicate Precedes(a: Bytes, b: Bytes) {
    exists k :: 0 <= k <= |a| && DiffersAt(a, b, k)
  }

  /** Nothing in common: the first byte decides, or that there is none. */
  lemma HeadDecides(a: Bytes, b: Bytes)
    requires a == [] || b == [] || a[0] != b[0]
    ensures Less(a, b) <==> Precedes(a, b)
  {
    forall k | 0 < k <= |a| && k < |b|
      ensures !DiffersAt(a, b, k)
    {
      assert a[..k][0] == a[0] && b[..k][0] == b[0];
    }
    if Less(a, b) {
      assert DiffersAt(a, b, 0);
    }
    if Precedes(a, b) {
      var k :| 0 <= k <= |a| && DiffersAt(a, b, k);
      assert k == 0;
    }
  }

  lemma TailDecides(a: Bytes, b: Bytes)
    requires a != [] && b != [] && a[0] == b[0]
    ensures Precedes(a, b) <==> Precedes(a[1..], b[1..])
  {
    if Precedes(a[1..], b[1..]) {
      var k :| 0 <= k <= |a[1..]| && DiffersAt(a[1..], b[1..], k);
      TailDiffers(a, b, k);
    }
    if Precedes(a, b) {
      var k :| 0 <= k <= |a| && DiffersAt(a, b, k);
      TailDiffers(a, b, k - 1);
    }
  }

  /** Go's < on strings. */
  lemma {:induction false} LessIff(a: Bytes, b: Bytes)
    ensures Less(a, b) <==> Precedes(a, b)
  {
    if a == [] || b == [] || a[0] != b[0] {
      HeadDecides(a, b);
    } else {
      LessIff(a[1..], b[1..]);
      TailDecides(a, b);
    }
  }

  lemma TailDiffers(a: Bytes, b: Bytes, k: nat)
    requires a != [] && b != [] && a[0] == b[0]
    ensures DiffersAt(a[1..], b[1..], k) <==> DiffersAt(a, b, k + 1)
  {
    if k < |a| && k + 1 <= |b| {
      assert a[..k + 1] == [a[0]] + a[1..][..k];
      assert b[..k + 1] == [b[0]] + b[1..][..k];
    }
  }
}
