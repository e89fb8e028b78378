/** The encoder as a function of the value, and its round trip through the decoder. */
module BencodeText {
  import opened Bytes
  import opened Bencode

  // ----- Byte-string order

  /** Go's < on strings: bytewise lexicographic, a proper prefix first. */
  predicate Less(a: Bytes, b: Bytes) {
    b != [] && (a == [] || a[0] < b[0] || (a[0] == b[0] && Less(a[1..], b[1..])))
  }

  lemma {:induction false} LessTotal(a: Bytes, b: Bytes)
    ensures a == b || Less(a, b) || Less(b, a)
    ensures !(Less(a, b) && Less(b, a)) && !Less(a, a)
  {
    if a != [] {
      LessTotal(a[1..], a[1..]);
      if b != [] && a[0] == b[0] {
        LessTotal(a[1..], b[1..]);
        assert a == [a[0]] + a[1..] && b == [b[0]] + b[1..];
      }
    }
  }

  lemma {:induction false} LessTransitive(a: Bytes, b: Bytes, c: Bytes)
    requires Less(a, b) && Less(b, c)
    ensures Less(a, c)
  {
    if a != [] && a[0] == b[0] && b[0] == c[0] {
      LessTransitive(a[1..], b[1..], c[1..]);
    }
  }

  predicate Ascending(ks: seq<Bytes>) {
    forall i, j :: 0 <= i < j < |ks| ==> Less(ks[i], ks[j])
  }

  ghost predicate IsLeast(s: set<Bytes>, k: Bytes) {
    k in s && forall x :: x in s ==> x == k || Less(k, x)
  }

  lemma {:induction false} LeastExists(s: set<Bytes>)
    requires s != {}
    ensures exists k :: IsLeast(s, k)
  {
    var x :| x in s;
    var rest := s - {x};
    if rest == {} {
      assert s == {x};
      assert IsLeast(s, x);
    } else {
      LeastExists(rest);
      var k :| IsLeast(rest, k);
      LeastOfTwo(s, x, k);
    }
  }

  lemma LeastOfTwo(s: set<Bytes>, x: Bytes, k: Bytes)
    requires x in s && IsLeast(s - {x}, k)
    ensures IsLeast(s, x) || IsLeast(s, k)
  {
    LessTotal(k, x);
    if Less(k, x) {
      assert IsLeast(s, k);
    } else {
      forall y | y in s
        ensures y == x || Less(x, y)
      {
        if y != x && y != k {
          LessTransitive(x, k, y);
        }
      }
    }
  }

  /** The keys in order. */
  ghost function SortedKeys(s: set<Bytes>): (ks: seq<Bytes>)
    ensures Ascending(ks)
    ensures forall k :: k in ks <==> k in s
    decreases |s|
  {
    if s == {} then []
    else
      LeastExists(s);
      var k :| IsLeast(s, k);
      var rest := SortedKeys(s - {k});
      assert forall i :: 0 <= i < |rest| ==> rest[i] in s - {k};
      [k] + rest
  }

  /** There is only one ascending arrangement of a set, so the order of a map's iteration cannot matter. */
  lemma {:induction false} AscendingUnique(ks: seq<Bytes>, ls: seq<Bytes>)
    requires Ascending(ks) && Ascending(ls)
    requires forall k :: k in ks <==> k in ls
    ensures ks == ls
  {
    assert ls != [] ==> ls[0] in ls;
    if ks != [] {
      assert ks[0] in ks;
      SameFirst(ks, ls);
      forall k
        ensures k in ks[1..] <==> k in ls[1..]
      {
        TailElements(ks, k);
        TailElements(ls, k);
      }
      AscendingUnique(ks[1..], ls[1..]);
      assert ks == [ks[0]] + ks[1..] && ls == [ls[0]] + ls[1..];
    }
  }

  lemma SameFirst(ks: seq<Bytes>, ls: seq<Bytes>)
    requires Ascending(ks) && Ascending(ls) && ks != [] && ls != []
    requires ks[0] in ls && (forall k :: k in ls ==> k in ks)
    ensures ks[0] == ls[0]
  {
    var i :| 0 <= i < |ls| && ls[i] == ks[0];
    assert ls[0] in ks;
    var j :| 0 <= j < |ks| && ks[j] == ls[0];
    LessTotal(ks[0], ls[0]);
  }

  lemma TailElements(ks: seq<Bytes>, k: Bytes)
    requires Ascending(ks) && ks != []
    ensures k in ks[1..] <==> k in ks && k != ks[0]
  {
    LessTotal(ks[0], ks[0]);
    if k in ks && k != ks[0] {
      var i :| 0 <= i < |ks| && ks[i] == k;
      assert ks[1..][i - 1] == k;
    }
    if k in ks[1..] {
      var i :| 0 <= i < |ks[1..]| && ks[1..][i] == k;
      assert ks[i + 1] == k;
    }
  }

  // ----- The encoding

  /** Decimal digits of n. */
  function Decimal(n: nat): (s: Bytes)
    ensures |s| > 0
  {
    if n < 10 then [(48 + n) as byte] else Decimal(n / 10) + [(48 + n % 10) as byte]
  }

  /** fmt's %d. */
  function Itoa(n: int): Bytes {
    if n < 0 then [MINUS] + Decimal(-n) else Decimal(n)
  }

  function EncodeString(s: Bytes): Bytes {
    Decimal(|s|) + [COLON] + s
  }

  ghost function Encode(v: Value): Bytes
    decreases v, 1
  {
    match v
    case Str(s) => EncodeString(s)
    case Int(n) => [INTEGER] + Itoa(n) + [END]
    case List(items) => [LIST] + EncodeItems(items) + [END]
    case Dict(m) => [DICT] + EncodeEntries(v, SortedKeys(m.Keys)) + [END]
  }

  ghost function EncodeItems(items: seq<Value>): Bytes
    decreases items, 0
  {
    if items == [] then [] else Encode(items[0]) + EncodeItems(items[1..])
  }

  /** The pairs of dictionary d for the keys listed. */
  ghost function EncodeEntries(d: Value, ks: seq<Bytes>): Bytes
    requires d.Dict? && forall k :: k in ks ==> k in d.entries
    decreases d, 0, |ks|
  {
    if ks == [] then []
    else
      assert ks[0] in ks;
      EncodeString(ks[0]) + Encode(d.entries[ks[0]]) + EncodeEntries(d, ks[1..])
  }

  /** Integers fit 64 bits, and so do the lengths of strings. */
  ghost predicate Machine(v: Value) {
    match v
    case Str(s) => |s| <= MAX_INT
    case Int(n) => MIN_INT <= n <= MAX_INT
    case List(items) => forall i :: 0 <= i < |items| ==> Machine(items[i])
    case Dict(m) => forall k :: k in m ==> |k| <= MAX_INT && Machine(m[k])
  }

  // ----- Numbers read back

  lemma {:induction false} DecimalValue(n: nat)
    ensures DigitsValue(Decimal(n)) == Some(n)
    ensures forall i :: 0 <= i < |Decimal(n)| ==> IsDigit(Decimal(n)[i])
  {
    if n >= 10 {
      DecimalValue(n / 10);
      assert Decimal(n)[..|Decimal(n)| - 1] == Decimal(n / 10);
    } else {
      assert Decimal(n)[..0] == [];
    }
  }

  lemma AtoiDecimal(n: nat)
    requires n <= MAX_INT
    ensures Atoi(Decimal(n)) == Some(n) && END !in Decimal(n)
    ensures forall i :: 0 <= i < |Decimal(n)| ==> IsDigit(Decimal(n)[i])
  {
    DecimalValue(n);
    assert IsDigit(Decimal(n)[0]);
  }

  lemma AtoiNegative(n: nat)
    requires 0 < n <= -MIN_INT
    ensures Atoi([MINUS] + Decimal(n)) == Some(-1 * n) && END !in [MINUS] + Decimal(n)
  {
    DecimalValue(n);
    var s := [MINUS] + Decimal(n);
    assert s[1..] == Decimal(n);
  }

  lemma AtoiItoa(n: int)
    requires MIN_INT <= n <= MAX_INT
    ensures Atoi(Itoa(n)) == Some(n) && END !in Itoa(n)
  {
    if n < 0 {
      AtoiNegative(-n);
    } else {
      AtoiDecimal(n);
    }
  }

  lemma {:induction false} LengthReads(digits: Bytes, rest: Bytes, k: nat)
    requires k <= |digits| && forall i :: 0 <= i < |digits| ==> IsDigit(digits[i])
    requires Atoi(digits).Some? && Atoi(digits).value >= 0
    ensures ParseLength(digits + [COLON] + rest, k) == Ok(Atoi(digits).value, |digits| + 1)
    decreases |digits| - k
  {
    var s := digits + [COLON] + rest;
    if k == |digits| {
      assert s[..k] == digits && s[k] == COLON;
    } else {
      assert s[k] == digits[k] && IsDigit(s[k]);
      LengthReads(digits, rest, k + 1);
    }
  }

  lemma {:induction false} NumberReads(digits: Bytes, rest: Bytes, k: nat)
    requires k <= |digits| && END !in digits && Atoi(digits).Some?
    ensures ParseNumber(digits + [END] + rest, k) == Ok(Atoi(digits).value, |digits| + 1)
    decreases |digits| - k
  {
    var s := digits + [END] + rest;
    if k == |digits| {
      assert s[..k] == digits && s[k] == END;
    } else {
      assert s[k] == digits[k] && digits[k] in digits;
      NumberReads(digits, rest, k + 1);
    }
  }

  lemma StringReads(str: Bytes, rest: Bytes)
    requires |str| <= MAX_INT
    ensures ParseString(EncodeString(str) + rest) == Ok(str, |EncodeString(str)|)
    ensures IsDigit(EncodeString(str)[0])
  {
    var digits := Decimal(|str|);
    AtoiDecimal(|str|);
    LengthReads(digits, str + rest, 0);
    var s := EncodeString(str) + rest;
    assert s == digits + [COLON] + (str + rest);
    var k := |digits| + 1;
    assert s[k..k + |str|] == str;
    assert EncodeString(str)[0] == digits[0];
  }

  lemma IntegerReads(n: int, rest: Bytes)
    requires MIN_INT <= n <= MAX_INT
    ensures ParseValue([INTEGER] + Itoa(n) + [END] + rest) == Ok(Int(n), |Itoa(n)| + 2)
  {
    AtoiItoa(n);
    NumberReads(Itoa(n), rest, 0);
    var s := [INTEGER] + Itoa(n) + [END] + rest;
    assert s[1..] == Itoa(n) + [END] + rest;
  }

  // ----- Everything reads back

  /** Whatever follows, text reads as v and no further. */
  ghost predicate Reads(v: Value, text: Bytes) {
    forall rest :: ParseValue(text + rest) == Ok(v, |text|)
  }

  ghost predicate ReadsItems(vs: seq<Value>, body: Bytes) {
    forall rest :: ParseItems(body + [END] + rest) == Ok(vs, |body| + 1)
  }

  ghost predicate ReadsEntries(es: seq<Entry>, body: Bytes) {
    forall rest :: ParseEntries(body + [END] + rest) == Ok(es, |body| + 1)
  }

  /** An encoding does not start like the end of a list. */
  lemma EncodingStarts(v: Value)
    requires Machine(v)
    ensures |Encode(v)| > 0 && Encode(v)[0] != END
  {
    if v.Str? {
      StringReads(v.str, []);
    }
  }

  lemma {:induction false} EncodingReads(v: Value)
    requires Machine(v)
    ensures Reads(v, Encode(v))
    decreases v, 1
  {
    match v
    case Str(str) => StrReads(str);
    case Int(n) => IntReads(n);
    case List(items) =>
      ItemsRead(items);
      ListReads(items, EncodeItems(items));
    case Dict(m) =>
      var ks := SortedKeys(m.Keys);
      EntriesRead(v, ks);
      EntriesAreMap(v, ks);
      DictReads(Listed(v, ks), EncodeEntries(v, ks));
  }

  lemma StrReads(str: Bytes)
    requires |str| <= MAX_INT
    ensures Reads(Str(str), EncodeString(str))
  {
    forall rest
      ensures ParseValue(EncodeString(str) + rest) == Ok(Str(str), |EncodeString(str)|)
    {
      StringReads(str, rest);
      assert (EncodeString(str) + rest)[0] == EncodeString(str)[0];
    }
  }

  lemma IntReads(n: int)
    requires MIN_INT <= n <= MAX_INT
    ensures Reads(Int(n), [INTEGER] + Itoa(n) + [END])
  {
    forall rest
      ensures ParseValue([INTEGER] + Itoa(n) + [END] + rest) == Ok(Int(n), |Itoa(n)| + 2)
    {
      IntegerReads(n, rest);
    }
  }

  lemma ListReads(items: seq<Value>, body: Bytes)
    requires ReadsItems(items, body)
    ensures Reads(List(items), [LIST] + body + [END])
  {
    forall rest
      ensures ParseValue([LIST] + body + [END] + rest) == Ok(List(items), |body| + 2)
    {
      assert ([LIST] + body + [END] + rest)[1..] == body + [END] + rest;
    }
  }

  lemma DictReads(es: seq<Entry>, body: Bytes)
    requires ReadsEntries(es, body)
    ensures Reads(Dict(Values(es)), [DICT] + body + [END])
  {
    forall rest
      ensures ParseValue([DICT] + body + [END] + rest) == Ok(Dict(Values(es)), |body| + 2)
    {
      assert ([DICT] + body + [END] + rest)[1..] == body + [END] + rest;
    }
  }

  lemma {:induction false} ItemsRead(items: seq<Value>)
    requires forall i :: 0 <= i < |items| ==> Machine(items[i])
    ensures ReadsItems(items, EncodeItems(items))
    decreases items, 0
  {
    if items == [] {
      NoItemsRead();
    } else {
      EncodingReads(items[0]);
      EncodingStarts(items[0]);
      ItemsRead(items[1..]);
      ItemReads(items[0], Encode(items[0]), items[1..], EncodeItems(items[1..]));
      assert [items[0]] + items[1..] == items;
    }
  }

  lemma NoItemsRead()
    ensures ReadsItems([], []) && ReadsEntries([], [])
  {
    forall rest: Bytes
      ensures ParseItems([] + [END] + rest) == Ok([], 1) && ParseEntries([] + [END] + rest) == Ok([], 1)
    {
      assert [] + [END] + rest == [END] + rest;
    }
  }

  lemma ItemReads(v: Value, first: Bytes, vs: seq<Value>, body: Bytes)
    requires first != [] && first[0] != END && Reads(v, first) && ReadsItems(vs, body)
    ensures ReadsItems([v] + vs, first + body)
  {
    forall rest
      ensures ParseItems(first + body + [END] + rest) == Ok([v] + vs, |first + body| + 1)
    {
      var tail := body + [END] + rest;
      var s := first + tail;
      assert first + body + [END] + rest == s;
      assert ParseValue(s) == Ok(v, |first|);
      assert s[|first|..] == tail;
    }
  }

  /** The entries of dictionary d for the keys listed, as the decoder sees them. */
  ghost function Listed(d: Value, ks: seq<Bytes>): seq<Entry>
    requires d.Dict? && forall k :: k in ks ==> k in d.entries
  {
    seq(|ks|, i requires 0 <= i < |ks| => assert ks[i] in ks; Entry(ks[i], d.entries[ks[i]], Encode(d.entries[ks[i]])))
  }

  lemma {:induction false} EntriesRead(d: Value, ks: seq<Bytes>)
    requires d.Dict? && Machine(d) && forall k :: k in ks ==> k in d.entries
    ensures ReadsEntries(Listed(d, ks), EncodeEntries(d, ks))
    decreases d, 0, |ks|
  {
    if ks == [] {
      NoItemsRead();
      assert Listed(d, ks) == [];
    } else {
      assert ks[0] in ks;
      var v := d.entries[ks[0]];
      EncodingReads(v);
      EntriesRead(d, ks[1..]);
      EntryReads(ks[0], v, Encode(v), Listed(d, ks[1..]), EncodeEntries(d, ks[1..]));
      ListedCons(d, ks);
    }
  }

  lemma ListedCons(d: Value, ks: seq<Bytes>)
    requires d.Dict? && ks != [] && forall k :: k in ks ==> k in d.entries
    ensures ks[0] in ks && Listed(d, ks) == [Entry(ks[0], d.entries[ks[0]], Encode(d.entries[ks[0]]))] +
            Listed(d, ks[1..])
  {
  }

  lemma EntryReads(key: Bytes, v: Value, text: Bytes, es: seq<Entry>, body: Bytes)
    requires |key| <= MAX_INT && Reads(v, text) && ReadsEntries(es, body)
    ensures ReadsEntries([Entry(key, v, text)] + es, EncodeString(key) + text + body)
  {
    forall rest
      ensures ParseEntries(EncodeString(key) + text + body + [END] + rest) ==
              Ok([Entry(key, v, text)] + es, |EncodeString(key) + text + body| + 1)
    {
      OneEntryReads(key, v, text, body + [END] + rest);
      EntryThenRest(EncodeString(key), text, body, rest, Entry(key, v, text), es);
    }
  }

  lemma EntryThenRest(k: Bytes, text: Bytes, body: Bytes, rest: Bytes, e: Entry, es: seq<Entry>)
    requires k != [] && k[0] != END && ParseEntry(k + (text + (body + [END] + rest))) == Ok(e, |k| + |text|)
    requires ParseEntries(body + [END] + rest) == Ok(es, |body| + 1)
    ensures ParseEntries(k + text + body + [END] + rest) == Ok([e] + es, |k + text + body| + 1)
  {
    Grouped(k, text, body, [END], rest);
    EntryThen(k, text, body + [END] + rest, e, es, |body| + 1);
  }

  lemma Grouped(a: Bytes, b: Bytes, c: Bytes, d: Bytes, e: Bytes)
    ensures a + b + c + d + e == a + (b + (c + d + e))
  {
  }

  lemma EntryThen(k: Bytes, text: Bytes, tail: Bytes, e: Entry, es: seq<Entry>, m: nat)
    requires k != [] && k[0] != END && ParseEntry(k + (text + tail)) == Ok(e, |k| + |text|) &&
             ParseEntries(tail) == Ok(es, m)
    ensures ParseEntries(k + (text + tail)) == Ok([e] + es, |k| + |text| + m)
  {
    EntrySplit(k, text, tail);
    EntryAndMore(k + (text + tail), e, |k| + |text|, es, m);
  }

  lemma EntrySplit(k: Bytes, text: Bytes, tail: Bytes)
    requires k != []
    ensures var s := k + (text + tail); s != [] && s[0] == k[0] && |k| + |text| <= |s| && s[|k| + |text|..] == tail
  {
  }

  lemma EntryAndMore(s: Bytes, e: Entry, n: nat, es: seq<Entry>, m: nat)
    requires s != [] && s[0] != END && n <= |s| && ParseEntry(s) == Ok(e, n) && ParseEntries(s[n..]) == Ok(es, m)
    ensures ParseEntries(s) == Ok([e] + es, n + m)
  {
    EntriesCons(s, e, n);
  }

  lemma OneEntryReads(key: Bytes, v: Value, text: Bytes, tail: Bytes)
    requires |key| <= MAX_INT && Reads(v, text)
    ensures EncodeString(key) != [] && EncodeString(key)[0] != END
    ensures ParseEntry(EncodeString(key) + (text + tail)) == Ok(Entry(key, v, text), |EncodeString(key)| + |text|)
  {
    var s := EncodeString(key) + (text + tail);
    var k := |EncodeString(key)|;
    StringReads(key, text + tail);
    assert s[0] == EncodeString(key)[0];
    assert s[k..] == text + tail && s[k..k + |text|] == text;
  }

  /**
   * Round trip with suffix: the encoding followed by anything decodes to the value, and the cursor stops
   * exactly at the end of the encoding.
   */
  lemma RoundTrip(v: Value, rest: Bytes)
    requires Machine(v)
    ensures ParseValue(Encode(v) + rest) == Ok(v, |Encode(v)|)
  {
    EncodingReads(v);
  }

  lemma {:induction false} ValuesOfListed(d: Value, ks: seq<Bytes>)
    requires d.Dict? && (forall k :: k in ks ==> k in d.entries) && Ascending(ks)
    ensures forall k :: k in Values(Listed(d, ks)) <==> k in ks
    ensures forall k :: k in ks ==> Values(Listed(d, ks))[k] == d.entries[k]
  {
    if ks != [] {
      var init, last := ks[..|ks| - 1], ks[|ks| - 1];
      assert ks == init + [last];
      assert last in ks;
      ValuesOfListed(d, init);
      ValuesAppend(d, init, last);
    }
  }

  lemma ValuesAppend(d: Value, ks: seq<Bytes>, k: Bytes)
    requires d.Dict? && k in d.entries && forall x :: x in ks ==> x in d.entries
    ensures (forall x :: x in ks + [k] ==> x in d.entries)
    ensures Values(Listed(d, ks + [k])) == Values(Listed(d, ks))[k := d.entries[k]]
  {
    var all := Listed(d, ks + [k]);
    assert all[..|ks|] == Listed(d, ks);
  }

  lemma EntriesAreMap(d: Value, ks: seq<Bytes>)
    requires d.Dict? && Ascending(ks) && forall k :: k in ks <==> k in d.entries
    ensures Values(Listed(d, ks)) == d.entries
  {
    ValuesOfListed(d, ks);
  }

  /** Different values have different encodings, and no encoding is the beginning of another. */
  lemma EncodingUnique(v: Value, w: Value, rest: Bytes)
    requires Machine(v) && Machine(w) && Encode(v) + rest == Encode(w)
    ensures v == w && rest == []
  {
    RoundTrip(v, rest);
    RoundTrip(w, []);
    assert Encode(w) + [] == Encode(w);
  }
}
