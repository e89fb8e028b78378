/** Bencoded values: what the decoder accepts, as a parser of byte strings. */
module Bencode {
  import opened Bytes

  datatype Value = Str(str: Bytes) | Int(n: int) | List(items: seq<Value>) | Dict(entries: map<Bytes, Value>)

  const MAX_INT: int := 0x7FFF_FFFF_FFFF_FFFF
  const MIN_INT: int := -0x8000_0000_0000_0000

  const COLON: byte := 58
  const MINUS: byte := 45
  const PLUS: byte := 43
  const END: byte := 101
  const INTEGER: byte := 105
  const LIST: byte := 108
  const DICT: byte := 100

  datatype Error =
    | UnexpectedEnd
    | BadLength
    | MissingColon
    | NotANumber
    | LengthExceedsData
    | UnterminatedInteger
    | UnterminatedList
    | UnterminatedDict
    | KeyNotString
    | Unsupported

  /** A value and the number of bytes it took, or the reason there is none. */
  datatype Parsed<+T> = Ok(value: T, used: nat) | Err(error: Error)

  // ----- Numbers

  predicate IsDigit(b: byte) {
    48 <= b <= 57
  }

  /** The value of a string of digits; the empty string counts as 0. */
  function DigitsValue(s: Bytes): Option<nat> {
    if s == [] then Some(0)
    else match DigitsValue(s[..|s| - 1])
      case None => None
      case Some(v) => if IsDigit(s[|s| - 1]) then Some(v * 10 + (s[|s| - 1] as int - 48)) else None
  }

  /** strconv.Atoi: an optional sign, at least one digit, and a value that fits 64 bits. */
  function Atoi(s: Bytes): (r: Option<int>)
    ensures r.Some? ==> MIN_INT <= r.value <= MAX_INT
  {
    var signed := s != [] && (s[0] == MINUS || s[0] == PLUS);
    var digits := if signed then s[1..] else s;
    if digits == [] then None
    else match DigitsValue(digits)
      case None => None
      case Some(v) =>
        var sign: int := if signed && s[0] == MINUS then -1 else 1;
        var n := sign * v;
        if MIN_INT <= n <= MAX_INT then Some(n) else None
  }

  // ----- The grammar

  /** The length before the colon of a string, when the first k bytes are known to be digits; with the colon. */
  function ParseLength(s: Bytes, k: nat): (r: Parsed<nat>)
    requires k <= |s|
    ensures r.Ok? ==> k < r.used <= |s|
    decreases |s| - k
  {
    if k == |s| then Err(MissingColon)
    else if s[k] == COLON then
      match Atoi(s[..k])
      case None => Err(NotANumber)
      case Some(length) => if length < 0 then Err(NotANumber) else Ok(length, k + 1)
    else if !IsDigit(s[k]) then Err(BadLength)
    else ParseLength(s, k + 1)
  }

  function ParseString(s: Bytes): (r: Parsed<Bytes>)
    ensures r.Ok? ==> 1 <= r.used <= |s|
  {
    match ParseLength(s, 0)
    case Err(e) => Err(e)
    case Ok(length, k) => if k + length > |s| then Err(LengthExceedsData) else Ok(s[k..k + length], k + length)
  }

  /** The number up to the next 'e', k bytes of which have been passed; with the 'e'. */
  function ParseNumber(s: Bytes, k: nat): (r: Parsed<int>)
    requires k <= |s|
    ensures r.Ok? ==> k < r.used <= |s|
    decreases |s| - k
  {
    if k == |s| then Err(UnterminatedInteger)
    else if s[k] == END then
      match Atoi(s[..k])
      case None => Err(NotANumber)
      case Some(n) => Ok(n, k + 1)
    else ParseNumber(s, k + 1)
  }

  /** DecodeInteger: the first byte is skipped unseen. */
  function ParseInteger(s: Bytes): (r: Parsed<int>)
    ensures r.Ok? ==> 2 <= r.used <= |s|
  {
    if s == [] then Err(UnterminatedInteger)
    else match ParseNumber(s[1..], 0)
      case Err(e) => Err(e)
      case Ok(n, k) => Ok(n, k + 1)
  }

  function ParseValue(s: Bytes): (r: Parsed<Value>)
    ensures r.Ok? ==> 1 <= r.used <= |s|
    decreases |s|, 1
  {
    if s == [] then Err(UnexpectedEnd)
    else if IsDigit(s[0]) then
      match ParseString(s)
      case Err(e) => Err(e)
      case Ok(v, n) => Ok(Str(v), n)
    else if s[0] == INTEGER then
      match ParseInteger(s)
      case Err(e) => Err(e)
      case Ok(v, n) => Ok(Int(v), n)
    else if s[0] == LIST then
      match ParseItems(s[1..])
      case Err(e) => Err(e)
      case Ok(v, n) => Ok(List(v), n + 1)
    else if s[0] == DICT then
      match ParseEntries(s[1..])
      case Err(e) => Err(e)
      case Ok(v, n) => Ok(Dict(Values(v)), n + 1)
    else Err(Unsupported)
  }

  /** Values up to the closing 'e'. */
  function ParseItems(s: Bytes): (r: Parsed<seq<Value>>)
    ensures r.Ok? ==> 1 <= r.used <= |s|
    decreases |s|, 2
  {
    if s == [] then Err(UnterminatedList)
    else if s[0] == END then Ok([], 1)
    else match ParseValue(s)
      case Err(e) => Err(e)
      case Ok(v, n) =>
        match ParseItems(s[n..])
        case Err(e) => Err(e)
        case Ok(vs, m) => Ok([v] + vs, n + m)
  }

  /** A key with its value and the bytes the value was read from. */
  datatype Entry = Entry(key: Bytes, value: Value, raw: Bytes)

  /** A key, which must be a string, and its value. */
  function ParseEntry(s: Bytes): (r: Parsed<Entry>)
    ensures r.Ok? ==> 1 <= r.used <= |s|
    decreases |s|, 2
  {
    if s == [] || !IsDigit(s[0]) then Err(KeyNotString)
    else match ParseString(s)
      case Err(e) => Err(e)
      case Ok(key, k) =>
        match ParseValue(s[k..])
        case Err(e) => Err(e)
        case Ok(v, n) => Ok(Entry(key, v, s[k..k + n]), k + n)
  }

  /** Entries up to the closing 'e'. */
  function ParseEntries(s: Bytes): (r: Parsed<seq<Entry>>)
    ensures r.Ok? ==> 1 <= r.used <= |s|
    decreases |s|, 3
  {
    if s == [] then Err(UnterminatedDict)
    else if s[0] == END then Ok([], 1)
    else match ParseEntry(s)
      case Err(e) => Err(e)
      case Ok(entry, n) =>
        match ParseEntries(s[n..])
        case Err(e) => Err(e)
        case Ok(es, m) => Ok([entry] + es, n + m)
  }

  /** One more value in front of what follows. */
  function Cons<T>(x: T, n: nat, rest: Parsed<seq<T>>): Parsed<seq<T>> {
    match rest
    case Ok(more, m) => Ok([x] + more, n + m)
    case Err(e) => Err(e)
  }

  lemma ItemsCons(s: Bytes, v: Value, n: nat)
    requires s != [] && s[0] != END && n <= |s| && ParseValue(s) == Ok(v, n)
    ensures ParseItems(s) == Cons(v, n, ParseItems(s[n..]))
  {
  }

  lemma EntriesCons(s: Bytes, e: Entry, n: nat)
    requires s != [] && s[0] != END && n <= |s| && ParseEntry(s) == Ok(e, n)
    ensures ParseEntries(s) == Cons(e, n, ParseEntries(s[n..]))
  {
  }

  /** The map that assigning the entries in order leaves: a later entry replaces an earlier one. */
  function Values(es: seq<Entry>): map<Bytes, Value> {
    if es == [] then map[] else
      var last := es[|es| - 1];
      Values(es[..|es| - 1])[last.key := last.value]
  }

  function Raws(es: seq<Entry>): map<Bytes, Bytes> {
    if es == [] then map[] else
      var last := es[|es| - 1];
      Raws(es[..|es| - 1])[last.key := last.raw]
  }

  /** DecodeDict: the first byte is skipped unseen. */
  function ParseDict(s: Bytes): (r: Parsed<seq<Entry>>)
    ensures r.Ok? ==> 2 <= r.used <= |s|
  {
    if s == [] then Err(UnterminatedDict)
    else match ParseEntries(s[1..])
      case Err(e) => Err(e)
      case Ok(es, n) => Ok(es, n + 1)
  }

  // ----- Locality: only the bytes used matter

  /** s and t start with the same n bytes. */
  predicate Agree(s: Bytes, t: Bytes, n: nat) {
    n <= |s| && n <= |t| && s[..n] == t[..n]
  }

  lemma AgreeTail(s: Bytes, t: Bytes, n: nat, k: nat)
    requires Agree(s, t, n) && k <= n
    ensures Agree(s[k..], t[k..], n - k)
    ensures forall i, j :: 0 <= i <= j <= n ==> s[i..j] == t[i..j]
    ensures forall i :: 0 <= i < n ==> s[i] == t[i]
  {
    forall i | 0 <= i < n
      ensures s[i] == t[i]
    {
      assert s[i] == s[..n][i] == t[..n][i];
    }
    assert s[k..][..n - k] == s[k..n];
    assert t[k..][..n - k] == t[k..n];
  }

  lemma {:induction false} LengthLocal(s: Bytes, t: Bytes, k: nat)
    requires k <= |s| && ParseLength(s, k).Ok? && Agree(s, t, ParseLength(s, k).used)
    ensures ParseLength(t, k) == ParseLength(s, k)
    decreases |s| - k
  {
    AgreeTail(s, t, ParseLength(s, k).used, k);
    if s[k] == COLON {
      assert s[..k] == s[0..k] && t[..k] == t[0..k];
    } else {
      LengthLocal(s, t, k + 1);
    }
  }

  lemma {:induction false} NumberLocal(s: Bytes, t: Bytes, k: nat)
    requires k <= |s| && ParseNumber(s, k).Ok? && Agree(s, t, ParseNumber(s, k).used)
    ensures ParseNumber(t, k) == ParseNumber(s, k)
    decreases |s| - k
  {
    AgreeTail(s, t, ParseNumber(s, k).used, k);
    if s[k] == END {
      assert s[..k] == s[0..k] && t[..k] == t[0..k];
    } else {
      NumberLocal(s, t, k + 1);
    }
  }

  lemma StringLocal(s: Bytes, t: Bytes)
    requires ParseString(s).Ok? && Agree(s, t, ParseString(s).used)
    ensures ParseString(t) == ParseString(s)
  {
    var n, k := ParseString(s).used, ParseLength(s, 0).used;
    AgreeTail(s, t, n, k);
    PrefixAgrees(s, t, n, k);
    LengthLocal(s, t, 0);
  }

  lemma IntegerLocal(s: Bytes, t: Bytes)
    requires ParseInteger(s).Ok? && Agree(s, t, ParseInteger(s).used)
    ensures ParseInteger(t) == ParseInteger(s)
  {
    AgreeTail(s, t, ParseInteger(s).used, 1);
    NumberLocal(s[1..], t[1..], 0);
  }

  /** A successful parse depends only on the bytes it used: whatever follows them may be replaced. */
  lemma {:induction false} ValueLocal(s: Bytes, t: Bytes)
    requires ParseValue(s).Ok? && Agree(s, t, ParseValue(s).used)
    ensures ParseValue(t) == ParseValue(s)
    decreases |s|, 1
  {
    var n := ParseValue(s).used;
    AgreeTail(s, t, n, 1);
    if IsDigit(s[0]) {
      StringLocal(s, t);
    } else if s[0] == INTEGER {
      IntegerLocal(s, t);
    } else if s[0] == LIST {
      ItemsLocal(s[1..], t[1..]);
    } else {
      EntriesLocal(s[1..], t[1..]);
    }
  }

  lemma {:induction false} ItemsLocal(s: Bytes, t: Bytes)
    requires ParseItems(s).Ok? && Agree(s, t, ParseItems(s).used)
    ensures ParseItems(t) == ParseItems(s)
    decreases |s|, 2
  {
    var n := ParseItems(s).used;
    AgreeTail(s, t, n, 0);
    if s[0] != END {
      var k := ParseValue(s).used;
      AgreeTail(s, t, n, k);
      assert s[..k] == s[0..k] && t[..k] == t[0..k];
      ValueLocal(s, t);
      ItemsLocal(s[k..], t[k..]);
    }
  }

  lemma {:induction false} EntryLocal(s: Bytes, t: Bytes)
    requires ParseEntry(s).Ok? && Agree(s, t, ParseEntry(s).used)
    ensures ParseEntry(t) == ParseEntry(s)
    decreases |s|, 2
  {
    var n, k := ParseEntry(s).used, ParseString(s).used;
    AgreeTail(s, t, n, k);
    PrefixAgrees(s, t, n, k);
    StringLocal(s, t);
    ValueLocal(s[k..], t[k..]);
  }

  lemma {:induction false} EntriesLocal(s: Bytes, t: Bytes)
    requires ParseEntries(s).Ok? && Agree(s, t, ParseEntries(s).used)
    ensures ParseEntries(t) == ParseEntries(s)
    decreases |s|, 3
  {
    var n := ParseEntries(s).used;
    AgreeTail(s, t, n, 0);
    if s[0] != END {
      var k := ParseEntry(s).used;
      AgreeTail(s, t, n, k);
      PrefixAgrees(s, t, n, k);
      EntryLocal(s, t);
      EntriesLocal(s[k..], t[k..]);
    }
  }

  lemma PrefixAgrees(s: Bytes, t: Bytes, n: nat, k: nat)
    requires Agree(s, t, n) && k <= n
    ensures Agree(s, t, k)
  {
    assert s[..k] == s[..n][..k] && t[..k] == t[..n][..k];
  }

  lemma DictLocal(s: Bytes, t: Bytes)
    requires ParseDict(s).Ok? && Agree(s, t, ParseDict(s).used)
    ensures ParseDict(t) == ParseDict(s)
  {
    AgreeTail(s, t, ParseDict(s).used, 1);
    EntriesLocal(s[1..], t[1..]);
  }

  /** Appending bytes does not change a successful parse. */
  lemma SuffixIrrelevant(s: Bytes, suffix: Bytes)
    requires ParseValue(s).Ok?
    ensures ParseValue(s + suffix) == ParseValue(s)
  {
    var n := ParseValue(s).used;
    assert (s + suffix)[..n] == s[..n];
    ValueLocal(s, s + suffix);
  }

  /** The bytes a value was read from are, alone, that value and nothing more. */
  lemma UsedBytesSuffice(s: Bytes)
    requires ParseValue(s).Ok?
    ensures ParseValue(s[..ParseValue(s).used]) == ParseValue(s)
  {
    var n := ParseValue(s).used;
    assert s[..n][..n] == s[..n];
    ValueLocal(s, s[..n]);
  }

  /** Each entry keeps exactly the bytes of its value. */
  lemma {:induction false} EntriesRaw(s: Bytes, i: nat)
    requires ParseEntries(s).Ok? && i < |ParseEntries(s).value|
    ensures var e := ParseEntries(s).value[i]; ParseValue(e.raw) == Ok(e.value, |e.raw|)
    decreases |s|
  {
    var n := ParseEntry(s).used;
    if i == 0 {
      EntryRaw(s);
    } else {
      EntriesRaw(s[n..], i - 1);
    }
  }

  lemma EntryRaw(s: Bytes)
    requires ParseEntry(s).Ok?
    ensures var e := ParseEntry(s).value; ParseValue(e.raw) == Ok(e.value, |e.raw|)
  {
    var k := ParseString(s).used;
    UsedBytesSuffice(s[k..]);
    assert s[k..][..ParseValue(s[k..]).used] == s[k..ParseEntry(s).used];
  }

  lemma {:induction false} RawMatches(es: seq<Entry>)
    requires forall i :: 0 <= i < |es| ==> ParseValue(es[i].raw) == Ok(es[i].value, |es[i].raw|)
    ensures Values(es).Keys == Raws(es).Keys
    ensures forall k :: k in Raws(es) ==> ParseValue(Raws(es)[k]) == Ok(Values(es)[k], |Raws(es)[k]|)
  {
    if es != [] {
      RawMatches(es[..|es| - 1]);
    }
  }

  /** Decoding again any raw slice kept by the dictionary decoder gives the value in the map and uses all of it. */
  lemma RawSlicesDecode(s: Bytes, key: Bytes)
    requires ParseDict(s).Ok?
    ensures var es := ParseDict(s).value;
            (key in Raws(es) <==> key in Values(es)) &&
            (key in Raws(es) ==> ParseValue(Raws(es)[key]) == Ok(Values(es)[key], |Raws(es)[key]|))
  {
    var es := ParseDict(s).value;
    forall i | 0 <= i < |es|
      ensures ParseValue(es[i].raw) == Ok(es[i].value, |es[i].raw|)
    {
      EntriesRaw(s[1..], i);
    }
    RawMatches(es);
  }
}
