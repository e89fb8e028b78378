/** The cursor decoder: loops that advance a position, proved against the parser. */
module BencodeDecoder {
  import opened Bytes
  import opened Bencode

  datatype Result<+T> = Decoded(value: T) | Failed(error: Error)

  /** What a decoder call at pos must return, and where it must leave the cursor. */
  ghost predicate Matches<T>(p: Parsed<T>, pos: nat, r: Result<T>, pos': nat) {
    match p
    case Ok(v, n) => r == Decoded(v) && pos' == pos + n
    case Err(e) => r == Failed(e)
  }

  method DecodeString(input: Bytes, pos0: nat) returns (r: Result<Bytes>, pos: nat)
    requires pos0 <= |input|
    ensures Matches(ParseString(input[pos0..]), pos0, r, pos)
    ensures pos <= |input|
  {
    ghost var s := input[pos0..];
    pos := pos0;
    while pos < |input| && input[pos] != COLON
      invariant pos0 <= pos <= |input|
      invariant ParseLength(s, 0) == ParseLength(s, pos - pos0)
    {
      if !IsDigit(input[pos]) {
        return Failed(BadLength), pos;
      }
      pos := pos + 1;
    }
    if pos >= |input| {
      return Failed(MissingColon), pos;
    }
    assert s[..pos - pos0] == input[pos0..pos];
    var length := Atoi(input[pos0..pos]);
    if length.None? || length.value < 0 {
      return Failed(NotANumber), pos;
    }
    pos := pos + 1;
    if pos + length.value > |input| {
      return Failed(LengthExceedsData), pos;
    }
    r := Decoded(input[pos..pos + length.value]);
    assert s[pos - pos0..pos - pos0 + length.value] == input[pos..pos + length.value];
    pos := pos + length.value;
  }

  method DecodeInteger(input: Bytes, pos0: nat) returns (r: Result<int>, pos: nat)
    requires pos0 <= |input|
    ensures Matches(ParseInteger(input[pos0..]), pos0, r, pos)
    ensures pos0 < |input| ==> pos <= |input|
  {
    pos := pos0 + 1;
    if pos > |input| {
      return Failed(UnterminatedInteger), pos;
    }
    var start := pos;
    ghost var s := input[start..];
    assert input[pos0..][1..] == s;
    while pos < |input| && input[pos] != END
      invariant start <= pos <= |input|
      invariant ParseNumber(s, 0) == ParseNumber(s, pos - start)
    {
      pos := pos + 1;
    }
    if pos >= |input| {
      return Failed(UnterminatedInteger), pos;
    }
    assert s[..pos - start] == input[start..pos];
    var number := Atoi(input[start..pos]);
    if number.None? {
      return Failed(NotANumber), pos;
    }
    pos := pos + 1;
    r := Decoded(number.value);
  }

  /** The parse of a whole whose first part has been read: `done` values, n bytes. */
  function After<T>(done: seq<T>, n: nat, rest: Parsed<seq<T>>): Parsed<seq<T>> {
    match rest
    case Ok(more, m) => Ok(done + more, n + m)
    case Err(e) => Err(e)
  }

  lemma AfterNothing<T>(p: Parsed<seq<T>>)
    ensures After([], 0, p) == p
  {
    match p
    case Ok(more, m) => assert [] + more == more;
    case Err(e) =>
  }

  lemma AfterLast<T>(done: seq<T>, n: nat)
    ensures After(done, n, Ok([], 1)) == Ok(done, n + 1)
  {
    assert done + [] == done;
  }

  method DecodeList(input: Bytes, pos0: nat) returns (r: Result<seq<Value>>, pos: nat)
    requires pos0 <= |input|
    ensures if pos0 == |input| then r == Failed(UnterminatedList)
            else Matches(ParseItems(input[pos0 + 1..]), pos0 + 1, r, pos)
    ensures pos0 < |input| ==> pos <= |input|
    decreases |input| - pos0, 1
  {
    pos := pos0 + 1;
    if pos > |input| {
      return Failed(UnterminatedList), pos;
    }
    var result: seq<Value> := [];
    ghost var s := input[pos0 + 1..];
    AfterNothing(ParseItems(s));
    while pos < |input|
      invariant pos0 < pos <= |input|
      invariant ParseItems(s) == After(result, pos - pos0 - 1, ParseItems(input[pos..]))
    {
      if input[pos] == END {
        AfterLast(result, pos - pos0 - 1);
        pos := pos + 1;
        return Decoded(result), pos;
      }
      ghost var before, p := result, pos;
      var value;
      value, pos := DecodeValue(input, pos);
      if value.Failed? {
        return Failed(value.error), pos;
      }
      ItemStep(ParseItems(s), input, before, p, value.value, pos, pos0 + 1);
      result := result + [value.value];
    }
    return Failed(UnterminatedList), pos;
  }

  lemma AfterCons<T>(done: seq<T>, n: nat, x: T, k: nat, rest: Parsed<seq<T>>)
    ensures After(done, n, Cons(x, k, rest)) == After(done + [x], n + k, rest)
  {
    if rest.Ok? {
      Associative(done, [x], rest.value);
    }
  }

  lemma ItemStep(whole: Parsed<seq<Value>>, input: Bytes, done: seq<Value>, p: nat, v: Value, pos: nat, start: nat)
    requires start <= p < |input| && input[p] != END && p <= pos <= |input|
    requires whole == After(done, p - start, ParseItems(input[p..]))
    requires ParseValue(input[p..]) == Ok(v, pos - p)
    ensures whole == After(done + [v], pos - start, ParseItems(input[pos..]))
  {
    assert input[p..][pos - p..] == input[pos..];
    ItemsCons(input[p..], v, pos - p);
    AfterCons(done, p - start, v, pos - p, ParseItems(input[pos..]));
  }

  /** Returns the parsed map and the raw bytes of each value, and leaves the cursor after the dictionary. */
  method DecodeDict(input: Bytes, pos0: nat) returns (r: Result<map<Bytes, Value>>, raw: map<Bytes, Bytes>, pos: nat)
    requires pos0 <= |input|
    ensures match ParseDict(input[pos0..])
            case Ok(es, n) => r == Decoded(Values(es)) && raw == Raws(es) && pos == pos0 + n
            case Err(e) => r == Failed(e)
    ensures pos0 < |input| ==> pos <= |input|
    decreases |input| - pos0, 1, 1
  {
    pos := pos0 + 1;
    if pos > |input| {
      return Failed(UnterminatedDict), map[], pos;
    }
    assert input[pos0..][1..] == input[pos..];
    r, raw, pos := DecodeEntries(input, pos);
  }

  /** The loop over the entries, from just after the opening byte. */
  method DecodeEntries(input: Bytes, pos0: nat) returns (r: Result<map<Bytes, Value>>, raw: map<Bytes, Bytes>, pos: nat)
    requires pos0 <= |input|
    ensures match ParseEntries(input[pos0..])
            case Ok(es, n) => r == Decoded(Values(es)) && raw == Raws(es) && pos == pos0 + n
            case Err(e) => r == Failed(e)
    ensures pos <= |input|
    decreases |input| - pos0, 3
  {
    pos := pos0;
    var result: map<Bytes, Value>, rawValues: map<Bytes, Bytes> := map[], map[];
    ghost var s, es := input[pos..], [];
    AfterNothing(ParseEntries(s));
    while pos < |input|
      invariant pos0 <= pos <= |input|
      invariant result == Values(es) && rawValues == Raws(es)
      invariant ParseEntries(s) == After(es, pos - pos0, ParseEntries(input[pos..]))
    {
      if input[pos] == END {
        AfterLast(es, pos - pos0);
        pos := pos + 1;
        return Decoded(result), rawValues, pos;
      }
      ghost var before, p := es, pos;
      var entry;
      entry, pos := DecodeEntry(input, pos);
      if entry.Failed? {
        return Failed(entry.error), map[], pos;
      }
      EntryStep(ParseEntries(s), input, before, p, entry.value, pos, pos0);
      result := result[entry.value.key := entry.value.value];
      rawValues := rawValues[entry.value.key := entry.value.raw];
      es := es + [entry.value];
      assert es[..|es| - 1] == before;
    }
    return Failed(UnterminatedDict), map[], pos;
  }

  lemma EntryStep(whole: Parsed<seq<Entry>>, input: Bytes, done: seq<Entry>, p: nat, e: Entry, pos: nat, start: nat)
    requires start <= p < |input| && input[p] != END && p <= pos <= |input|
    requires whole == After(done, p - start, ParseEntries(input[p..]))
    requires ParseEntry(input[p..]) == Ok(e, pos - p)
    ensures whole == After(done + [e], pos - start, ParseEntries(input[pos..]))
  {
    assert input[p..][pos - p..] == input[pos..];
    EntriesCons(input[p..], e, pos - p);
    AfterCons(done, p - start, e, pos - p, ParseEntries(input[pos..]));
  }

  /** One turn of the dictionary loop: key, value, and the slice the value came from. */
  method DecodeEntry(input: Bytes, pos0: nat) returns (r: Result<Entry>, pos: nat)
    requires pos0 < |input|
    ensures Matches(ParseEntry(input[pos0..]), pos0, r, pos)
    ensures pos <= |input|
    decreases |input| - pos0, 0, 1
  {
    pos := pos0;
    if !IsDigit(input[pos]) {
      return Failed(KeyNotString), pos;
    }
    var key;
    key, pos := DecodeString(input, pos);
    if key.Failed? {
      return Failed(key.error), pos;
    }
    var startPos := pos;
    assert input[pos0..][startPos - pos0..] == input[startPos..];
    var value;
    value, pos := DecodeValue(input, pos);
    if value.Failed? {
      return Failed(value.error), pos;
    }
    assert input[pos0..][startPos - pos0..pos - pos0] == input[startPos..pos];
    r := Decoded(Entry(key.value, value.value, input[startPos..pos]));
  }

  method DecodeValue(input: Bytes, pos0: nat) returns (r: Result<Value>, pos: nat)
    requires pos0 <= |input|
    ensures Matches(ParseValue(input[pos0..]), pos0, r, pos)
    ensures pos <= |input|
    decreases |input| - pos0, 2
  {
    pos := pos0;
    if pos >= |input| {
      return Failed(UnexpectedEnd), pos;
    }
    assert input[pos0..][1..] == input[pos0 + 1..];
    var tag := input[pos];
    if IsDigit(tag) {
      var s;
      s, pos := DecodeString(input, pos);
      r := if s.Failed? then Failed(s.error) else Decoded(Str(s.value));
    } else if tag == INTEGER {
      var n;
      n, pos := DecodeInteger(input, pos);
      r := if n.Failed? then Failed(n.error) else Decoded(Int(n.value));
    } else if tag == LIST {
      var l;
      l, pos := DecodeList(input, pos);
      r := if l.Failed? then Failed(l.error) else Decoded(List(l.value));
    } else if tag == DICT {
      var d, raw;
      d, raw, pos := DecodeDict(input, pos);
      r := if d.Failed? then Failed(d.error) else Decoded(Dict(d.value));
    } else {
      r := Failed(Unsupported);
    }
  }

  /** The entry point: bytes after the value are ignored. */
  method Decode(input: Bytes) returns (r: Result<Value>)
    ensures r.Decoded? <==> ParseValue(input).Ok?
    ensures r.Decoded? ==> r.value == ParseValue(input).value
  {
    if |input| == 0 {
      return Failed(UnexpectedEnd);
    }
    var pos;
    r, pos := DecodeValue(input, 0);
    assert input[0..] == input;
  }
}
