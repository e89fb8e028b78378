/** What the decoder accepts, byte by byte, with the letters of the format as numbers. */
module BencodeGrammar {
  import opened Bytes
  import opened Bencode

  // ----- Numbers

  predicate AllDigits(s: Bytes) {
    forall i :: 0 <= i < |s| ==> 48 <= s[i] <= 57
  }

  lemma {:induction false} DigitsIff(s: Bytes)
    ensures DigitsValue(s).Some? <==> AllDigits(s)
  {
    if s != [] {
      var init, last := s[..|s| - 1], s[|s| - 1];
      DigitsIff(init);
      assert s == init + [last];
      assert forall i :: 0 <= i < |init| ==> s[i] == init[i];
    }
  }

  /** A digit string and its value. */
  predicate IsNatural(d: Bytes, n: int) {
    d != [] && AllDigits(d) && n >= 0 && DigitsValue(d) == Some(n as nat)
  }

  /** What strconv.Atoi accepts: digits, with a plus (43), a minus (45) or nothing in front, within 64 bits. */
  predicate IsNumber(s: Bytes, n: int) {
    && -0x8000_0000_0000_0000 <= n <= 0x7FFF_FFFF_FFFF_FFFF && s != []
    && if s[0] == 43 then IsNatural(s[1..], n) else if s[0] == 45 then IsNatural(s[1..], -n) else IsNatural(s, n)
  }

  lemma AtoiIff(s: Bytes, n: int)
    ensures Atoi(s) == Some(n) <==> IsNumber(s, n)
  {
    DigitsIff(s);
    if s != [] {
      DigitsIff(s[1..]);
    }
  }

  // ----- Strings

  /** The first byte of s from k on that is not a digit. */
  function DigitsEnd(s: Bytes, k: nat): (j: nat)
    requires k <= |s|
    ensures k <= j <= |s| && AllDigits(s[k..j]) && (j < |s| ==> !(48 <= s[j] <= 57))
    decreases |s| - k
  {
    if k < |s| && 48 <= s[k] <= 57 then DigitsEnd(s, k + 1) else k
  }

  /**
   * A string: digits up to a colon (58), which are the length, and as many bytes. Otherwise the error is that the
   * colon is missing, that another byte stands in the length, that the length is no number, or that there are not
   * enough bytes.
   */
  ghost predicate StringIs(s: Bytes, r: Parsed<Bytes>) {
    var j := DigitsEnd(s, 0);
    if j == |s| then r == Err(MissingColon)
    else if s[j] != 58 then r == Err(BadLength)
    else match r
      case Ok(v, n) => IsNumber(s[..j], |v|) && n == j + 1 + |v| <= |s| && v == s[j + 1..n]
      case Err(e) =>
        || (e == NotANumber && forall n :: !IsNumber(s[..j], n))
        || (e == LengthExceedsData && exists n :: IsNumber(s[..j], n) && j + 1 + n > |s|)
  }

  lemma {:induction false} LengthAt(s: Bytes, k: nat)
    requires k <= |s|
    ensures var j := DigitsEnd(s, k);
            ParseLength(s, k) ==
            if j == |s| then Err(MissingColon)
            else if s[j] != 58 then Err(BadLength)
            else match Atoi(s[..j])
              case None => Err(NotANumber)
              case Some(length) => if length < 0 then Err(NotANumber) else Ok(length, j + 1)
    decreases |s| - k
  {
    if k < |s| && 48 <= s[k] <= 57 {
      LengthAt(s, k + 1);
    }
  }

  lemma NoNumber(s: Bytes)
    requires Atoi(s).None?
    ensures forall n :: !IsNumber(s, n)
  {
    forall n
      ensures !IsNumber(s, n)
    {
      AtoiIff(s, n);
    }
  }

  lemma ParseStringIs(s: Bytes)
    ensures StringIs(s, ParseString(s))
  {
    var j := DigitsEnd(s, 0);
    LengthAt(s, 0);
    assert s[0..j] == s[..j];
    if j < |s| && s[j] == 58 {
      match Atoi(s[..j])
      case None => NoNumber(s[..j]);
      case Some(n) => AtoiIff(s[..j], n);
    }
  }

  // ----- Integers

  /** The first 'e' (101) of s from k on. */
  function NumberEnd(s: Bytes, k: nat): (j: nat)
    requires k <= |s|
    ensures k <= j <= |s| && (j < |s| ==> s[j] == 101) && forall i :: k <= i < j ==> s[i] != 101
    decreases |s| - k
  {
    if k < |s| && s[k] != 101 then NumberEnd(s, k + 1) else k
  }

  /** An integer: any byte, and what stands before the next 'e', if that is a number. */
  ghost predicate IntegerIs(s: Bytes, r: Parsed<int>) {
    if s == [] || NumberEnd(s, 1) == |s| then r == Err(UnterminatedInteger)
    else
      var j := NumberEnd(s, 1);
      match r
      case Ok(v, n) => IsNumber(s[1..j], v) && n == j + 1
      case Err(e) => e == NotANumber && forall v :: !IsNumber(s[1..j], v)
  }

  lemma {:induction false} NumberAt(s: Bytes, k: nat)
    requires s != [] && k + 1 <= |s|
    ensures var j := NumberEnd(s, k + 1);
            ParseNumber(s[1..], k) ==
            if j == |s| then Err(UnterminatedInteger)
            else match Atoi(s[1..j]) case None => Err(NotANumber) case Some(n) => Ok(n, j)
    decreases |s| - k
  {
    if k + 1 < |s| {
      assert s[1..][k] == s[k + 1] && s[1..][..k] == s[1..k + 1];
      if s[k + 1] != 101 {
        NumberAt(s, k + 1);
      }
    }
  }

  lemma ParseIntegerIs(s: Bytes)
    ensures IntegerIs(s, ParseInteger(s))
  {
    if s != [] {
      NumberAt(s, 0);
      var j := NumberEnd(s, 1);
      if j < |s| {
        match Atoi(s[1..j])
        case None => NoNumber(s[1..j]);
        case Some(n) => AtoiIff(s[1..j], n);
      }
    }
  }

  // ----- Values

  /** The first byte decides: a digit, 'i' (105), 'l' (108) or 'd' (100); and 'e' (101) ends a list or a dictionary. */
  lemma ParseValueIs(s: Bytes)
    ensures ParseValue(s) ==
            if s == [] then Err(UnexpectedEnd)
            else if 48 <= s[0] <= 57 then
              match ParseString(s) case Ok(v, n) => Ok(Str(v), n) case Err(e) => Err(e)
            else if s[0] == 105 then
              match ParseInteger(s) case Ok(v, n) => Ok(Int(v), n) case Err(e) => Err(e)
            else if s[0] == 108 then
              match ParseItems(s[1..]) case Ok(vs, n) => Ok(List(vs), n + 1) case Err(e) => Err(e)
            else if s[0] == 100 then
              match ParseEntries(s[1..]) case Ok(es, n) => Ok(Dict(Values(es)), n + 1) case Err(e) => Err(e)
            else Err(Unsupported)
  {
  }

  /** Starting at byte at[i], value i of the list; the list ends with an 'e'. */
  ghost predicate ItemsAt(s: Bytes, vs: seq<Value>, at: seq<nat>) {
    && |at| == |vs| + 1 && at[0] == 0
    && at[|vs|] < |s| && s[at[|vs|]] == 101
    && forall i :: 0 <= i < |vs| ==> ItemAt(s, vs[i], at, i)
  }

  predicate ItemAt(s: Bytes, v: Value, at: seq<nat>, i: nat)
    requires i + 1 < |at|
  {
    at[i] < at[i + 1] <= |s| && s[at[i]] != 101 && ParseValue(s[at[i]..]) == Ok(v, at[i + 1] - at[i])
  }

  /** The items of a list are values one right after the other, up to an 'e' in place of a value. */
  lemma {:induction false} ItemsFollow(s: Bytes) returns (at: seq<nat>)
    requires ParseItems(s).Ok?
    ensures ItemsAt(s, ParseItems(s).value, at) && ParseItems(s).used == at[|ParseItems(s).value|] + 1
    decreases |s|
  {
    if s[0] == END {
      at := [0];
    } else {
      var n := ParseValue(s).used;
      var rest := ItemsFollow(s[n..]);
      at := [0] + seq(|rest|, i requires 0 <= i < |rest| => rest[i] + n);
      ShiftItems(s, n, ParseItems(s[n..]).value, rest, ParseValue(s).value, at);
    }
  }

  ghost predicate Shifted(at: seq<nat>, rest: seq<nat>, n: nat) {
    |at| == |rest| + 1 && at[0] == 0 && forall i :: 0 <= i < |rest| ==> at[i + 1] == rest[i] + n
  }

  lemma ShiftItems(s: Bytes, n: nat, vs: seq<Value>, rest: seq<nat>, v: Value, at: seq<nat>)
    requires s != [] && s[0] != 101 && ParseValue(s) == Ok(v, n) && 0 < n <= |s| && ItemsAt(s[n..], vs, rest)
    requires Shifted(at, rest, n)
    ensures ItemsAt(s, [v] + vs, at)
  {
    FirstItem(s, v, at, n);
    forall i | 0 <= i < |vs|
      ensures ItemAt(s, vs[i], at, i + 1)
    {
      AnyShift(s, n, vs, rest, at, i);
    }
    ItemsJoin(s, n, vs, rest, v, at);
  }

  lemma AnyShift(s: Bytes, n: nat, vs: seq<Value>, rest: seq<nat>, at: seq<nat>, i: nat)
    requires n <= |s| && ItemsAt(s[n..], vs, rest) && Shifted(at, rest, n) && i < |vs|
    ensures ItemAt(s, vs[i], at, i + 1)
  {
    assert ItemAt(s[n..], vs[i], rest, i);
    ShiftItem(s, n, vs[i], rest, at, i + 1);
  }

  lemma ItemsJoin(s: Bytes, n: nat, vs: seq<Value>, rest: seq<nat>, v: Value, at: seq<nat>)
    requires n <= |s| && |rest| == |vs| + 1 && Shifted(at, rest, n) && ItemAt(s, v, at, 0)
    requires rest[|vs|] < |s[n..]| && s[n..][rest[|vs|]] == 101
    requires forall i :: 0 <= i < |vs| ==> ItemAt(s, vs[i], at, i + 1)
    ensures ItemsAt(s, [v] + vs, at)
  {
    var all := [v] + vs;
    forall i | 0 <= i < |all|
      ensures ItemAt(s, all[i], at, i)
    {
      assert i > 0 ==> all[i] == vs[i - 1];
    }
  }

  lemma FirstItem(s: Bytes, v: Value, at: seq<nat>, n: nat)
    requires s != [] && s[0] != 101 && ParseValue(s) == Ok(v, n) && 0 < n <= |s|
    requires |at| > 1 && at[0] == 0 && at[1] == n
    ensures ItemAt(s, v, at, 0)
  {
    assert s[0..] == s;
  }

  lemma ShiftItem(s: Bytes, n: nat, v: Value, rest: seq<nat>, at: seq<nat>, i: nat)
    requires 0 < i < |rest| && |at| == |rest| + 1 && n <= |s| && ItemAt(s[n..], v, rest, i - 1)
    requires at[i] == rest[i - 1] + n && at[i + 1] == rest[i] + n
    ensures ItemAt(s, v, at, i)
  {
    assert s[n..][rest[i - 1]..] == s[at[i]..];
  }

  /** And when values follow one another so, they are the items. */
  lemma {:induction false} FollowItems(s: Bytes, vs: seq<Value>, at: seq<nat>, k: nat)
    requires ItemsAt(s, vs, at) && k <= |vs|
    ensures at[k] <= at[|vs|]
    ensures ParseItems(s[at[k]..]) == Ok(vs[k..], at[|vs|] + 1 - at[k])
    decreases |vs| - k
  {
    if k < |vs| {
      FollowItems(s, vs, at, k + 1);
      assert ItemAt(s, vs[k], at, k);
      FollowItem(s, vs, at, k);
    } else {
      assert s[at[k]..][0] == 101 && vs[k..] == [];
    }
  }

  lemma FollowItem(s: Bytes, vs: seq<Value>, at: seq<nat>, k: nat)
    requires |at| == |vs| + 1 && k < |vs| && ItemAt(s, vs[k], at, k) && at[k + 1] <= at[|vs|]
    requires ParseItems(s[at[k + 1]..]) == Ok(vs[k + 1..], at[|vs|] + 1 - at[k + 1])
    ensures ParseItems(s[at[k]..]) == Ok(vs[k..], at[|vs|] + 1 - at[k])
  {
    var t, n := s[at[k]..], at[k + 1] - at[k];
    assert t[n..] == s[at[k + 1]..];
    ItemsCons(t, vs[k], n);
    assert vs[k..] == [vs[k]] + vs[k + 1..];
  }

  /** The list vs is there, and n bytes long with its end. */
  ghost predicate IsItems(s: Bytes, vs: seq<Value>, n: nat) {
    exists at :: ItemsAt(s, vs, at) && n == at[|vs|] + 1
  }

  /** A list and where it ends are determined by its items one after the other. */
  lemma ItemsIff(s: Bytes, vs: seq<Value>, n: nat)
    ensures ParseItems(s) == Ok(vs, n) <==> IsItems(s, vs, n)
  {
    if ParseItems(s) == Ok(vs, n) {
      var at := ItemsFollow(s);
    }
    if IsItems(s, vs, n) {
      var at :| ItemsAt(s, vs, at) && n == at[|vs|] + 1;
      FollowItems(s, vs, at, 0);
      assert s[at[0]..] == s && vs[0..] == vs;
    }
  }

  // ----- Dictionaries

  /** A key starts with a digit: it is a string. */
  lemma KeyIsString(s: Bytes)
    requires s == [] || !(48 <= s[0] <= 57)
    ensures ParseEntry(s) == Err(KeyNotString)
  {
  }

  /** Entry i is the last one with its key. */
  predicate LastWith(es: seq<Entry>, i: nat, key: Bytes) {
    i < |es| && es[i].key == key && forall j :: i < j < |es| ==> es[j].key != key
  }

  /** A key has the value, and the bytes, of its last entry. */
  lemma {:induction false} LastEntryWins(es: seq<Entry>, key: Bytes)
    ensures key in Values(es) <==> exists i: nat :: LastWith(es, i, key)
    ensures key in Raws(es) <==> key in Values(es)
    ensures forall i: nat :: LastWith(es, i, key) ==> Values(es)[key] == es[i].value && Raws(es)[key] == es[i].raw
  {
    if es != [] {
      var n := |es| - 1;
      LastEntryWins(es[..n], key);
      if es[n].key == key {
        assert LastWith(es, n, key);
      } else {
        forall i: nat
          ensures LastWith(es, i, key) <==> LastWith(es[..n], i, key)
        {
        }
        if i: nat :| LastWith(es[..n], i, key) {
          assert LastWith(es, i, key);
        }
      }
    }
  }
}
