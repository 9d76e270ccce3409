/**
 * Which texts spell which values, said without a parser: no order of reading, no accumulated
 * dictionary, no error. The decoder accepts exactly these texts, with exactly these values.
 */
module BencodeSpelling {
  import opened Bytes
  import opened BencodeDigits
  import opened BencodeGrammar
  import opened BencodeCanonical

  // ---------------------------------------------------------------- spellings

  /** Digits at `[a, b)` for a number; leading zeros are allowed, and so are no digits at all. */
  ghost predicate DigitsAt(s: string, a: nat, b: nat, n: nat) {
    a <= b <= |s| && AllDigits(s[a..b]) && DecimalValue(s[a..b]) == n
  }

  /** `i`, an optional minus, at most 19 digits, `e`; the number fits 64 bits. */
  ghost predicate IntegerAt(s: string, a: nat, b: nat, n: int) {
    var negative := CharAt(s, a + 1, '-');
    var first := if negative then a + 2 else a + 1;
    && CharAt(s, a, 'i') && first < b <= |s| && s[b - 1] == 'e' && b - 1 - first <= 19
    && DigitsAt(s, first, b - 1, if n < 0 then -n else n)
    && (n != 0 ==> (n < 0 <==> negative))
    && -0x8000_0000_0000_0000 <= n <= 0x7fff_ffff_ffff_ffff
  }

  /** At least one digit and at most 20 for the length, below 2^64, a colon, and the bytes. */
  ghost predicate StringAt(s: string, a: nat, b: nat, t: string) {
    exists colon: nat :: ColonAt(s, a, colon, b, t)
  }

  ghost predicate ColonAt(s: string, a: nat, colon: nat, b: nat, t: string) {
    && a < colon < b <= |s| && colon - a <= 20 && s[colon] == ':' && s[colon + 1..b] == t
    && DigitsAt(s, a, colon, |t|) && |t| < 0x1_0000_0000_0000_0000
  }

  /** The range `[a, b)` of the text spells the value. */
  ghost predicate ValueAt(s: string, a: nat, b: nat, v: Value)
    decreases if a < b then b - a else 0, 0
  {
    a < b <= |s| && match v
      case Integer(n) => IntegerAt(s, a, b, n)
      case Str(t) => StringAt(s, a, b, t)
      case List(items) => b - a >= 2 && s[a] == 'l' && s[b - 1] == 'e' && ItemsAt(s, a + 1, b - 1, items)
      case Dict(es) => b - a >= 2 && s[a] == 'd' && s[b - 1] == 'e' && DictAt(s, a + 1, b - 1, es)
  }

  /** The values one after another. */
  ghost predicate ItemsAt(s: string, a: nat, b: nat, items: seq<Value>)
    decreases if a < b then b - a else 0, 1
  {
    if items == [] then a == b
    else exists m: nat :: a < m <= b && ValueAt(s, a, m, items[0]) && ItemsAt(s, m, b, items[1..])
  }

  /** The entries, each key once, in whatever order they stand in the text. */
  ghost predicate DictAt(s: string, a: nat, b: nat, es: seq<Entry>)
    decreases if a < b then b - a else 0, 2
  {
    Sorted(es) && exists read: seq<Entry> :: multiset(read) == multiset(es) && EntriesAt(s, a, b, read)
  }

  ghost predicate EntriesAt(s: string, a: nat, b: nat, read: seq<Entry>)
    decreases if a < b then b - a else 0, 1
  {
    if read == [] then a == b
    else exists m: nat, n: nat ::
      && a < m < n <= b && StringAt(s, a, m, read[0].key)
      && ValueAt(s, m, n, read[0].value) && EntriesAt(s, n, b, read[1..])
  }

  // ---------------------------------------------------------------- integers and strings

  /** Digits followed by something else are the whole run. */
  lemma RunIsRange(s: string, a: nat, b: nat)
    requires a <= b <= |s| && AllDigits(s[a..b]) && !DigitAt(s, b)
    ensures RunEnd(s, a) == b
  {
    var ds := s[a..b];
    assert a + |ds| == b;
    assert Starts(s, a, ds);
    RunIsText(s, a, ds);
  }

  /** Digits before something that is not one are read as `v` exactly if they spell it and it fits. */
  lemma ReadDigitsIff(t: IntType, s: string, a: nat, b: nat, sgn: int, v: int)
    requires SafeDigits(t, sgn) && a <= b < |s| && !IsDigit(s[b])
    ensures ReadDigits(t, s, a, sgn) == Ok(v, b) <==>
      && AllDigits(s[a..b]) && b - a <= t.digits10 + 1 && v == Signed(sgn, DecimalValue(s[a..b])) && Fits(t, v)
  {
    DigitsExact(t, s, a, sgn);
    if AllDigits(s[a..b]) {
      RunIsRange(s, a, b);
    } else if ReadDigits(t, s, a, sgn).Ok? {
      ReadIsDigits(t, s, a, sgn);
    }
  }

  lemma ReadIsDigits(t: IntType, s: string, a: nat, sgn: int)
    requires a <= |s| && ReadDigits(t, s, a, sgn).Ok?
    ensures a <= ReadDigits(t, s, a, sgn).pos <= |s| && AllDigits(s[a..ReadDigits(t, s, a, sgn).pos])
  {
    hide DecimalValue, Fits;
  }

  lemma ReadIntIff(s: string, a: nat, b: nat, n: int)
    requires CharAt(s, a, 'i')
    ensures ReadInt(s, a) == Ok(n, b) <==> IntegerAt(s, a, b, n)
  {
    StandardTypes();
    hide Pow10, DecimalValue, ReadDigits, SafeDigits, AllDigits;
    var negative := CharAt(s, a + 1, '-');
    var first := if negative then a + 2 else a + 1;
    if first < b <= |s| && s[b - 1] == 'e' {
      ReadDigitsIff(LONG_LONG, s, first, b - 1, if negative then -1 else 1, n);
    }
  }

  lemma ReadStringIff(s: string, a: nat, b: nat, t: string)
    requires DigitAt(s, a)
    ensures ReadString(s, a) == Ok(t, b) <==> StringAt(s, a, b, t)
  {
    hide ReadString;
    if ReadString(s, a) == Ok(t, b) { StringIsSpelled(s, a, b, t); }
    if colon: nat :| ColonAt(s, a, colon, b, t) { SpelledString(s, a, colon, b, t); }
  }

  lemma StringIsSpelled(s: string, a: nat, b: nat, t: string)
    requires DigitAt(s, a) && ReadString(s, a) == Ok(t, b)
    ensures StringAt(s, a, b, t)
  {
    StandardTypes();
    hide Pow10, DecimalValue, ReadDigits, SafeDigits, AllDigits, DigitAt;
    var len := ReadDigits(SIZE_T, s, a, 1);
    ReadDigitsIff(SIZE_T, s, a, len.pos, 1, len.value);
    FirstIsRead(s, a);
    assert ColonAt(s, a, len.pos, b, t);
  }

  /** A digit is consumed. */
  lemma FirstIsRead(s: string, a: nat)
    requires DigitAt(s, a) && ReadDigits(SIZE_T, s, a, 1).Ok?
    ensures ReadDigits(SIZE_T, s, a, 1).pos > a
  {
    hide DecimalValue, Fits;
  }

  lemma SpelledString(s: string, a: nat, colon: nat, b: nat, t: string)
    requires DigitAt(s, a) && ColonAt(s, a, colon, b, t)
    ensures ReadString(s, a) == Ok(t, b)
  {
    StandardTypes();
    hide Pow10, DecimalValue, ReadDigits, SafeDigits, AllDigits;
    ReadDigitsIff(SIZE_T, s, a, colon, 1, |t|);
  }

  lemma StringStartsWithDigit(s: string, a: nat, b: nat, t: string)
    requires StringAt(s, a, b, t)
    ensures DigitAt(s, a)
  {
    var colon: nat :| ColonAt(s, a, colon, b, t);
    assert s[a..colon][0] == s[a];
  }

  // ---------------------------------------------------------------- what is decoded is spelled

  lemma {:induction false} InsertAdds(es: seq<Entry>, key: string, v: Value)
    ensures multiset(Insert(es, key, v)) == multiset(es) + multiset{Entry(key, v)}
  {
    if es != [] && !Less(key, es[0].key) {
      InsertAdds(es[1..], key, v);
      assert es == [es[0]] + es[1..];
    }
  }

  lemma {:induction false} DecodedIsSpelled(s: string, pos: nat)
    requires pos <= |s| && ParseValue(s, pos).Ok?
    ensures ValueAt(s, pos, ParseValue(s, pos).pos, ParseValue(s, pos).value)
    decreases |s| - pos, 0
  {
    hide ReadInt, ReadString, IntegerAt, StringAt;
    var v, end := ParseValue(s, pos).value, ParseValue(s, pos).pos;
    if s[pos] == 'i' {
      ReadIntIff(s, pos, end, v.n);
    } else if s[pos] == 'l' {
      var rest := ItemsAreSpelled(s, pos + 1, []);
      assert [] + rest == rest;
    } else if s[pos] == 'd' {
      var read := EntriesAreSpelled(s, pos + 1, []);
      assert multiset(read) == multiset(v.entries);
    } else {
      ReadStringIff(s, pos, end, v.s);
    }
  }

  lemma {:induction false} ItemsAreSpelled(s: string, pos: nat, acc: seq<Value>) returns (rest: seq<Value>)
    requires pos <= |s| && ParseItems(s, pos, acc).Ok?
    ensures var end := ParseItems(s, pos, acc).pos;
      && ParseItems(s, pos, acc).value == List(acc + rest)
      && s[end - 1] == 'e' && ItemsAt(s, pos, end - 1, rest)
    decreases |s| - pos, 1
  {
    hide ParseValue, ValueAt;
    if s[pos] == 'e' {
      rest := [];
    } else {
      DecodedIsSpelled(s, pos);
      var v, p := ParseValue(s, pos).value, ParseValue(s, pos).pos;
      var later := ItemsAreSpelled(s, p, acc + [v]);
      rest := [v] + later;
      assert acc + [v] + later == acc + rest;
      assert rest[1..] == later;
      ItemsForward(s, p, ParseItems(s, pos, acc).pos - 1, later);
    }
  }

  lemma {:induction false} ItemsForward(s: string, a: nat, b: nat, items: seq<Value>)
    requires ItemsAt(s, a, b, items)
    ensures a <= b
  {
  }

  lemma {:induction false} EntriesForward(s: string, a: nat, b: nat, read: seq<Entry>)
    requires EntriesAt(s, a, b, read)
    ensures a <= b
  {
  }

  lemma {:induction false} EntriesAreSpelled(s: string, pos: nat, acc: seq<Entry>) returns (read: seq<Entry>)
    requires pos <= |s| && ParseEntries(s, pos, acc).Ok? && Sorted(acc)
    ensures var end := ParseEntries(s, pos, acc).pos;
      && ParseEntries(s, pos, acc).value.Dict?
      && Sorted(ParseEntries(s, pos, acc).value.entries)
      && multiset(ParseEntries(s, pos, acc).value.entries) == multiset(acc) + multiset(read)
      && s[end - 1] == 'e' && EntriesAt(s, pos, end - 1, read)
    decreases |s| - pos, 1
  {
    hide ReadString, ParseValue, ValueAt, StringAt, Insert, HasKey, Sorted;
    if s[pos] == 'e' {
      read := [];
    } else {
      var key, p := ReadString(s, pos).value, ReadString(s, pos).pos;
      ReadStringIff(s, pos, p, key);
      DecodedIsSpelled(s, p);
      var v, q := ParseValue(s, p).value, ParseValue(s, p).pos;
      InsertKeepsSorted(acc, key, v);
      InsertAdds(acc, key, v);
      var later := EntriesAreSpelled(s, q, Insert(acc, key, v));
      read := [Entry(key, v)] + later;
      assert read[0] == Entry(key, v) && read[1..] == later;
      EntriesForward(s, q, ParseEntries(s, pos, acc).pos - 1, later);
    }
  }

  // ---------------------------------------------------------------- what is spelled is decoded

  lemma FirstOfSpelling(s: string, a: nat, b: nat, v: Value)
    requires ValueAt(s, a, b, v)
    ensures a < |s| && s[a] != 'e'
  {
    hide ItemsAt, DictAt;
    if v.Str? { StringStartsWithDigit(s, a, b, v.s); }
  }

  lemma {:induction false} SpelledIsDecoded(s: string, a: nat, b: nat, v: Value)
    requires ValueAt(s, a, b, v)
    ensures ParseValue(s, a) == Ok(v, b)
    decreases b - a, 0
  {
    hide ReadInt, ReadString, IntegerAt, StringAt, ItemsAt, EntriesAt, Sorted;
    match v
    case Integer(n) =>
      assert CharAt(s, a, 'i') by { IntegerStarts(s, a, b, n); }
      ReadIntIff(s, a, b, n);
    case Str(t) =>
      StringStartsWithDigit(s, a, b, t);
      ReadStringIff(s, a, b, t);
    case List(items) =>
      ItemsDecoded(s, a + 1, b - 1, [], items);
      assert [] + items == items;
    case Dict(es) =>
      var read: seq<Entry> :| multiset(read) == multiset(es) && EntriesAt(s, a + 1, b - 1, read);
      assert Sorted([]) by { EmptyIsSorted(); }
      EntriesDecoded(s, a + 1, b - 1, [], read, es);
  }

  lemma EmptyIsSorted()
    ensures Sorted([])
  {
  }

  lemma IntegerStarts(s: string, a: nat, b: nat, n: int)
    requires IntegerAt(s, a, b, n)
    ensures CharAt(s, a, 'i')
  {
  }

  lemma {:induction false} ItemsDecoded(s: string, a: nat, b: nat, acc: seq<Value>, items: seq<Value>)
    requires ItemsAt(s, a, b, items) && b < |s| && s[b] == 'e'
    ensures a <= b && ParseItems(s, a, acc) == Ok(List(acc + items), b + 1)
    decreases if a < b then b - a else 0, 1, |items|
  {
    hide ParseValue, ValueAt;
    if items == [] {
      assert acc + items == acc;
    } else {
      var m: nat :| a < m <= b && ValueAt(s, a, m, items[0]) && ItemsAt(s, m, b, items[1..]);
      FirstOfSpelling(s, a, m, items[0]);
      SpelledIsDecoded(s, a, m, items[0]);
      ItemsDecoded(s, m, b, acc + [items[0]], items[1..]);
      assert acc + [items[0]] + items[1..] == acc + items;
    }
  }

  lemma {:induction false} EntriesDecoded(s: string, a: nat, b: nat, acc: seq<Entry>, read: seq<Entry>, es: seq<Entry>)
    requires EntriesAt(s, a, b, read) && b < |s| && s[b] == 'e'
    requires Sorted(acc) && Sorted(es) && multiset(es) == multiset(acc) + multiset(read)
    ensures a <= b && ParseEntries(s, a, acc) == Ok(Dict(es), b + 1)
    decreases if a < b then b - a else 0, 1, |read|
  {
    hide ParseValue, ReadString, ValueAt, StringAt, Insert, HasKey, Sorted;
    if read == [] {
      assert multiset(acc) == multiset(es);
      SortedIsUnique(acc, es);
    } else {
      var m: nat, n: nat :| a < m < n <= b
        && StringAt(s, a, m, read[0].key) && ValueAt(s, m, n, read[0].value) && EntriesAt(s, n, b, read[1..]);
      var e := read[0];
      assert read == [e] + read[1..];
      StringStartsWithDigit(s, a, m, e.key);
      ReadStringIff(s, a, m, e.key);
      SpelledIsDecoded(s, m, n, e.value);
      NewKey(acc, e, es);
      InsertKeepsSorted(acc, e.key, e.value);
      InsertAdds(acc, e.key, e.value);
      EntriesDecoded(s, n, b, Insert(acc, e.key, e.value), read[1..], es);
    }
  }

  /** An entry still to be read has a key that is not there yet. */
  lemma NewKey(acc: seq<Entry>, e: Entry, es: seq<Entry>)
    requires Sorted(es) && multiset(acc) + multiset{e} <= multiset(es)
    ensures !HasKey(acc, e.key)
  {
    if k :| 0 <= k < |acc| && acc[k].key == e.key {
      var a := acc[k];
      assert a in multiset(acc);
      OnceEach(es, e);
      if a != e {
        assert a in multiset(es) && e in multiset(es);
        var i :| 0 <= i < |es| && es[i] == a;
        var j :| 0 <= j < |es| && es[j] == e;
        DistinctKeys(es, i, j);
      }
    }
  }

  lemma DistinctKeys(es: seq<Entry>, i: nat, j: nat)
    requires Sorted(es) && i < |es| && j < |es| && i != j
    ensures es[i].key != es[j].key
  {
    LessIrreflexive(es[i].key);
  }

  /** No entry stands twice in a list of strictly ascending keys. */
  lemma {:induction false} OnceEach(es: seq<Entry>, e: Entry)
    requires Sorted(es)
    ensures multiset(es)[e] <= 1
  {
    if es != [] {
      var rest := es[1..];
      assert es == [es[0]] + rest;
      OnceEach(rest, e);
      if es[0] == e && e in rest {
        var k :| 0 <= k < |rest| && rest[k] == e;
        DistinctKeys(es, 0, k + 1);
      }
    }
  }

  /** Ascending keys leave only one order. */
  lemma {:induction false} SortedIsUnique(a: seq<Entry>, b: seq<Entry>)
    requires Sorted(a) && Sorted(b) && multiset(a) == multiset(b)
    ensures a == b
  {
    if a == [] {
      assert |multiset(a)| == |multiset(b)|;
    } else {
      assert a[0] in multiset(b);
      assert |multiset(a)| == |multiset(b)|;
      FirstIsLeast(a, b);
      assert a == [a[0]] + a[1..] && b == [b[0]] + b[1..];
      assert multiset(a[1..]) == multiset(a) - multiset{a[0]};
      assert multiset(b[1..]) == multiset(b) - multiset{b[0]};
      SortedIsUnique(a[1..], b[1..]);
    }
  }

  lemma FirstIsLeast(a: seq<Entry>, b: seq<Entry>)
    requires Sorted(a) && Sorted(b) && multiset(a) == multiset(b) && a != []
    ensures b != [] && a[0] == b[0]
  {
    assert a[0] in multiset(b);
    var j :| 0 <= j < |b| && b[j] == a[0];
    assert b[0] in multiset(a);
    var i :| 0 <= i < |a| && a[i] == b[0];
    if i > 0 && j > 0 {
      LessTransitive(a[0].key, b[0].key, a[0].key);
      LessIrreflexive(a[0].key);
    }
  }

  // ---------------------------------------------------------------- the decoder's language

  /**
   * On every input, decoding at a position gives a value and an end exactly if the range between
   * them spells the value; where no range spells one, it is rejected.
   */
  lemma DecodesIffSpelled(s: string, pos: nat, end: nat, v: Value)
    requires pos <= |s|
    ensures ParseValue(s, pos) == Ok(v, end) <==> ValueAt(s, pos, end, v)
  {
    hide ParseValue, ValueAt;
    if ParseValue(s, pos) == Ok(v, end) { DecodedIsSpelled(s, pos); }
    if ValueAt(s, pos, end, v) { SpelledIsDecoded(s, pos, end, v); }
  }
}
