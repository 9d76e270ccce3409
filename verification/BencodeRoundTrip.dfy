/** Decoding an encoding gives back the value and stops at its end, whatever follows. */
module BencodeRoundTrip {
  import opened BencodeDigits
  import opened BencodeGrammar

  lemma StartsSplit(s: string, pos: nat, a: string, b: string)
    requires Starts(s, pos, a + b)
    ensures Starts(s, pos, a) && Starts(s, pos + |a|, b)
  {
    var e := s[pos..pos + |a + b|];
    assert s[pos..pos + |a|] == e[..|a|] == a;
    assert s[pos + |a|..pos + |a| + |b|] == e[|a|..] == b;
  }

  lemma EncodeListIs(items: seq<Value>)
    ensures Encode(List(items)) == "l" + (EncodeItems(items) + "e")
  {
    hide EncodeItems;
  }

  lemma EncodeDictIs(es: seq<Entry>)
    ensures Encode(Dict(es)) == "d" + (EncodeEntries(es) + "e")
  {
    hide EncodeEntries;
  }

  lemma EncodeItemsIs(items: seq<Value>)
    ensures items == [] ==> EncodeItems(items) + "e" == "e"
    ensures items != [] ==>
      && EncodeItems(items) + "e" == Encode(items[0]) + (EncodeItems(items[1..]) + "e")
      && |EncodeItems(items)| == |Encode(items[0])| + |EncodeItems(items[1..])|
  {
    hide Encode;
  }

  lemma EncodeEntriesIs(es: seq<Entry>)
    ensures es == [] ==> EncodeEntries(es) + "e" == "e"
    ensures es != [] ==>
      && EncodeEntries(es) + "e"
         == EncodeString(es[0].key) + (Encode(es[0].value) + (EncodeEntries(es[1..]) + "e"))
      && |EncodeEntries(es)|
         == |EncodeString(es[0].key)| + |Encode(es[0].value)| + |EncodeEntries(es[1..])|
  {
    hide Encode, EncodeString;
  }

  lemma StartsChar(s: string, pos: nat, c: char)
    requires Starts(s, pos, [c])
    ensures CharAt(s, pos, c)
  {
    assert s[pos..pos + 1][0] == c;
  }

  lemma DecimalStarts(s: string, pos: nat, n: nat)
    requires Starts(s, pos, Decimal(n))
    ensures DigitAt(s, pos)
  {
    assert s[pos..pos + |Decimal(n)|][0] == Decimal(n)[0];
  }

  lemma ReadLongLong(s: string, pos: nat, n: nat, sgn: int)
    requires (sgn == 1 || sgn == -1) && Fits(LONG_LONG, Signed(sgn, n))
    requires Starts(s, pos, Decimal(n)) && pos + |Decimal(n)| < |s| && !DigitAt(s, pos + |Decimal(n)|)
    ensures ReadDigits(LONG_LONG, s, pos, sgn) == Ok(Signed(sgn, n), pos + |Decimal(n)|)
  {
    hide ReadDigits, Starts, Decimal;
    StandardTypes();
    ReadPrinted(LONG_LONG, s, pos, n, sgn);
  }

  lemma ReadSize(s: string, pos: nat, n: nat)
    requires Fits(SIZE_T, n)
    requires Starts(s, pos, Decimal(n)) && pos + |Decimal(n)| < |s| && !DigitAt(s, pos + |Decimal(n)|)
    ensures ReadDigits(SIZE_T, s, pos, 1) == Ok(n, pos + |Decimal(n)|)
  {
    hide ReadDigits, Starts, Decimal;
    StandardTypes();
    ReadPrinted(SIZE_T, s, pos, n, 1);
  }

  lemma IntRoundTrip(s: string, pos: nat, n: int)
    requires Starts(s, pos, Encode(Integer(n))) && Fits(LONG_LONG, n)
    ensures ParseValue(s, pos) == Ok(Integer(n), pos + |Encode(Integer(n))|)
  {
    hide ReadDigits, Decimal;
    var body := IntText(n);
    assert Encode(Integer(n)) == "i" + (body + "e");
    StartsSplit(s, pos, "i", body + "e");
    StartsChar(s, pos, 'i');
    StartsSplit(s, pos + 1, body, "e");
    StartsChar(s, pos + 1 + |body|, 'e');
    if n < 0 {
      StartsSplit(s, pos + 1, "-", Decimal(-n));
      StartsChar(s, pos + 1, '-');
      ReadLongLong(s, pos + 2, -n, -1);
    } else {
      DecimalStarts(s, pos + 1, n);
      ReadLongLong(s, pos + 1, n, 1);
    }
  }

  lemma StringRoundTrip(s: string, pos: nat, t: string)
    requires Starts(s, pos, EncodeString(t)) && Fits(SIZE_T, |t|)
    ensures DigitAt(s, pos) && ReadString(s, pos) == Ok(t, pos + |EncodeString(t)|)
  {
    hide ReadDigits, Decimal;
    var ds := Decimal(|t|);
    assert EncodeString(t) == ds + (":" + t);
    StartsSplit(s, pos, ds, ":" + t);
    StartsSplit(s, pos + |ds|, ":", t);
    StartsChar(s, pos + |ds|, ':');
    DecimalStarts(s, pos, |t|);
    ReadSize(s, pos, |t|);
  }

  /** No encoding starts like the end of a container. */
  lemma FirstChar(s: string, pos: nat, v: Value)
    requires Starts(s, pos, Encode(v))
    ensures pos < |s| && s[pos] != 'e'
    ensures v.List? ==> s[pos] == 'l'
    ensures v.Dict? ==> s[pos] == 'd'
    ensures v.Str? ==> IsDigit(s[pos])
  {
    assert s[pos..pos + |Encode(v)|][0] == Encode(v)[0];
    if v.Str? { DecimalIsCanonical(|v.s|); }
  }

  /** A key above all others goes last. */
  lemma {:induction false} InsertLast(es: seq<Entry>, key: string, v: Value)
    requires forall k :: 0 <= k < |es| ==> Less(es[k].key, key)
    ensures Insert(es, key, v) == es + [Entry(key, v)] && !HasKey(es, key)
  {
    LessIrreflexive(key);
    if es != [] {
      if Less(key, es[0].key) {
        LessTransitive(key, es[0].key, key);
      }
      InsertLast(es[1..], key, v);
      assert es == [es[0]] + es[1..];
    }
  }

  /** Round trip: the parser reads the value back and stops exactly at its end. */
  lemma {:induction false} ValueRoundTrip(v: Value, s: string, pos: nat)
    requires Representable(v) && Starts(s, pos, Encode(v))
    ensures ParseValue(s, pos) == Ok(v, pos + |Encode(v)|)
    decreases v, 1
  {
    hide ReadString, Starts, EncodeItems, EncodeEntries, EncodeString, ParseItems, ParseEntries;
    FirstChar(s, pos, v);
    match v
    case Integer(n) => IntRoundTrip(s, pos, n);
    case Str(t) => StringRoundTrip(s, pos, t);
    case List(items) =>
      EncodeListIs(items);
      StartsSplit(s, pos, "l", EncodeItems(items) + "e");
      ItemsRoundTrip(items, s, pos + 1, []);
      assert [] + items == items;
    case Dict(es) =>
      EncodeDictIs(es);
      StartsSplit(s, pos, "d", EncodeEntries(es) + "e");
      assert [] + es == es;
      EntriesRoundTrip(es, s, pos + 1, []);
  }

  lemma ParseOneItem(s: string, pos: nat, acc: seq<Value>, v: Value, q: nat)
    requires pos < |s| && s[pos] != 'e' && ParseValue(s, pos) == Ok(v, q) && q <= |s|
    ensures ParseItems(s, pos, acc) == ParseItems(s, q, acc + [v])
  {
    hide ParseValue;
  }

  lemma {:induction false} ItemsRoundTrip(items: seq<Value>, s: string, pos: nat, acc: seq<Value>)
    requires forall k :: 0 <= k < |items| ==> Representable(items[k])
    requires Starts(s, pos, EncodeItems(items) + "e")
    ensures ParseItems(s, pos, acc) == Ok(List(acc + items), pos + |EncodeItems(items)| + 1)
    decreases items, 0
  {
    hide Representable, Starts, Encode, EncodeItems, ParseValue;
    EncodeItemsIs(items);
    if items == [] {
      EmptyItems();
      StartsChar(s, pos, 'e');
      assert acc + items == acc;
    } else {
      var head, tail := Encode(items[0]), EncodeItems(items[1..]) + "e";
      StartsSplit(s, pos, head, tail);
      StartsInRange(s, pos + |head|, tail);
      FirstChar(s, pos, items[0]);
      ValueRoundTrip(items[0], s, pos);
      ParseOneItem(s, pos, acc, items[0], pos + |head|);
      ItemsRoundTrip(items[1..], s, pos + |head|, acc + [items[0]]);
      assert acc + [items[0]] + items[1..] == acc + items;
    }
  }

  lemma EmptyItems()
    ensures EncodeItems([]) == "" && EncodeEntries([]) == ""
  {
  }

  lemma StartsInRange(s: string, pos: nat, e: string)
    requires Starts(s, pos, e)
    ensures pos + |e| <= |s|
  {
  }

  lemma ParseOneEntry(s: string, pos: nat, acc: seq<Entry>, key: string, p: nat, v: Value, q: nat)
    requires DigitAt(s, pos) && ReadString(s, pos) == Ok(key, p) && p <= |s|
    requires ParseValue(s, p) == Ok(v, q) && q <= |s| && !HasKey(acc, key)
    ensures ParseEntries(s, pos, acc) == ParseEntries(s, q, Insert(acc, key, v))
  {
    hide ReadString, ParseValue, Insert, HasKey;
  }

  lemma {:induction false} EntriesRoundTrip(es: seq<Entry>, s: string, pos: nat, acc: seq<Entry>)
    requires Sorted(acc + es) && forall k :: 0 <= k < |es| ==> EntryRepresentable(es[k])
    requires Starts(s, pos, EncodeEntries(es) + "e")
    ensures ParseEntries(s, pos, acc) == Ok(Dict(acc + es), pos + |EncodeEntries(es)| + 1)
    decreases es, 0
  {
    hide Representable, Starts, EncodeString, Encode, EncodeEntries, ReadString, ParseValue, Insert, HasKey, Less;
    EncodeEntriesIs(es);
    if es == [] {
      EmptyItems();
      StartsChar(s, pos, 'e');
      assert acc + es == acc;
    } else {
      var key, v := es[0].key, es[0].value;
      var head, middle, tail := EncodeString(key), Encode(v), EncodeEntries(es[1..]) + "e";
      StartsSplit(s, pos, head, middle + tail);
      StartsSplit(s, pos + |head|, middle, tail);
      StartsInRange(s, pos + |head| + |middle|, tail);
      assert EntryRepresentable(es[0]);
      StringRoundTrip(s, pos, key);
      ValueRoundTrip(v, s, pos + |head|);
      KeysBelow(acc, es);
      InsertLast(acc, key, v);
      var acc' := acc + [es[0]];
      assert acc' + es[1..] == acc + es;
      ParseOneEntry(s, pos, acc, key, pos + |head|, v, pos + |head| + |middle|);
      EntriesRoundTrip(es[1..], s, pos + |head| + |middle|, acc');
    }
  }

  lemma KeysBelow(acc: seq<Entry>, es: seq<Entry>)
    requires Sorted(acc + es) && es != []
    ensures forall k :: 0 <= k < |acc| ==> Less(acc[k].key, es[0].key)
  {
    var all := acc + es;
    forall k | 0 <= k < |acc| ensures Less(acc[k].key, es[0].key) {
      assert all[k] == acc[k] && all[|acc|] == es[0];
    }
  }

  /** Decoding `Encode(v)` followed by anything yields `v` and stops where the suffix starts. */
  lemma RoundTrip(v: Value, suffix: string)
    requires Representable(v)
    ensures ParseValue(Encode(v) + suffix, 0) == Ok(v, |Encode(v)|)
  {
    hide Encode, ParseValue, Representable;
    assert (Encode(v) + suffix)[0..0 + |Encode(v)|] == Encode(v);
    ValueRoundTrip(v, Encode(v) + suffix, 0);
  }

  /** No encoding is a proper prefix of another, and different values have different encodings. */
  lemma EncodingIsPrefixFree(v: Value, w: Value)
    requires Representable(v) && Representable(w)
    requires Encode(v) <= Encode(w)
    ensures v == w
  {
    hide Encode, ParseValue, Representable;
    var suffix := Encode(w)[|Encode(v)|..];
    assert Encode(w) == Encode(v) + suffix;
    RoundTrip(v, suffix);
    RoundTrip(w, "");
    assert Encode(w) + "" == Encode(w);
  }

  // ---------------------------------------------------------------- the examples of BEP 3

  lemma OneDigit(n: nat)
    requires n < 10
    ensures Decimal(n) == [DigitChar(n)]
  {
  }

  lemma ShortString(s: string)
    requires |s| < 10
    ensures Encode(Str(s)) == EncodeString(s) == [DigitChar(|s|), ':'] + s
  {
    OneDigit(|s|);
    hide Decimal;
  }

  lemma EncodesExampleIntegers()
    ensures Encode(Integer(3)) == "i3e" && Encode(Integer(-3)) == "i-3e" && Encode(Integer(0)) == "i0e"
  {
    OneDigit(0);
    OneDigit(3);
    hide Decimal;
  }

  /** The encodings that the "bencoding" section of BEP 3 gives as examples. */
  lemma EncodesExamples()
    ensures Encode(Integer(3)) == "i3e" && Encode(Integer(-3)) == "i-3e" && Encode(Integer(0)) == "i0e"
    ensures Encode(Str("spam")) == "4:spam"
    ensures Encode(List([Str("spam"), Str("eggs")])) == "l4:spam4:eggse"
    ensures Encode(Dict([Entry("cow", Str("moo")), Entry("spam", Str("eggs"))])) == "d3:cow3:moo4:spam4:eggse"
  {
    hide Encode, EncodeItems, EncodeEntries, EncodeString, DigitChar;
    EncodesExampleIntegers();
    ShortString("spam");
    ShortString("eggs");
    ShortString("cow");
    ShortString("moo");
    ExampleDigits();
    TwoItems(Str("spam"), Str("eggs"));
    TwoEntries(Entry("cow", Str("moo")), Entry("spam", Str("eggs")));
  }

  lemma ExampleDigits()
    ensures DigitChar(3) == '3' && DigitChar(4) == '4'
  {
  }

  lemma TwoItems(a: Value, b: Value)
    ensures Encode(List([a, b])) == "l" + (Encode(a) + Encode(b)) + "e"
  {
    EncodeListIs([a, b]);
    EncodeItemsIs([a, b]);
    EncodeItemsIs([b]);
    EmptyItems();
    hide Encode, EncodeItems;
    assert [a, b][1..] == [b] && [b][1..] == [];
  }

  lemma TwoEntries(a: Entry, b: Entry)
    ensures Encode(Dict([a, b]))
      == "d" + (EncodeString(a.key) + Encode(a.value) + (EncodeString(b.key) + Encode(b.value))) + "e"
  {
    EncodeDictIs([a, b]);
    EncodeEntriesIs([a, b]);
    EncodeEntriesIs([b]);
    assert EncodeEntries([]) == "";
    hide Encode, EncodeEntries, EncodeString;
    assert [a, b][1..] == [b] && [b][1..] == [];
  }
}
