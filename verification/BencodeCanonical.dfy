/**
 * Which inputs are reproduced byte for byte by decoding and encoding again: exactly those that
 * an independent recogniser accepts as canonical. The info hash of a torrent is computed from a
 * re-encoded dictionary, so it is the hash of the file's own bytes exactly for these.
 */
module BencodeCanonical {
  import opened Bytes
  import opened BencodeDigits
  import opened BencodeGrammar
  import opened BencodeRoundTrip

  // ---------------------------------------------------------------- the recogniser

  /** Digits without a leading zero; the position after them. */
  function CanonDigits(s: string, pos: nat): (r: Option<nat>)
    requires pos <= |s|
    ensures r.Some? ==> pos < r.value <= |s|
  {
    var end := RunEnd(s, pos);
    if CanonicalDigits(s[pos..end]) then Some(end) else None
  }

  /** No minus before a zero. */
  function CanonInt(s: string, pos: nat): (r: Option<nat>)
    requires CharAt(s, pos, 'i')
    ensures r.Some? ==> pos < r.value <= |s|
  {
    var negative := CharAt(s, pos + 1, '-');
    var first := if negative then pos + 2 else pos + 1;
    match CanonDigits(s, first)
    case None => None
    case Some(end) =>
      if (negative && s[first] == '0') || !CharAt(s, end, 'e') then None else Some(end + 1)
  }

  function CanonString(s: string, pos: nat): (r: Option<nat>)
    requires DigitAt(s, pos)
    ensures r.Some? ==> pos < r.value <= |s|
  {
    match CanonDigits(s, pos)
    case None => None
    case Some(colon) =>
      var end := colon + 1 + DecimalValue(s[pos..RunEnd(s, pos)]);
      if !CharAt(s, colon, ':') || end > |s| then None else Some(end)
  }

  /** The bytes of a string that the recogniser accepted. */
  function KeyAt(s: string, pos: nat): string
    requires DigitAt(s, pos) && CanonString(s, pos).Some?
  {
    s[RunEnd(s, pos) + 1..CanonString(s, pos).value]
  }

  function CanonValue(s: string, pos: nat): (r: Option<nat>)
    requires pos <= |s|
    ensures r.Some? ==> pos < r.value <= |s|
    decreases |s| - pos, 0
  {
    if pos == |s| then None
    else if s[pos] == 'i' then CanonInt(s, pos)
    else if s[pos] == 'l' then CanonItems(s, pos + 1)
    else if s[pos] == 'd' then CanonEntries(s, pos + 1, None)
    else if IsDigit(s[pos]) then CanonString(s, pos)
    else None
  }

  function CanonItems(s: string, pos: nat): (r: Option<nat>)
    requires pos <= |s|
    ensures r.Some? ==> pos < r.value <= |s|
    decreases |s| - pos, 1
  {
    if pos == |s| then None
    else if s[pos] == 'e' then Some(pos + 1)
    else
      match CanonValue(s, pos)
      case None => None
      case Some(p) => CanonItems(s, p)
  }

  /** Keys strictly ascending. */
  function CanonEntries(s: string, pos: nat, previous: Option<string>): (r: Option<nat>)
    requires pos <= |s|
    ensures r.Some? ==> pos < r.value <= |s|
    decreases |s| - pos, 1
  {
    if pos == |s| then None
    else if s[pos] == 'e' then Some(pos + 1)
    else if !IsDigit(s[pos]) then None
    else
      match CanonString(s, pos)
      case None => None
      case Some(p) =>
        if previous.Some? && !Less(previous.value, KeyAt(s, pos)) then None
        else
          match CanonValue(s, p)
          case None => None
          case Some(q) => CanonEntries(s, q, Some(KeyAt(s, pos)))
  }

  // ---------------------------------------------------------------- canonical inputs are reproduced

  lemma DigitsReencode(s: string, pos: nat)
    requires pos <= |s|
    ensures CanonDigits(s, pos).Some? <==>
      Decimal(DecimalValue(s[pos..RunEnd(s, pos)])) == s[pos..RunEnd(s, pos)]
    ensures CanonDigits(s, pos).Some? ==> CanonDigits(s, pos).value == RunEnd(s, pos)
  {
    CanonicalIffReprinted(s[pos..RunEnd(s, pos)]);
  }

  /** The digits read are the whole run. */
  lemma ReadsWholeRun(t: IntType, s: string, pos: nat, sgn: int)
    requires pos <= |s| && ReadDigits(t, s, pos, sgn).Ok?
    ensures ReadDigits(t, s, pos, sgn)
      == Ok(Signed(sgn, DecimalValue(s[pos..RunEnd(s, pos)])), RunEnd(s, pos))
  {
  }

  lemma IntReencodes(s: string, pos: nat)
    requires CharAt(s, pos, 'i') && ReadInt(s, pos).Ok? && CanonInt(s, pos).Some?
    ensures ReadInt(s, pos).pos == CanonInt(s, pos).value
    ensures s[pos..ReadInt(s, pos).pos] == Encode(Integer(ReadInt(s, pos).value))
  {
    hide ReadDigits, CanonDigits, RunEnd, Decimal, DecimalValue;
    var negative := CharAt(s, pos + 1, '-');
    var first := if negative then pos + 2 else pos + 1;
    var sgn := if negative then -1 else 1;
    var end := RunEnd(s, first);
    DigitsReencode(s, first);
    ReadsWholeRun(LONG_LONG, s, first, sgn);
    if negative { PositiveDigits(s, first); }
    assert s[pos..end + 1] == s[pos..first] + s[first..end] + [s[end]];
    assert s[pos..first] == if negative then "i-" else "i";
  }

  lemma PositiveDigits(s: string, first: nat)
    requires first < |s| && s[first] != '0' && CanonDigits(s, first).Some?
    ensures DecimalValue(s[first..RunEnd(s, first)]) > 0
  {
    LeadingDigit(s[first..RunEnd(s, first)]);
  }

  lemma StringReencodes(s: string, pos: nat)
    requires DigitAt(s, pos) && ReadString(s, pos).Ok? && CanonString(s, pos).Some?
    ensures ReadString(s, pos).pos == CanonString(s, pos).value
    ensures KeyAt(s, pos) == ReadString(s, pos).value
    ensures s[pos..ReadString(s, pos).pos] == EncodeString(ReadString(s, pos).value)
  {
    hide ReadDigits, CanonDigits, RunEnd, Decimal, DecimalValue;
    var colon := RunEnd(s, pos);
    DigitsReencode(s, pos);
    ReadsWholeRun(SIZE_T, s, pos, 1);
    var end := ReadString(s, pos).pos;
    assert s[pos..end] == s[pos..colon] + [s[colon]] + s[colon + 1..end];
  }

  /** A canonical input is the encoding of what it is decoded to. */
  lemma {:induction false} CanonicalReencodes(s: string, pos: nat)
    requires pos <= |s| && ParseValue(s, pos).Ok? && CanonValue(s, pos).Some?
    ensures CanonValue(s, pos).value == ParseValue(s, pos).pos
    ensures s[pos..ParseValue(s, pos).pos] == Encode(ParseValue(s, pos).value)
    decreases |s| - pos, 0
  {
    hide ReadInt, CanonInt, ReadString, CanonString, EncodeString, KeyAt;
    if s[pos] == 'i' {
      IntReencodes(s, pos);
    } else if s[pos] == 'l' {
      CanonicalItems(s, pos + 1, []);
      var r := ParseValue(s, pos);
      assert s[pos..r.pos] == ['l'] + s[pos + 1..r.pos];
      assert r.value.items[0..] == r.value.items;
    } else if s[pos] == 'd' {
      CanonicalEntries(s, pos + 1, [], None);
      var r := ParseValue(s, pos);
      assert s[pos..r.pos] == ['d'] + s[pos + 1..r.pos];
      assert r.value.entries[0..] == r.value.entries;
    } else {
      StringReencodes(s, pos);
    }
  }

  lemma {:induction false} CanonicalItems(s: string, pos: nat, acc: seq<Value>)
    requires pos <= |s| && ParseItems(s, pos, acc).Ok? && CanonItems(s, pos).Some?
    ensures var r := ParseItems(s, pos, acc);
      && CanonItems(s, pos).value == r.pos
      && r.value.List? && acc <= r.value.items
      && s[pos..r.pos] == EncodeItems(r.value.items[|acc|..]) + "e"
    decreases |s| - pos, 1
  {
    hide Encode;
    var r := ParseItems(s, pos, acc);
    if s[pos] == 'e' {
      assert r.value.items[|acc|..] == [];
    } else {
      CanonicalReencodes(s, pos);
      var v, p := ParseValue(s, pos).value, ParseValue(s, pos).pos;
      CanonicalItems(s, p, acc + [v]);
      var rest := r.value.items[|acc|..];
      assert rest[0] == v && rest[1..] == r.value.items[|acc + [v]|..];
      assert s[pos..r.pos] == s[pos..p] + s[p..r.pos];
    }
  }

  /** The entries so far are in order and end with the previous key. */
  ghost predicate EndsWith(acc: seq<Entry>, previous: Option<string>) {
    Sorted(acc) && (if acc == [] then previous.None? else previous == Some(acc[|acc| - 1].key))
  }

  lemma AllBelow(acc: seq<Entry>, previous: Option<string>, key: string, v: Value)
    requires EndsWith(acc, previous) && (previous.Some? ==> Less(previous.value, key))
    ensures Insert(acc, key, v) == acc + [Entry(key, v)] && !HasKey(acc, key)
    ensures EndsWith(acc + [Entry(key, v)], Some(key))
  {
    forall k | 0 <= k < |acc| ensures Less(acc[k].key, key) {
      if k < |acc| - 1 { LessTransitive(acc[k].key, acc[|acc| - 1].key, key); }
    }
    InsertLast(acc, key, v);
  }

  /** What a successful parse says about the next entry. */
  lemma ParsedEntry(s: string, pos: nat, acc: seq<Entry>)
    requires pos < |s| && ParseEntries(s, pos, acc).Ok? && s[pos] != 'e'
    ensures DigitAt(s, pos) && ReadString(s, pos).Ok?
    ensures var key, p := ReadString(s, pos).value, ReadString(s, pos).pos;
      && ParseValue(s, p).Ok? && !HasKey(acc, key)
      && ParseEntries(s, pos, acc) == ParseEntries(s, ParseValue(s, p).pos, Insert(acc, key, ParseValue(s, p).value))
  {
    hide ReadString, ParseValue, HasKey, Insert;
  }

  /** What the recogniser says about it. */
  lemma RecognisedEntry(s: string, pos: nat, previous: Option<string>)
    requires pos < |s| && CanonEntries(s, pos, previous).Some? && s[pos] != 'e' && DigitAt(s, pos)
    ensures CanonString(s, pos).Some? && (previous.Some? ==> Less(previous.value, KeyAt(s, pos)))
    ensures var p := CanonString(s, pos).value;
      && CanonValue(s, p).Some?
      && CanonEntries(s, pos, previous) == CanonEntries(s, CanonValue(s, p).value, Some(KeyAt(s, pos)))
  {
    hide CanonString, CanonValue, KeyAt, Less;
  }

  lemma EntriesNotOver(s: string, pos: nat, acc: seq<Entry>)
    requires pos <= |s| && ParseEntries(s, pos, acc).Ok?
    ensures pos < |s|
    ensures s[pos] == 'e' ==> ParseEntries(s, pos, acc) == Ok(Dict(acc), pos + 1)
    ensures s[pos] == 'e' ==> forall previous :: CanonEntries(s, pos, previous) == Some(pos + 1)
  {
    hide ReadString, CanonString, ParseValue, CanonValue;
  }

  lemma {:induction false} CanonicalEntries(s: string, pos: nat, acc: seq<Entry>, previous: Option<string>)
    requires pos <= |s| && ParseEntries(s, pos, acc).Ok? && CanonEntries(s, pos, previous).Some?
    requires EndsWith(acc, previous)
    ensures var r := ParseEntries(s, pos, acc);
      && CanonEntries(s, pos, previous).value == r.pos
      && r.value.Dict? && acc <= r.value.entries
      && s[pos..r.pos] == EncodeEntries(r.value.entries[|acc|..]) + "e"
    decreases |s| - pos, 1
  {
    hide Encode, EncodeString, EncodeEntries, ReadString, CanonString, KeyAt, Insert, HasKey, EndsWith, Less,
      ParseEntries, CanonEntries, ParseValue, CanonValue;
    EntriesNotOver(s, pos, acc);
    var r := ParseEntries(s, pos, acc);
    if s[pos] == 'e' {
      assert r.value.entries[|acc|..] == [];
      EncodeEntriesIs([]);
    } else {
      ParsedEntry(s, pos, acc);
      RecognisedEntry(s, pos, previous);
      StringReencodes(s, pos);
      var key, p := ReadString(s, pos).value, ReadString(s, pos).pos;
      CanonicalReencodes(s, p);
      var v, q := ParseValue(s, p).value, ParseValue(s, p).pos;
      AllBelow(acc, previous, key, v);
      var acc' := acc + [Entry(key, v)];
      CanonicalEntries(s, q, acc', Some(key));
      var rest := r.value.entries[|acc|..];
      assert rest[0] == Entry(key, v) && rest[1..] == r.value.entries[|acc'|..];
      EncodeEntriesIs(rest);
      assert s[pos..r.pos] == s[pos..p] + (s[p..q] + s[q..r.pos]);
    }
  }

  // ---------------------------------------------------------------- encodings are canonical

  lemma DecimalIsCanon(s: string, pos: nat, n: nat)
    requires Starts(s, pos, Decimal(n)) && !DigitAt(s, pos + |Decimal(n)|)
    ensures CanonDigits(s, pos) == Some(pos + |Decimal(n)|)
    ensures DecimalValue(s[pos..RunEnd(s, pos)]) == n
    ensures n > 0 ==> pos < |s| && s[pos] != '0'
  {
    hide Decimal, DecimalValue, RunEnd;
    var ds := Decimal(n);
    RunIsText(s, pos, ds);
    DecimalRoundTrip(n);
    DecimalIsCanonical(n);
    assert s[pos..pos + |ds|][0] == s[pos];
  }

  lemma IntIsCanon(s: string, pos: nat, n: int)
    requires Starts(s, pos, Encode(Integer(n)))
    ensures CanonValue(s, pos) == Some(pos + |Encode(Integer(n))|)
  {
    hide CanonDigits, Decimal, DecimalValue, RunEnd;
    var body := IntText(n);
    assert Encode(Integer(n)) == "i" + (body + "e");
    StartsSplit(s, pos, "i", body + "e");
    StartsChar(s, pos, 'i');
    StartsSplit(s, pos + 1, body, "e");
    StartsChar(s, pos + 1 + |body|, 'e');
    if n < 0 {
      StartsSplit(s, pos + 1, "-", Decimal(-n));
      StartsChar(s, pos + 1, '-');
      DecimalIsCanon(s, pos + 2, -n);
    } else {
      DecimalStarts(s, pos + 1, n);
      DecimalIsCanon(s, pos + 1, n);
    }
  }

  lemma StringIsCanon(s: string, pos: nat, t: string)
    requires Starts(s, pos, EncodeString(t))
    ensures DigitAt(s, pos) && CanonString(s, pos) == Some(pos + |EncodeString(t)|) && KeyAt(s, pos) == t
  {
    hide CanonDigits, Decimal, DecimalValue;
    var ds := Decimal(|t|);
    assert EncodeString(t) == ds + (":" + t);
    StartsSplit(s, pos, ds, ":" + t);
    StartsSplit(s, pos + |ds|, ":", t);
    StartsChar(s, pos + |ds|, ':');
    DecimalStarts(s, pos, |t|);
    DecimalIsCanon(s, pos, |t|);
    RunIsText(s, pos, ds);
  }

  lemma {:induction false} EncodingIsCanonical(v: Value, s: string, pos: nat)
    requires Representable(v) && Starts(s, pos, Encode(v))
    ensures CanonValue(s, pos) == Some(pos + |Encode(v)|)
    decreases v, 1
  {
    hide CanonString, CanonInt, CanonItems, CanonEntries, Starts, EncodeItems, EncodeEntries, EncodeString;
    FirstChar(s, pos, v);
    match v
    case Integer(n) => IntIsCanon(s, pos, n);
    case Str(t) => StringIsCanon(s, pos, t);
    case List(items) =>
      EncodeListIs(items);
      StartsSplit(s, pos, "l", EncodeItems(items) + "e");
      ItemsAreCanonical(items, s, pos + 1);
    case Dict(es) =>
      EncodeDictIs(es);
      StartsSplit(s, pos, "d", EncodeEntries(es) + "e");
      EntriesAreCanonical(es, s, pos + 1, None);
  }

  lemma {:induction false} ItemsAreCanonical(items: seq<Value>, s: string, pos: nat)
    requires forall k :: 0 <= k < |items| ==> Representable(items[k])
    requires Starts(s, pos, EncodeItems(items) + "e")
    ensures CanonItems(s, pos) == Some(pos + |EncodeItems(items)| + 1)
    decreases items, 0
  {
    hide Representable, Starts, Encode, EncodeItems, CanonValue;
    EncodeItemsIs(items);
    if items == [] {
      EmptyItems();
      StartsChar(s, pos, 'e');
    } else {
      var head, tail := Encode(items[0]), EncodeItems(items[1..]) + "e";
      StartsSplit(s, pos, head, tail);
      FirstChar(s, pos, items[0]);
      EncodingIsCanonical(items[0], s, pos);
      ItemsAreCanonical(items[1..], s, pos + |head|);
    }
  }

  lemma {:induction false} EntriesAreCanonical(es: seq<Entry>, s: string, pos: nat, previous: Option<string>)
    requires Sorted(es) && forall k :: 0 <= k < |es| ==> EntryRepresentable(es[k])
    requires previous.Some? && es != [] ==> Less(previous.value, es[0].key)
    requires Starts(s, pos, EncodeEntries(es) + "e")
    ensures CanonEntries(s, pos, previous) == Some(pos + |EncodeEntries(es)| + 1)
    decreases es, 0
  {
    hide Representable, Starts, CanonString, CanonValue, EncodeString, Encode, EncodeEntries, KeyAt, Less;
    EncodeEntriesIs(es);
    if es == [] {
      EmptyItems();
      StartsChar(s, pos, 'e');
    } else {
      var key, v := es[0].key, es[0].value;
      var head, middle, tail := EncodeString(key), Encode(v), EncodeEntries(es[1..]) + "e";
      StartsSplit(s, pos, head, middle + tail);
      StartsSplit(s, pos + |head|, middle, tail);
      assert EntryRepresentable(es[0]);
      StringIsCanon(s, pos, key);
      EncodingIsCanonical(v, s, pos + |head|);
      assert es[1..] != [] ==> es[1..][0] == es[1];
      EntriesAreCanonical(es[1..], s, pos + |head| + |middle|, Some(key));
    }
  }

  // ---------------------------------------------------------------- decoded values are representable

  lemma ReadFits(t: IntType, s: string, pos: nat, sgn: int)
    requires pos <= |s| && SafeDigits(t, sgn)
    ensures ReadDigits(t, s, pos, sgn).Ok? ==> Fits(t, ReadDigits(t, s, pos, sgn).value)
  {
    hide DecimalValue, Pow10;
    DigitsExact(t, s, pos, sgn);
  }

  lemma StringFits(s: string, pos: nat)
    requires DigitAt(s, pos) && ReadString(s, pos).Ok?
    ensures Fits(SIZE_T, |ReadString(s, pos).value|)
  {
    hide ReadDigits;
    StandardTypes();
    ReadFits(SIZE_T, s, pos, 1);
  }

  lemma IntFits(s: string, pos: nat)
    requires CharAt(s, pos, 'i') && ReadInt(s, pos).Ok?
    ensures Fits(LONG_LONG, ReadInt(s, pos).value)
  {
    StandardTypes();
    hide ReadDigits, SafeDigits;
    var negative := CharAt(s, pos + 1, '-');
    ReadFits(LONG_LONG, s, if negative then pos + 2 else pos + 1, if negative then -1 else 1);
  }

  /** Inserting a new key keeps the order of keys, and adds nothing but that entry. */
  lemma {:induction false} InsertKeepsSorted(es: seq<Entry>, key: string, v: Value)
    requires Sorted(es) && !HasKey(es, key)
    ensures Sorted(Insert(es, key, v))
    ensures forall e :: e in Insert(es, key, v) ==> e in es || e == Entry(key, v)
  {
    hide Less;
    if es != [] {
      NewKeyInTail(es, key);
      LessTotal(key, es[0].key);
      if Less(key, es[0].key) {
        forall k | 0 <= k < |es| ensures Less(key, es[k].key) {
          if k > 0 { LessTransitive(key, es[0].key, es[k].key); }
        }
      } else {
        InsertKeepsSorted(es[1..], key, v);
        var rest := Insert(es[1..], key, v);
        forall k | 0 <= k < |rest| ensures Less(es[0].key, rest[k].key) {
          assert rest[k] in rest;
        }
      }
    }
  }

  lemma {:induction false} ParsedIsRepresentable(s: string, pos: nat)
    requires pos <= |s| && ParseValue(s, pos).Ok?
    ensures Representable(ParseValue(s, pos).value)
    decreases |s| - pos, 0
  {
    hide ReadInt, ReadString;
    if s[pos] == 'i' {
      IntFits(s, pos);
    } else if s[pos] == 'l' {
      ItemsRepresentable(s, pos + 1, []);
    } else if s[pos] == 'd' {
      EntriesRepresentable(s, pos + 1, []);
    } else {
      StringFits(s, pos);
    }
  }

  lemma {:induction false} ItemsRepresentable(s: string, pos: nat, acc: seq<Value>)
    requires pos <= |s| && ParseItems(s, pos, acc).Ok?
    requires forall k :: 0 <= k < |acc| ==> Representable(acc[k])
    ensures Representable(ParseItems(s, pos, acc).value)
    decreases |s| - pos, 1
  {
    if s[pos] != 'e' {
      ParsedIsRepresentable(s, pos);
      ItemsRepresentable(s, ParseValue(s, pos).pos, acc + [ParseValue(s, pos).value]);
    }
  }

  lemma {:induction false} EntriesRepresentable(s: string, pos: nat, acc: seq<Entry>)
    requires pos <= |s| && ParseEntries(s, pos, acc).Ok?
    requires Sorted(acc) && forall e :: e in acc ==> EntryRepresentable(e)
    ensures Representable(ParseEntries(s, pos, acc).value)
    decreases |s| - pos, 1
  {
    hide ReadString, Insert, HasKey, Less;
    if s[pos] == 'e' {
      forall k | 0 <= k < |acc| ensures EntryRepresentable(acc[k]) { assert acc[k] in acc; }
    } else {
      StringFits(s, pos);
      var key, p := ReadString(s, pos).value, ReadString(s, pos).pos;
      ParsedIsRepresentable(s, p);
      var v, q := ParseValue(s, p).value, ParseValue(s, p).pos;
      InsertKeepsSorted(acc, key, v);
      EntriesRepresentable(s, q, Insert(acc, key, v));
    }
  }

  /**
   * Encoding the decoded value gives back the bytes it was decoded from if and only if those
   * bytes are canonical.
   */
  lemma ReencodesIffCanonical(s: string, pos: nat, v: Value, end: nat)
    requires pos <= |s| && ParseValue(s, pos) == Ok(v, end)
    ensures end <= |s| && (s[pos..end] == Encode(v) <==> CanonValue(s, pos) == Some(end))
  {
    hide ParseValue, CanonValue, Encode, Representable;
    ParsedIsRepresentable(s, pos);
    ParsedInRange(s, pos);
    if CanonValue(s, pos).Some? { CanonicalReencodes(s, pos); }
    if s[pos..end] == Encode(v) {
      assert s[pos..pos + |Encode(v)|] == Encode(v);
      EncodingIsCanonical(v, s, pos);
    }
  }

  lemma ParsedInRange(s: string, pos: nat)
    requires pos <= |s| && ParseValue(s, pos).Ok?
    ensures pos < ParseValue(s, pos).pos <= |s|
  {
  }

  // ---------------------------------------------------------------- values inside a dictionary

  /** The entry stands in the input: its key from `k` to `p`, its value from `p` to `q`. */
  predicate EntryAt(s: string, e: Entry, k: nat, p: nat, q: nat) {
    && DigitAt(s, k) && ReadString(s, k) == Ok(e.key, p)
    && p <= |s| && ParseValue(s, p) == Ok(e.value, q)
  }

  lemma {:induction false} InsertAddsOnly(es: seq<Entry>, key: string, v: Value)
    ensures forall e :: e in Insert(es, key, v) ==> e in es || e == Entry(key, v)
  {
    hide Less;
    if es != [] { InsertAddsOnly(es[1..], key, v); }
  }

  lemma {:induction false} EntriesAreParsed(s: string, pos: nat, acc: seq<Entry>, e: Entry)
    returns (k: nat, p: nat, q: nat)
    requires pos <= |s| && ParseEntries(s, pos, acc).Ok?
    ensures ParseEntries(s, pos, acc).value.Dict?
    ensures e in ParseEntries(s, pos, acc).value.entries && e !in acc ==>
      pos <= k && EntryAt(s, e, k, p, q) && q < ParseEntries(s, pos, acc).pos
    decreases |s| - pos
  {
    hide ReadString, Insert, HasKey, ParseValue;
    k, p, q := 0, 0, 0;
    if s[pos] != 'e' {
      var key, at := ReadString(s, pos).value, ReadString(s, pos).pos;
      var v, next := ParseValue(s, at).value, ParseValue(s, at).pos;
      var acc' := Insert(acc, key, v);
      InsertAddsOnly(acc, key, v);
      k, p, q := EntriesAreParsed(s, next, acc', e);
      if e in acc' && e !in acc {
        k, p, q := pos, at, next;
        EntriesGoOn(s, next, acc');
      }
    }
  }

  lemma EntriesGoOn(s: string, pos: nat, acc: seq<Entry>)
    requires pos <= |s| && ParseEntries(s, pos, acc).Ok?
    ensures pos < ParseEntries(s, pos, acc).pos
  {
  }

  /**
   * A value stored under a key of a decoded dictionary was decoded from a range of the input
   * right after that key, and encoding it alone gives back exactly that range if and only if
   * the range is canonical. The info hash is computed from such a re-encoded value.
   */
  lemma StoredReencodesIffCanonical(s: string, pos: nat, e: Entry) returns (k: nat, p: nat, q: nat)
    requires pos <= |s| && ParseValue(s, pos).Ok? && ParseValue(s, pos).value.Dict?
    requires e in ParseValue(s, pos).value.entries
    ensures pos < k < p < q < ParseValue(s, pos).pos <= |s| && EntryAt(s, e, k, p, q)
    ensures s[p..q] == Encode(e.value) <==> CanonValue(s, p) == Some(q)
  {
    hide ParseEntries, CanonValue, Encode, ReadString, ReadInt;
    assert s[pos] == 'd' by { OnlyDictsAreDicts(s, pos); }
    k, p, q := EntriesAreParsed(s, pos + 1, [], e);
    ReencodesIffCanonical(s, p, e.value, q);
  }

  lemma OnlyDictsAreDicts(s: string, pos: nat)
    requires pos <= |s| && ParseValue(s, pos).Ok? && ParseValue(s, pos).value.Dict?
    ensures pos < |s| && s[pos] == 'd'
  {
    if pos < |s| && s[pos] == 'l' { ItemsAreList(s, pos + 1, []); }
  }

  lemma {:induction false} ItemsAreList(s: string, pos: nat, acc: seq<Value>)
    requires pos <= |s| && ParseItems(s, pos, acc).Ok?
    ensures ParseItems(s, pos, acc).value.List?
    decreases |s| - pos
  {
    hide ParseValue;
    if s[pos] != 'e' { ItemsAreList(s, ParseValue(s, pos).pos, acc + [ParseValue(s, pos).value]); }
  }

  /** Text that decodes and is not canonical: a leading zero is lost. */
  lemma NotAllIsCanonical()
    ensures ParseValue("i01e", 0) == Ok(Integer(1), 4)
    ensures Encode(Integer(1)) == "i1e" && CanonValue("i01e", 0) == None
  {
    var s := "i01e";
    assert RunEnd(s, 1) == RunEnd(s, 2) == RunEnd(s, 3) == 3;
    assert s[1..3] == "01";
    assert DecimalValue("01") == 1 by {
      assert "01"[..1] == "0";
      assert "0"[..0] == "";
    }
  }
}
