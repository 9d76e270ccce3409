/** Bencoded values, their encoding, and the grammar as a recursive-descent parser. */
module BencodeGrammar {
  import opened BencodeDigits

  /** A dictionary is its entries in the order of its keys, as `std::map` iterates. */
  datatype Value = Integer(n: int) | Str(s: string) | List(items: seq<Value>) | Dict(entries: seq<Entry>)

  datatype Entry = Entry(key: string, value: Value)

  // ---------------------------------------------------------------- keys

  /** Lexicographic order of byte strings. */
  predicate Less(a: string, b: string) {
    b != "" && (a == "" || a[0] < b[0] || (a[0] == b[0] && Less(a[1..], b[1..])))
  }

  lemma {:induction false} LessIrreflexive(a: string)
    ensures !Less(a, a)
  {
    if a != "" { LessIrreflexive(a[1..]); }
  }

  lemma {:induction false} LessTransitive(a: string, b: string, c: string)
    requires Less(a, b) && Less(b, c)
    ensures Less(a, c)
  {
    if a != "" && a[0] == b[0] && b[0] == c[0] { LessTransitive(a[1..], b[1..], c[1..]); }
  }

  lemma {:induction false} LessTotal(a: string, b: string)
    ensures Less(a, b) || a == b || Less(b, a)
  {
    if a != "" && b != "" && a[0] == b[0] {
      LessTotal(a[1..], b[1..]);
      assert a == [a[0]] + a[1..] && b == [b[0]] + b[1..];
    }
  }

  predicate HasKey(es: seq<Entry>, key: string) {
    exists k :: 0 <= k < |es| && es[k].key == key
  }

  lemma NewKeyInTail(es: seq<Entry>, key: string)
    requires es != [] && !HasKey(es, key)
    ensures es[0].key != key && !HasKey(es[1..], key)
  {
    assert forall k :: 0 <= k < |es[1..]| ==> es[1..][k] == es[k + 1];
  }

  ghost predicate Sorted(es: seq<Entry>) {
    forall j, k :: 0 <= j < k < |es| ==> Less(es[j].key, es[k].key)
  }

  /** `std::map::emplace` of a new key: the entry takes its place in the key order. */
  function Insert(es: seq<Entry>, key: string, value: Value): seq<Entry> {
    if es == [] || Less(key, es[0].key) then [Entry(key, value)] + es
    else [es[0]] + Insert(es[1..], key, value)
  }

  // ---------------------------------------------------------------- encoding

  function Encode(v: Value): string
    decreases v, 0
  {
    match v
    case Integer(n) => "i" + IntText(n) + "e"
    case Str(s) => EncodeString(s)
    case List(items) => "l" + EncodeItems(items) + "e"
    case Dict(entries) => "d" + EncodeEntries(entries) + "e"
  }

  function EncodeString(s: string): string {
    Decimal(|s|) + ":" + s
  }

  function EncodeItems(items: seq<Value>): string
    decreases items, 0
  {
    if items == [] then "" else Encode(items[0]) + EncodeItems(items[1..])
  }

  function EncodeEntries(es: seq<Entry>): string
    decreases es, 0
  {
    if es == [] then ""
    else EncodeString(es[0].key) + Encode(es[0].value) + EncodeEntries(es[1..])
  }

  /** What the C++ types can hold: 64-bit integers, addressable strings, maps in key order. */
  ghost predicate Representable(v: Value)
    decreases v, 0
  {
    match v
    case Integer(n) => Fits(LONG_LONG, n)
    case Str(s) => Fits(SIZE_T, |s|)
    case List(items) => forall k :: 0 <= k < |items| ==> Representable(items[k])
    case Dict(es) => Sorted(es) && forall k :: 0 <= k < |es| ==> EntryRepresentable(es[k])
  }

  ghost predicate EntryRepresentable(e: Entry)
    decreases e, 1
  {
    Fits(SIZE_T, |e.key|) && Representable(e.value)
  }

  // ---------------------------------------------------------------- the grammar

  /** `i`, an optional minus, digits, `e`. */
  function ReadInt(s: string, pos: nat): (r: Result<int>)
    requires CharAt(s, pos, 'i')
    ensures r.Ok? ==> pos < r.pos <= |s|
  {
    var negative := CharAt(s, pos + 1, '-');
    var digits := ReadDigits(LONG_LONG, s, if negative then pos + 2 else pos + 1, if negative then -1 else 1);
    match digits
    case Err(e, p) => Err(e, p)
    case Ok(v, p) => if CharAt(s, p, 'e') then Ok(v, p + 1) else Err(Syntax, p)
  }

  /** Digits, `:`, and that many bytes. */
  function ReadString(s: string, pos: nat): (r: Result<string>)
    requires DigitAt(s, pos)
    ensures r.Ok? ==> pos < r.pos <= |s|
  {
    match ReadDigits(SIZE_T, s, pos, 1)
    case Err(e, p) => Err(e, p)
    case Ok(len, p) =>
      if p == |s| then Err(EndOfInput, p)
      else if s[p] != ':' then Err(Syntax, p)
      else if len < 0 || p + 1 + len > |s| then Err(EndOfInput, |s|)
      else Ok(s[p + 1..p + 1 + len], p + 1 + len)
  }

  function ParseValue(s: string, pos: nat): (r: Result<Value>)
    requires pos <= |s|
    ensures r.Ok? ==> pos < r.pos <= |s|
    decreases |s| - pos, 0
  {
    if pos == |s| then Err(EndOfInput, pos)
    else if s[pos] == 'i' then
      match ReadInt(s, pos)
      case Ok(n, p) => Ok(Integer(n), p)
      case Err(e, p) => Err(e, p)
    else if s[pos] == 'l' then ParseItems(s, pos + 1, [])
    else if s[pos] == 'd' then ParseEntries(s, pos + 1, [])
    else if IsDigit(s[pos]) then
      match ReadString(s, pos)
      case Ok(t, p) => Ok(Str(t), p)
      case Err(e, p) => Err(e, p)
    else Err(Syntax, pos)
  }

  /** The rest of a list whose first items are `acc`, up to its `e`. */
  function ParseItems(s: string, pos: nat, acc: seq<Value>): (r: Result<Value>)
    requires pos <= |s|
    ensures r.Ok? ==> pos < r.pos <= |s|
    decreases |s| - pos, 1
  {
    if pos == |s| then Err(EndOfInput, pos)
    else if s[pos] == 'e' then Ok(List(acc), pos + 1)
    else
      match ParseValue(s, pos)
      case Err(e, p) => Err(e, p)
      case Ok(v, p) => ParseItems(s, p, acc + [v])
  }

  /**
   * The rest of a dictionary that has the entries `acc`, up to its `e`. A repeated key is an
   * error: before the contents of its value when that is a list or dictionary, else after it.
   */
  function ParseEntries(s: string, pos: nat, acc: seq<Entry>): (r: Result<Value>)
    requires pos <= |s|
    ensures r.Ok? ==> pos < r.pos <= |s|
    decreases |s| - pos, 1
  {
    if pos == |s| then Err(EndOfInput, pos)
    else if s[pos] == 'e' then Ok(Dict(acc), pos + 1)
    else if !IsDigit(s[pos]) then Err(Syntax, pos)
    else
      match ReadString(s, pos)
      case Err(e, p) => Err(e, p)
      case Ok(key, p) =>
        if (CharAt(s, p, 'l') || CharAt(s, p, 'd')) && HasKey(acc, key) then Err(Syntax, p + 1)
        else
          match ParseValue(s, p)
          case Err(e, q) => Err(e, q)
          case Ok(v, q) => if HasKey(acc, key) then Err(Syntax, q) else ParseEntries(s, q, Insert(acc, key, v))
  }
}
