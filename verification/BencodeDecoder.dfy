/**
 * `basic_decode` of bencode.hpp: one loop, a stack of pointers to open containers, and a single
 * variable for the current dictionary key, proved to do what the recursive grammar says.
 */
module BencodeDecoder {
  import opened BencodeDigits
  import opened BencodeGrammar

  // ---------------------------------------------------------------- pointers into the result

  /** One step into a container: a position of a list or a key of a dictionary. */
  datatype Step = Index(i: nat) | Key(key: string)

  /** A `Data *` into the value under construction. */
  type Path = seq<Step>

  function Find(es: seq<Entry>, key: string): (k: nat)
    requires HasKey(es, key)
    ensures k < |es| && es[k].key == key
  {
    if es[0].key == key then 0 else
      FoundLater(es, key);
      1 + Find(es[1..], key)
  }

  lemma FoundLater(es: seq<Entry>, key: string)
    requires HasKey(es, key) && es[0].key != key
    ensures HasKey(es[1..], key)
  {
    var k :| 0 <= k < |es| && es[k].key == key;
    assert es[1..][k - 1].key == key;
  }

  ghost predicate StepValid(v: Value, step: Step) {
    match step
    case Index(i) => v.List? && i < |v.items|
    case Key(key) => v.Dict? && HasKey(v.entries, key)
  }

  function Child(v: Value, step: Step): Value
    requires StepValid(v, step)
  {
    match step
    case Index(i) => v.items[i]
    case Key(key) => v.entries[Find(v.entries, key)].value
  }

  function WithChild(v: Value, step: Step, c: Value): Value
    requires StepValid(v, step)
  {
    match step
    case Index(i) => List(v.items[i := c])
    case Key(key) => var k := Find(v.entries, key); Dict(v.entries[k := Entry(key, c)])
  }

  ghost predicate PathValid(v: Value, path: Path)
    decreases |path|
  {
    path == [] || (StepValid(v, path[0]) && PathValid(Child(v, path[0]), path[1..]))
  }

  /** The value a pointer points to. */
  function Get(v: Value, path: Path): Value
    requires PathValid(v, path)
    decreases |path|
  {
    if path == [] then v else Get(Child(v, path[0]), path[1..])
  }

  /** Assignment through a pointer. */
  function Put(v: Value, path: Path, c: Value): Value
    requires PathValid(v, path)
    decreases |path|
  {
    if path == [] then c else WithChild(v, path[0], Put(Child(v, path[0]), path[1..], c))
  }

  // ---------------------------------------------------------------- open containers

  /** An enclosing container with what it held before the container now open inside it. */
  datatype Frame = InList(items: seq<Value>) | InDict(entries: seq<Entry>, key: string)

  ghost predicate FrameOk(f: Frame) {
    f.InDict? ==> !HasKey(f.entries, f.key)
  }

  ghost predicate FramesOk(outer: seq<Frame>) {
    forall k :: 0 <= k < |outer| ==> FrameOk(outer[k])
  }

  function Attach(f: Frame, c: Value): Value {
    match f
    case InList(items) => List(items + [c])
    case InDict(es, key) => Dict(Insert(es, key, c))
  }

  function StepOf(f: Frame): Step {
    match f
    case InList(items) => Index(|items|)
    case InDict(_, key) => Key(key)
  }

  /** The value under construction: each open container is the child last put into the one outside it. */
  function Tree(outer: seq<Frame>, top: Value): Value {
    if outer == [] then top else Attach(outer[0], Tree(outer[1..], top))
  }

  function PathOf(outer: seq<Frame>): (path: Path)
    ensures |path| == |outer|
  {
    if outer == [] then [] else [StepOf(outer[0])] + PathOf(outer[1..])
  }

  lemma {:induction false} InsertHas(es: seq<Entry>, key: string, v: Value)
    ensures HasKey(Insert(es, key, v), key)
  {
    var r := Insert(es, key, v);
    if es == [] || Less(key, es[0].key) {
      assert r[0].key == key;
    } else {
      InsertHas(es[1..], key, v);
      var k :| 0 <= k < |r[1..]| && r[1..][k].key == key;
      assert r[k + 1].key == key;
    }
  }

  /** A child just inserted is the one found under its key, and can be replaced there. */
  lemma {:induction false} InsertFind(es: seq<Entry>, key: string, v: Value, w: Value)
    requires !HasKey(es, key)
    ensures HasKey(Insert(es, key, v), key)
    ensures var k := Find(Insert(es, key, v), key);
      Insert(es, key, v)[k].value == v && Insert(es, key, v)[k := Entry(key, w)] == Insert(es, key, w)
  {
    InsertHas(es, key, v);
    if es != [] && !Less(key, es[0].key) {
      NewKeyInTail(es, key);
      InsertFind(es[1..], key, v, w);
      var r := Insert(es, key, v);
      assert r[1..] == Insert(es[1..], key, v);
    }
  }

  lemma AttachStep(f: Frame, c: Value, c': Value)
    requires FrameOk(f)
    ensures StepValid(Attach(f, c), StepOf(f))
    ensures Child(Attach(f, c), StepOf(f)) == c
    ensures WithChild(Attach(f, c), StepOf(f), c') == Attach(f, c')
  {
    if f.InDict? { InsertFind(f.entries, f.key, c, c'); }
  }

  /** The pointer on top of the stack points to the innermost open container. */
  lemma {:induction false} TopPointer(outer: seq<Frame>, top: Value, c: Value)
    requires FramesOk(outer)
    ensures PathValid(Tree(outer, top), PathOf(outer))
    ensures Get(Tree(outer, top), PathOf(outer)) == top
    ensures Put(Tree(outer, top), PathOf(outer), c) == Tree(outer, c)
  {
    if outer != [] {
      TopPointer(outer[1..], top, c);
      var inner := Tree(outer[1..], top);
      AttachStep(outer[0], inner, Put(inner, PathOf(outer[1..]), c));
      assert PathOf(outer)[1..] == PathOf(outer[1..]);
    }
  }

  lemma {:induction false} TreePush(outer: seq<Frame>, f: Frame, c: Value)
    ensures Tree(outer + [f], c) == Tree(outer, Attach(f, c))
    ensures PathOf(outer + [f]) == PathOf(outer) + [StepOf(f)]
  {
    if outer == [] {
      assert outer + [f] == [f];
    } else {
      TreePush(outer[1..], f, c);
      assert (outer + [f])[1..] == outer[1..] + [f];
    }
  }

  // ---------------------------------------------------------------- what is left to parse

  /** The rest of the innermost open container. */
  function ParseRest(s: string, pos: nat, top: Value): (r: Result<Value>)
    requires pos <= |s| && (top.List? || top.Dict?)
    ensures r.Ok? ==> pos < r.pos <= |s|
  {
    if top.List? then ParseItems(s, pos, top.items) else ParseEntries(s, pos, top.entries)
  }

  /** The outcome of the whole decoding from here: finish the innermost container, then the others. */
  function Resume(s: string, pos: nat, outer: seq<Frame>, top: Value): Result<Value>
    requires pos <= |s| && (top.List? || top.Dict?)
    decreases |outer|
  {
    match ParseRest(s, pos, top)
    case Err(e, p) => Err(e, p)
    case Ok(v, p) => Close(s, p, outer, v)
  }

  /** The outcome once the innermost container is complete. */
  function Close(s: string, pos: nat, outer: seq<Frame>, v: Value): Result<Value>
    requires pos <= |s|
    decreases |outer|, 0
  {
    if outer == [] then Ok(v, pos)
    else Resume(s, pos, outer[..|outer| - 1], Attach(outer[|outer| - 1], v))
  }

  predicate ContainerAt(s: string, pos: nat) {
    CharAt(s, pos, 'l') || CharAt(s, pos, 'd')
  }

  /** An empty container of the kind opened at `pos`. */
  function Opened(s: string, pos: nat): Value
    requires ContainerAt(s, pos)
  {
    if s[pos] == 'l' then List([]) else Dict([])
  }

  /** The outcome when a value at `pos` is next, to be put into frame `f`. */
  function AtValue(s: string, pos: nat, outer: seq<Frame>, f: Frame): Result<Value>
    requires pos <= |s|
  {
    if ContainerAt(s, pos) && f.InDict? && HasKey(f.entries, f.key) then Err(Syntax, pos + 1)
    else
      match ParseValue(s, pos)
      case Err(e, p) => Err(e, p)
      case Ok(v, p) =>
        if f.InDict? && HasKey(f.entries, f.key) then Err(Syntax, p) else Resume(s, p, outer, Attach(f, v))
  }

  lemma NextItem(s: string, pos: nat, outer: seq<Frame>, items: seq<Value>)
    requires pos < |s| && s[pos] != 'e'
    ensures Resume(s, pos, outer, List(items)) == AtValue(s, pos, outer, InList(items))
  {
    hide ParseValue, Close;
  }

  /** The outcome when an entry of a dictionary is next. */
  function AtEntry(s: string, pos: nat, outer: seq<Frame>, es: seq<Entry>): Result<Value>
    requires pos < |s|
  {
    if !IsDigit(s[pos]) then Err(Syntax, pos)
    else
      match ReadString(s, pos)
      case Err(e, p) => Err(e, p)
      case Ok(key, p) => AtValue(s, p, outer, InDict(es, key))
  }

  lemma NextEntry(s: string, pos: nat, outer: seq<Frame>, es: seq<Entry>)
    requires pos < |s| && s[pos] != 'e'
    ensures Resume(s, pos, outer, Dict(es)) == AtEntry(s, pos, outer, es)
  {
    hide ParseValue, Close, ReadString;
  }

  /** Opening a container: its contents come first, then what is outside goes on. */
  lemma OpenContainer(s: string, pos: nat, outer: seq<Frame>, f: Frame)
    requires ContainerAt(s, pos) && FrameOk(f)
    ensures AtValue(s, pos, outer, f) == Resume(s, pos + 1, outer + [f], Opened(s, pos))
  {
    hide ParseItems, ParseEntries;
    assert (outer + [f])[..|outer|] == outer;
    assert (outer + [f])[|outer|] == f;
  }

  lemma OpenRoot(s: string, pos: nat)
    requires ContainerAt(s, pos)
    ensures ParseValue(s, pos) == Resume(s, pos + 1, [], Opened(s, pos))
  {
    hide ParseItems, ParseEntries;
  }

  lemma CloseContainer(s: string, pos: nat, outer: seq<Frame>, top: Value)
    requires pos < |s| && s[pos] == 'e' && (top.List? || top.Dict?)
    ensures Resume(s, pos, outer, top) == Close(s, pos + 1, outer, top)
  {
    hide ParseValue, Close;
  }

  lemma InputEnds(s: string, outer: seq<Frame>, top: Value)
    requires top.List? || top.Dict?
    ensures Resume(s, |s|, outer, top) == Err(EndOfInput, |s|)
  {
    hide Close;
  }

  // ---------------------------------------------------------------- the decoder

  method DecodeInt(s: string, start: nat) returns (r: Result<int>)
    requires CharAt(s, start, 'i')
    ensures r == ReadInt(s, start)
  {
    StandardTypes();
    hide SafeDigits, ReadDigits;
    var begin := start + 1;
    var sgn := 1;
    if CharAt(s, begin, '-') {
      sgn := -1;
      begin := begin + 1;
    }
    var value := DecodeDigits(LONG_LONG, s, begin, sgn);
    if value.Err? {
      return Err(value.error, value.pos);
    }
    begin := value.pos;
    if !CharAt(s, begin, 'e') {
      return Err(Syntax, begin);
    }
    return Ok(value.value, begin + 1);
  }

  /** The string reader for input iterators: one character at a time. */
  method DecodeStr(s: string, start: nat) returns (r: Result<string>)
    requires DigitAt(s, start)
    ensures r == ReadString(s, start)
  {
    StandardTypes();
    hide SafeDigits, ReadDigits;
    var len := DecodeDigits(SIZE_T, s, start, 1);
    if len.Err? {
      return Err(len.error, len.pos);
    }
    var begin := len.pos;
    if begin == |s| {
      return Err(EndOfInput, begin);
    }
    if s[begin] != ':' {
      return Err(Syntax, begin);
    }
    begin := begin + 1;
    LengthNotNegative(s, start);
    var first := begin;
    var value := "";
    var i := 0;
    while i < len.value
      invariant 0 <= i <= len.value && begin == first + i <= |s|
      invariant value == s[first..begin]
      decreases len.value - i
    {
      if begin == |s| {
        return Err(EndOfInput, begin);
      }
      value := value + [s[begin]];
      begin := begin + 1;
      i := i + 1;
    }
    return Ok(value, begin);
  }

  lemma LengthNotNegative(s: string, pos: nat)
    requires pos <= |s|
    ensures ReadDigits(SIZE_T, s, pos, 1).Ok? ==> ReadDigits(SIZE_T, s, pos, 1).value >= 0
  {
  }

  /**
   * Puts a value where the top of the stack says: at the root, at the end of a list, or into a
   * dictionary under the current key; returns a pointer to it, or says the key is taken.
   */
  method Store(result: Value, state: seq<Path>, dictKey: string, thing: Value)
    returns (result': Value, pointer: Path, duplicate: bool)
    requires state != [] ==> var top := state[|state| - 1];
      PathValid(result, top) && (Get(result, top).List? || Get(result, top).Dict?)
    ensures state == [] ==> result' == thing && pointer == [] && !duplicate
    ensures state != [] ==>
      var top := state[|state| - 1];
      match Get(result, top)
      case List(items) =>
        !duplicate && result' == Put(result, top, List(items + [thing])) && pointer == top + [Index(|items|)]
      case Dict(es) =>
        && duplicate == HasKey(es, dictKey)
        && (!duplicate ==>
              result' == Put(result, top, Dict(Insert(es, dictKey, thing))) && pointer == top + [Key(dictKey)])
      case _ => false
  {
    if state == [] {
      return thing, [], false;
    }
    var top := state[|state| - 1];
    var container := Get(result, top);
    if container.List? {
      return Put(result, top, List(container.items + [thing])), top + [Index(|container.items|)], false;
    }
    if HasKey(container.entries, dictKey) {
      return result, [], true;
    }
    return Put(result, top, Dict(Insert(container.entries, dictKey, thing))), top + [Key(dictKey)], false;
  }

  /** The stack holds a pointer to every open container, outermost first. */
  ghost predicate Stacked(result: Value, state: seq<Path>, outer: seq<Frame>, top: Value) {
    && (top.List? || top.Dict?)
    && FramesOk(outer)
    && result == Tree(outer, top)
    && |state| == |outer| + 1
    && forall j :: 0 <= j < |state| ==> state[j] == PathOf(outer[..j])
  }

  lemma StackTop(result: Value, state: seq<Path>, outer: seq<Frame>, top: Value, c: Value)
    requires Stacked(result, state, outer, top)
    ensures state != [] && state[|state| - 1] == PathOf(outer)
    ensures PathValid(result, PathOf(outer)) && Get(result, PathOf(outer)) == top
    ensures Put(result, PathOf(outer), c) == Tree(outer, c)
  {
    assert outer[..|outer|] == outer;
    TopPointer(outer, top, c);
  }

  lemma StackPush(state: seq<Path>, outer: seq<Frame>, top: Value, f: Frame, c: Value)
    requires Stacked(Tree(outer, top), state, outer, top) && FrameOk(f) && (c.List? || c.Dict?)
    ensures Stacked(Tree(outer, Attach(f, c)), state + [PathOf(outer) + [StepOf(f)]], outer + [f], c)
  {
    TreePush(outer, f, c);
    var state' := state + [PathOf(outer) + [StepOf(f)]];
    var outer' := outer + [f];
    forall j | 0 <= j < |state'| ensures state'[j] == PathOf(outer'[..j]) {
      if j < |state| { assert outer'[..j] == outer[..j]; } else { assert outer'[..j] == outer'; }
    }
  }

  lemma StackPop(result: Value, state: seq<Path>, outer: seq<Frame>, top: Value)
    requires Stacked(result, state, outer, top) && outer != []
    ensures var last := |outer| - 1;
      Stacked(result, state[..|state| - 1], outer[..last], Attach(outer[last], top))
  {
    var last := |outer| - 1;
    TreePush(outer[..last], outer[last], top);
    assert outer[..last] + [outer[last]] == outer;
    forall j | 0 <= j <= last ensures state[j] == PathOf(outer[..last][..j]) {
      assert outer[..last][..j] == outer[..j];
    }
  }

  /** The frame that the next value goes into. */
  function NextFrame(top: Value, dictKey: string): Frame
    requires top.List? || top.Dict?
  {
    if top.List? then InList(top.items) else InDict(top.entries, dictKey)
  }

  /** A stored value becomes the last child of the innermost container. */
  lemma StoredInTop(result: Value, state: seq<Path>, outer: seq<Frame>, top: Value, dictKey: string, thing: Value)
    requires Stacked(result, state, outer, top) && FrameOk(NextFrame(top, dictKey))
    ensures var f := NextFrame(top, dictKey);
      && PathValid(result, PathOf(outer))
      && Put(result, PathOf(outer), Attach(f, thing)) == Tree(outer, Attach(f, thing))
      && Stacked(Tree(outer, Attach(f, thing)), state, outer, Attach(f, thing))
  {
    StackTop(result, state, outer, top, Attach(NextFrame(top, dictKey), thing));
  }

  /** What is expected at `pos`: the root value, or the next child of the innermost container. */
  ghost function Expected(s: string, pos: nat, state: seq<Path>, outer: seq<Frame>, top: Value, dictKey: string)
    : Result<Value>
    requires pos <= |s| && (state != [] ==> top.List? || top.Dict?)
  {
    if state == [] then ParseValue(s, pos) else AtValue(s, pos, outer, NextFrame(top, dictKey))
  }

  /** A decoded integer or string is stored, unless its key is taken. */
  method StoreScalar(ghost s: string, ghost pos: nat, ghost next: nat, result: Value, state: seq<Path>,
                     ghost outer: seq<Frame>, ghost top: Value, dictKey: string, thing: Value)
    returns (result': Value, duplicate: bool, ghost top': Value)
    requires pos < next <= |s| && ParseValue(s, pos) == Ok(thing, next) && !ContainerAt(s, pos)
    requires state != [] ==> Stacked(result, state, outer, top)
    ensures duplicate ==> Expected(s, pos, state, outer, top, dictKey) == Err(Syntax, next)
    ensures !duplicate && state == [] ==> result' == thing
    ensures !duplicate && state != [] ==>
      && (top'.List? || top'.Dict?)
      && Stacked(result', state, outer, top')
      && Expected(s, pos, state, outer, top, dictKey) == Resume(s, next, outer, top')
  {
    hide ParseValue, Resume, Stacked, Put, Get, PathValid, ContainerAt;
    top' := top;
    if state != [] {
      StackTop(result, state, outer, top, top);
      TopKind(result, state, outer, top);
    }
    var pointer;
    result', pointer, duplicate := Store(result, state, dictKey, thing);
    if state != [] && !duplicate {
      top' := Attach(NextFrame(top, dictKey), thing);
      StoredInTop(result, state, outer, top, dictKey, thing);
    }
  }

  lemma TopKind(result: Value, state: seq<Path>, outer: seq<Frame>, top: Value)
    requires Stacked(result, state, outer, top)
    ensures top.List? || top.Dict?
  {
  }

  /** An empty container is stored, unless its key is taken, and its pointer pushed. */
  method StoreContainer(ghost s: string, ghost pos: nat, result: Value, state: seq<Path>,
                        ghost outer: seq<Frame>, ghost top: Value, dictKey: string, thing: Value)
    returns (result': Value, state': seq<Path>, duplicate: bool, ghost outer': seq<Frame>)
    requires ContainerAt(s, pos) && thing == Opened(s, pos)
    requires state != [] ==> Stacked(result, state, outer, top)
    requires state == [] ==> outer == []
    ensures duplicate ==> Expected(s, pos, state, outer, top, dictKey) == Err(Syntax, pos + 1)
    ensures !duplicate ==>
      && state' != [] && Stacked(result', state', outer', thing)
      && Expected(s, pos, state, outer, top, dictKey) == Resume(s, pos + 1, outer', thing)
  {
    hide ParseValue, Resume, Stacked, Put, Get, PathValid;
    outer' := outer;
    state' := state;
    if state != [] {
      StackTop(result, state, outer, top, top);
      TopKind(result, state, outer, top);
    }
    var pointer;
    result', pointer, duplicate := Store(result, state, dictKey, thing);
    if duplicate {
      return;
    }
    state' := state + [pointer];
    if state == [] {
      OpenRoot(s, pos);
      StackedRoot(thing);
      assert state' == [[]];
    } else {
      ghost var f := NextFrame(top, dictKey);
      outer' := outer + [f];
      StackTop(result, state, outer, top, Attach(f, thing));
      StackedTree(result, state, outer, top);
      StackPush(state, outer, top, f, thing);
      OpenContainer(s, pos, outer, f);
    }
  }

  lemma StackedRoot(thing: Value)
    requires thing.List? || thing.Dict?
    ensures Stacked(thing, [[]], [], thing)
  {
  }

  lemma StackedTree(result: Value, state: seq<Path>, outer: seq<Frame>, top: Value)
    requires Stacked(result, state, outer, top)
    ensures Stacked(Tree(outer, top), state, outer, top)
  {
  }

  /** After the innermost container is closed, either the root is complete or the one outside goes on. */
  lemma PopResumes(s: string, pos: nat, result: Value, state: seq<Path>, outer: seq<Frame>, top: Value)
    requires Stacked(result, state, outer, top) && pos < |s| && s[pos] == 'e'
    ensures |state| > 0 && (state[..|state| - 1] == [] <==> outer == [])
    ensures outer == [] ==> Resume(s, pos, outer, top) == Ok(result, pos + 1)
    ensures outer != [] ==>
      var last := |outer| - 1;
      && Stacked(result, state[..|state| - 1], outer[..last], Attach(outer[last], top))
      && Resume(s, pos, outer, top) == Resume(s, pos + 1, outer[..last], Attach(outer[last], top))
  {
    CloseContainer(s, pos, outer, top);
    if outer != [] { StackPop(result, state, outer, top); }
  }

  /**
   * The decoder builds the value the grammar gives, stops where it stops, and fails with the
   * same error at the same position, on every input.
   */
  method BasicDecode(s: string, start: nat) returns (r: Result<Value>)
    requires start <= |s|
    ensures r == ParseValue(s, start)
  {
    hide ParseValue, Resume, Stacked, AtValue, PathValid, Get, ReadString, ReadInt;
    var begin := start;
    var dictKey := "";
    var result := Integer(0);
    var state: seq<Path> := [];
    ghost var outer: seq<Frame>, top := [], List([]);
    var first, again := true, true;
    while again
      invariant begin <= |s|
      invariant first ==> again && state == [] && outer == [] && begin == start
      invariant !first && again ==>
        && state != [] && Stacked(result, state, outer, top) && (top.List? || top.Dict?)
        && ParseValue(s, start) == Resume(s, begin, outer, top)
      invariant !again ==> ParseValue(s, start) == Ok(result, begin)
      decreases |s| - begin, again
    {
      if begin == |s| {
        AtEnd(s, start, first, outer, top);
        return Err(EndOfInput, begin);
      }
      if s[begin] == 'e' {
        if state == [] {
          NotAValue(s, begin);
          return Err(Syntax, begin);
        }
        PopResumes(s, begin, result, state, outer, top);
        begin := begin + 1;
        state := state[..|state| - 1];
        assert state == [] ==> ParseValue(s, start) == Ok(result, begin);
        if state != [] {
          outer, top := outer[..|outer| - 1], Attach(outer[|outer| - 1], top);
        }
      } else {
        if state != [] {
          StackTop(result, state, outer, top, top);
        }
        if state != [] && Get(result, state[|state| - 1]).Dict? {
          NextEntry(s, begin, outer, top.entries);
          if !IsDigit(s[begin]) {
            return Err(Syntax, begin);
          }
          var key := DecodeStr(s, begin);
          if key.Err? {
            return Err(key.error, key.pos);
          }
          dictKey, begin := key.value, key.pos;
          if begin == |s| {
            ValueMissing(s, outer, NextFrame(top, dictKey));
            return Err(EndOfInput, begin);
          }
        } else if state != [] {
          NextItem(s, begin, outer, top.items);
        }
        assert ParseValue(s, start) == Expected(s, begin, state, outer, top, dictKey);

        if s[begin] == 'i' {
          var n := DecodeInt(s, begin);
          IntegerHere(s, begin);
          if n.Err? {
            Propagates(s, begin, state, outer, top, dictKey);
            return Err(n.error, n.pos);
          }
          var duplicate;
          result, duplicate, top := StoreScalar(s, begin, n.pos, result, state, outer, top, dictKey, Integer(n.value));
          begin := n.pos;
          if duplicate {
            return Err(Syntax, begin);
          }
          assert state == [] ==> ParseValue(s, start) == Ok(result, begin);
        } else if s[begin] == 'l' || s[begin] == 'd' {
          var duplicate;
          ghost var thing := Opened(s, begin);
          result, state, duplicate, outer := StoreContainer(
            s, begin, result, state, outer, top, dictKey, if s[begin] == 'l' then List([]) else Dict([]));
          begin := begin + 1;
          if duplicate {
            return Err(Syntax, begin);
          }
          top := thing;
        } else if IsDigit(s[begin]) {
          var t := DecodeStr(s, begin);
          StringHere(s, begin);
          if t.Err? {
            Propagates(s, begin, state, outer, top, dictKey);
            return Err(t.error, t.pos);
          }
          var duplicate;
          result, duplicate, top := StoreScalar(s, begin, t.pos, result, state, outer, top, dictKey, Str(t.value));
          begin := t.pos;
          if duplicate {
            return Err(Syntax, begin);
          }
          assert state == [] ==> ParseValue(s, start) == Ok(result, begin);
        } else {
          NotAValue(s, begin);
          Propagates(s, begin, state, outer, top, dictKey);
          return Err(Syntax, begin);
        }
      }
      first, again := false, state != [];
    }
    return Ok(result, begin);
  }

  lemma AtEnd(s: string, start: nat, first: bool, outer: seq<Frame>, top: Value)
    requires start <= |s| && (first ==> start == |s|)
    requires !first ==> (top.List? || top.Dict?) && ParseValue(s, start) == Resume(s, |s|, outer, top)
    ensures ParseValue(s, start) == Err(EndOfInput, |s|)
  {
    if !first { InputEnds(s, outer, top); }
  }

  lemma NotAValue(s: string, pos: nat)
    requires pos < |s| && s[pos] != 'i' && s[pos] != 'l' && s[pos] != 'd' && !IsDigit(s[pos])
    ensures ParseValue(s, pos) == Err(Syntax, pos)
  {
  }

  lemma ValueMissing(s: string, outer: seq<Frame>, f: Frame)
    ensures AtValue(s, |s|, outer, f) == Err(EndOfInput, |s|)
  {
  }

  lemma IntegerHere(s: string, pos: nat)
    requires CharAt(s, pos, 'i')
    ensures !ContainerAt(s, pos)
    ensures ParseValue(s, pos) == match ReadInt(s, pos) case Ok(n, p) => Ok(Integer(n), p) case Err(e, p) => Err(e, p)
  {
    hide ReadInt;
  }

  lemma StringHere(s: string, pos: nat)
    requires DigitAt(s, pos)
    ensures !ContainerAt(s, pos)
    ensures ParseValue(s, pos) == match ReadString(s, pos) case Ok(t, p) => Ok(Str(t), p) case Err(e, p) => Err(e, p)
  {
    hide ReadString;
  }

  /** An error inside a value that is not a container is the error of the whole. */
  lemma Propagates(s: string, pos: nat, state: seq<Path>, outer: seq<Frame>, top: Value, dictKey: string)
    requires pos <= |s| && !ContainerAt(s, pos) && ParseValue(s, pos).Err?
    requires state != [] ==> top.List? || top.Dict?
    ensures Expected(s, pos, state, outer, top, dictKey) == Err(ParseValue(s, pos).error, ParseValue(s, pos).pos)
  {
    hide ParseValue;
  }
}
