/**
 * The tagged value format: the encoder of string-reader/fixtures.py and the decoder of
 * string-reader/probe.c.
 *
 * Strings are byte sequences; what the UTF-8 string reader makes of them, and running out of
 * engine memory, are not part of this model. A number is its 64 bits.
 */
module TaggedValue {
  import opened Bytes
  import opened Words

  datatype Tree =
    | Null
    | Bool(b: bool)
    | Number(bits: nat)
    | Text(text: Bytes)
    | List(items: Trees)
    | Object(entries: Entries)

  datatype Trees = NoTree | Tree(head: Tree, tail: Trees)

  datatype Entries = NoEntry | Entry(key: Bytes, value: Tree, rest: Entries)

  datatype Fault = TooDeep | BadRange | NotFinite | BadTag | DuplicateKey | Trailing

  datatype Reading<T> = Read(value: T, rest: Bytes) | Fault(fault: Fault)

  const MAX_DEPTH := 64

  const NEGATIVE_ZERO := 0x8000_0000_0000_0000

  /** The exponent is not all ones. */
  predicate Finite(bits: nat) {
    bits / 0x10_0000_0000_0000 % 0x800 != 0x7FF
  }

  function Count(l: Trees): nat {
    if l.NoTree? then 0 else 1 + Count(l.tail)
  }

  function CountEntries(e: Entries): nat {
    if e.NoEntry? then 0 else 1 + CountEntries(e.rest)
  }

  // ---------------------------------------------------------------- encoding

  function EncodeText(t: Bytes): Bytes {
    Little(|t|, 8) + t
  }

  function Encode(v: Tree): Bytes {
    match v
    case Null => [0]
    case Bool(b) => [if b then 2 else 1]
    case Number(bits) => [3] + Little(bits, 8)
    case Text(t) => [4] + EncodeText(t)
    case List(items) => [5] + (Little(Count(items), 4) + EncodeItems(items))
    case Object(entries) => [6] + (Little(CountEntries(entries), 4) + EncodeEntries(entries))
  }

  function EncodeItems(l: Trees): Bytes {
    match l
    case NoTree => []
    case Tree(head, tail) => Encode(head) + EncodeItems(tail)
  }

  function EncodeEntries(e: Entries): Bytes {
    match e
    case NoEntry => []
    case Entry(key, value, rest) => EncodeText(key) + (Encode(value) + EncodeEntries(rest))
  }

  /** What the encoder's fixed-width fields can hold. */
  predicate Encodable(v: Tree) {
    match v
    case Null => true
    case Bool(_) => true
    case Number(bits) => bits < Range(8)
    case Text(t) => |t| < Range(8)
    case List(items) => Count(items) < Range(4) && EncodableItems(items)
    case Object(entries) => CountEntries(entries) < Range(4) && EncodableEntries(entries)
  }

  predicate EncodableItems(l: Trees) {
    l.NoTree? || (Encodable(l.head) && EncodableItems(l.tail))
  }

  predicate EncodableEntries(e: Entries) {
    e.NoEntry? || (|e.key| < Range(8) && Encodable(e.value) && EncodableEntries(e.rest))
  }

  /** What the decoder accepts besides: bounded depth, finite numbers, and no key twice in one object. */
  predicate Good(v: Tree, depth: nat) {
    depth <= MAX_DEPTH &&
    match v
    case Number(bits) => Finite(bits)
    case List(items) => GoodItems(items, depth)
    case Object(entries) => GoodEntries(entries, depth, {})
    case _ => true
  }

  predicate GoodItems(l: Trees, depth: nat) {
    l.NoTree? || (Good(l.head, depth + 1) && GoodItems(l.tail, depth))
  }

  predicate GoodEntries(e: Entries, depth: nat, seen: set<Bytes>) {
    e.NoEntry? || (e.key !in seen && Good(e.value, depth + 1) && GoodEntries(e.rest, depth, seen + {e.key}))
  }

  /** What is wrong with a tree, the first thing a reader from left to right comes upon. */
  function Flaw(v: Tree, depth: nat): Option<Fault> {
    if depth > MAX_DEPTH then Some(TooDeep)
    else
      match v
      case Number(bits) => if Finite(bits) then None else Some(NotFinite)
      case List(items) => FlawIn(items, depth)
      case Object(entries) => FlawAmong(entries, depth, {})
      case _ => None
  }

  function FlawIn(l: Trees, depth: nat): Option<Fault> {
    match l
    case NoTree => None
    case Tree(head, tail) => if Flaw(head, depth + 1).Some? then Flaw(head, depth + 1) else FlawIn(tail, depth)
  }

  function FlawAmong(e: Entries, depth: nat, seen: set<Bytes>): Option<Fault> {
    match e
    case NoEntry => None
    case Entry(key, value, rest) =>
      if key in seen then Some(DuplicateKey)
      else if Flaw(value, depth + 1).Some? then Flaw(value, depth + 1)
      else FlawAmong(rest, depth, seen + {key})
  }

  /** How deep a tree's values are nested. */
  function Height(v: Tree): nat {
    match v
    case List(items) => HeightOf(items)
    case Object(entries) => HeightAmong(entries)
    case _ => 0
  }

  function HeightOf(l: Trees): nat {
    match l
    case NoTree => 0
    case Tree(head, tail) => if 1 + Height(head) > HeightOf(tail) then 1 + Height(head) else HeightOf(tail)
  }

  function HeightAmong(e: Entries): nat {
    match e
    case NoEntry => 0
    case Entry(_, value, rest) => if 1 + Height(value) > HeightAmong(rest) then 1 + Height(value) else HeightAmong(rest)
  }

  function Keys(e: Entries): seq<Bytes> {
    match e
    case NoEntry => []
    case Entry(key, _, rest) => [key] + Keys(rest)
  }

  /** Every number in the tree is finite, and no object of it has a key twice. */
  predicate Sane(v: Tree) {
    match v
    case Number(bits) => bits / 0x10_0000_0000_0000 % 2048 != 2047
    case List(items) => SaneItems(items)
    case Object(entries) => SaneEntries(entries) && Distinct(Keys(entries))
    case _ => true
  }

  predicate SaneItems(l: Trees) {
    l.NoTree? || (Sane(l.head) && SaneItems(l.tail))
  }

  predicate SaneEntries(e: Entries) {
    e.NoEntry? || (Sane(e.value) && SaneEntries(e.rest))
  }

  /** What the decoder accepts: sane trees that are nested at most 64 deep. */
  lemma {:induction false} GoodExact(v: Tree, depth: nat)
    ensures Good(v, depth) <==> depth + Height(v) <= 64 && Sane(v)
    decreases v
  {
    hide GoodItems, GoodEntries, SaneItems, SaneEntries, HeightOf, HeightAmong;
    match v
    case List(items) => GoodItemsExact(items, depth);
    case Object(entries) => GoodEntriesExact(entries, depth, {});
    case _ =>
  }

  lemma {:induction false} GoodItemsExact(l: Trees, depth: nat)
    ensures depth <= 64 ==> (GoodItems(l, depth) <==> depth + HeightOf(l) <= 64 && SaneItems(l))
    ensures depth > 64 ==> depth + HeightOf(l) > 64
    decreases l
  {
    hide Good, Sane, Height;
    if l.Tree? {
      GoodExact(l.head, depth + 1);
      GoodItemsExact(l.tail, depth);
    }
  }

  lemma {:induction false} GoodEntriesExact(e: Entries, depth: nat, seen: set<Bytes>)
    ensures depth <= 64 ==>
      (GoodEntries(e, depth, seen) <==>
        && depth + HeightAmong(e) <= 64 && SaneEntries(e) && Distinct(Keys(e))
        && forall i :: 0 <= i < |Keys(e)| ==> Keys(e)[i] !in seen)
    decreases e
  {
    hide Good, Sane, Height, Distinct;
    if e.Entry? {
      GoodExact(e.value, depth + 1);
      GoodEntriesExact(e.rest, depth, seen + {e.key});
      KeysCons(e.key, Keys(e.rest), seen);
    } else {
      NoKeys();
    }
  }

  lemma NoKeys()
    ensures Distinct<Bytes>([])
  {}

  lemma KeysCons(key: Bytes, keys: seq<Bytes>, seen: set<Bytes>)
    ensures
      var all := [key] + keys;
      (Distinct(all) && forall i :: 0 <= i < |all| ==> all[i] !in seen)
      <==> (key !in seen && Distinct(keys) && forall i :: 0 <= i < |keys| ==> keys[i] !in seen + {key})
  {
    var all := [key] + keys;
    assert all[0] == key && forall i :: 0 <= i < |keys| ==> all[i + 1] == keys[i];
  }

  /** A number is its sign, eleven bits of exponent and fifty-two of fraction, and finite unless the exponent is all ones. */
  lemma FiniteExact(sign: nat, exponent: nat, fraction: nat)
    requires sign < 2 && exponent < 2048 && fraction < 0x10_0000_0000_0000
    ensures Finite(0x8000_0000_0000_0000 * sign + 0x10_0000_0000_0000 * exponent + fraction) <==> exponent != 2047
  {
    var bits := 0x8000_0000_0000_0000 * sign + 0x10_0000_0000_0000 * exponent + fraction;
    assert bits / 0x10_0000_0000_0000 == 2048 * sign + exponent;
  }

  // ---------------------------------------------------------------- decoding

  function TakeBytes(s: Bytes, n: nat): Reading<Bytes> {
    if n > |s| then Fault(BadRange) else Read(s[..n], s[n..])
  }

  function DecodeText(s: Bytes): Reading<Bytes> {
    match TakeBytes(s, 8)
    case Fault(f) => Fault(f)
    case Read(header, rest) => TakeBytes(rest, Unsigned(header))
  }

  /** Decodes one value, a negative zero still as it is spelled. */
  function Decode(s: Bytes, depth: nat): Reading<Tree>
    decreases if depth > MAX_DEPTH then 0 else MAX_DEPTH + 1 - depth, 0
  {
    if depth > MAX_DEPTH then Fault(TooDeep)
    else if s == [] then Fault(BadRange)
    else
      var tag, t := s[0], s[1..];
      if tag == 0 then Read(Null, t)
      else if tag == 1 then Read(Bool(false), t)
      else if tag == 2 then Read(Bool(true), t)
      else if tag == 3 then
        match TakeBytes(t, 8)
        case Fault(f) => Fault(f)
        case Read(header, rest) => if Finite(Unsigned(header)) then Read(Number(Unsigned(header)), rest) else Fault(NotFinite)
      else if tag == 4 then
        match DecodeText(t)
        case Fault(f) => Fault(f)
        case Read(text, rest) => Read(Text(text), rest)
      else if tag != 5 && tag != 6 then Fault(BadTag)
      else
        match TakeBytes(t, 4)
        case Fault(f) => Fault(f)
        case Read(header, body) =>
          if tag == 5 then
            match DecodeItems(body, Unsigned(header), depth)
            case Fault(f) => Fault(f)
            case Read(items, rest) => Read(List(items), rest)
          else
            match DecodeEntries(body, Unsigned(header), depth, {})
            case Fault(f) => Fault(f)
            case Read(entries, rest) => Read(Object(entries), rest)
  }

  function DecodeItems(s: Bytes, n: nat, depth: nat): Reading<Trees>
    decreases if depth > MAX_DEPTH then 0 else MAX_DEPTH - depth, 1, n
  {
    if n == 0 then Read(NoTree, s)
    else if depth > MAX_DEPTH then Fault(TooDeep)
    else
      match Decode(s, depth + 1)
      case Fault(f) => Fault(f)
      case Read(head, rest) =>
        match DecodeItems(rest, n - 1, depth)
        case Fault(f) => Fault(f)
        case Read(tail, end) => Read(Tree(head, tail), end)
  }

  function DecodeEntries(s: Bytes, n: nat, depth: nat, seen: set<Bytes>): Reading<Entries>
    decreases if depth > MAX_DEPTH then 0 else MAX_DEPTH - depth, 1, n
  {
    if n == 0 then Read(NoEntry, s)
    else if depth > MAX_DEPTH then Fault(TooDeep)
    else
      match DecodeText(s)
      case Fault(f) => Fault(f)
      case Read(key, t) =>
        if key in seen then Fault(DuplicateKey)
        else
          match Decode(t, depth + 1)
          case Fault(f) => Fault(f)
          case Read(value, rest) =>
            match DecodeEntries(rest, n - 1, depth, seen + {key})
            case Fault(f) => Fault(f)
            case Read(more, end) => Read(Entry(key, value, more), end)
  }

  // ---------------------------------------------------------------- decoding what was encoded

  lemma TakeExact(a: Bytes, rest: Bytes)
    ensures TakeBytes(a + rest, |a|) == Read(a, rest)
  {}

  lemma TextExact(t: Bytes, rest: Bytes)
    requires |t| < Range(8)
    ensures DecodeText(EncodeText(t) + rest) == Read(t, rest)
  {
    Regroup(Little(|t|, 8), t, rest);
    TakeExact(Little(|t|, 8), t + rest);
    UnsignedLittle(|t|, 8);
    TakeExact(t, rest);
  }

  lemma Tagged(tag: byte, body: Bytes, rest: Bytes)
    ensures (([tag] + body) + rest)[0] == tag && (([tag] + body) + rest)[1..] == body + rest
  {}

  lemma CountExact(n: nat, body: Bytes, rest: Bytes)
    requires n < Range(4)
    ensures TakeBytes((Little(n, 4) + body) + rest, 4) == Read(Little(n, 4), body + rest)
    ensures Unsigned(Little(n, 4)) == n
  {
    Regroup(Little(n, 4), body, rest);
    TakeExact(Little(n, 4), body + rest);
    UnsignedLittle(n, 4);
  }

  /** Decoding an encoding gives the tree back exactly when the tree is good, and a fault otherwise. */
  lemma {:induction false} DecodeExact(v: Tree, rest: Bytes, depth: nat)
    requires Encodable(v)
    ensures Good(v, depth) ==> Decode(Encode(v) + rest, depth) == Read(v, rest)
    ensures Good(v, depth) <==> Flaw(v, depth).None?
    ensures !Good(v, depth) ==> Decode(Encode(v) + rest, depth) == Fault(Flaw(v, depth).value)
    decreases v
  {
    hide DecodeText, EncodeText, DecodeItems, DecodeEntries, EncodeItems, EncodeEntries, TakeBytes, Finite;
    hide GoodItems, GoodEntries, FlawIn, FlawAmong, Little, Unsigned;
    var s := Encode(v) + rest;
    if depth <= MAX_DEPTH {
      match v
      case Null =>
        assert s == [0] + rest;
      case Bool(b) =>
        assert s == [if b then 2 else 1] + rest;
      case Number(bits) =>
        Tagged(3, Little(bits, 8), rest);
        TakeExact(Little(bits, 8), rest);
        UnsignedLittle(bits, 8);
      case Text(t) =>
        Tagged(4, EncodeText(t), rest);
        TextExact(t, rest);
      case List(items) =>
        Tagged(5, Little(Count(items), 4) + EncodeItems(items), rest);
        CountExact(Count(items), EncodeItems(items), rest);
        ItemsExact(items, rest, depth);
      case Object(entries) =>
        Tagged(6, Little(CountEntries(entries), 4) + EncodeEntries(entries), rest);
        CountExact(CountEntries(entries), EncodeEntries(entries), rest);
        EntriesExact(entries, rest, depth, {});
    }
  }

  lemma {:induction false} ItemsExact(l: Trees, rest: Bytes, depth: nat)
    requires EncodableItems(l) && depth <= MAX_DEPTH
    ensures GoodItems(l, depth) ==> DecodeItems(EncodeItems(l) + rest, Count(l), depth) == Read(l, rest)
    ensures GoodItems(l, depth) <==> FlawIn(l, depth).None?
    ensures !GoodItems(l, depth) ==> DecodeItems(EncodeItems(l) + rest, Count(l), depth) == Fault(FlawIn(l, depth).value)
    decreases l
  {
    hide Decode, Encode, Good, Flaw;
    match l
    case NoTree =>
      assert [] + rest == rest;
    case Tree(head, tail) =>
      Regroup(Encode(head), EncodeItems(tail), rest);
      DecodeExact(head, EncodeItems(tail) + rest, depth + 1);
      ItemsExact(tail, rest, depth);
  }

  lemma {:induction false} EntriesExact(e: Entries, rest: Bytes, depth: nat, seen: set<Bytes>)
    requires EncodableEntries(e) && depth <= MAX_DEPTH
    ensures GoodEntries(e, depth, seen) ==> DecodeEntries(EncodeEntries(e) + rest, CountEntries(e), depth, seen) == Read(e, rest)
    ensures GoodEntries(e, depth, seen) <==> FlawAmong(e, depth, seen).None?
    ensures !GoodEntries(e, depth, seen) ==>
      DecodeEntries(EncodeEntries(e) + rest, CountEntries(e), depth, seen) == Fault(FlawAmong(e, depth, seen).value)
    decreases e
  {
    hide Decode, Encode, Good, Flaw, DecodeText, EncodeText;
    match e
    case NoEntry =>
      assert [] + rest == rest;
    case Entry(key, value, more) =>
      Regroup(EncodeText(key), Encode(value) + EncodeEntries(more), rest);
      Regroup(Encode(value), EncodeEntries(more), rest);
      TextExact(key, Encode(value) + (EncodeEntries(more) + rest));
      DecodeExact(value, EncodeEntries(more) + rest, depth + 1);
      EntriesExact(more, rest, depth, seen + {key});
  }

  // ---------------------------------------------------------------- only encodings decode

  lemma TakeSound(s: Bytes, n: nat)
    requires TakeBytes(s, n).Read?
    ensures var r := TakeBytes(s, n); |r.value| == n && s == r.value + r.rest
  {}

  lemma TextSound(s: Bytes)
    requires DecodeText(s).Read?
    ensures var r := DecodeText(s); |r.value| < Range(8) && s == EncodeText(r.value) + r.rest
  {
    var header := TakeBytes(s, 8);
    TakeSound(s, 8);
    LittleUnsigned(header.value);
    TakeSound(header.rest, Unsigned(header.value));
    Regroup(header.value, DecodeText(s).value, DecodeText(s).rest);
  }

  lemma Untagged(s: Bytes, tag: byte, body: Bytes, rest: Bytes)
    requires s != [] && s[0] == tag && s[1..] == body + rest
    ensures s == ([tag] + body) + rest
  {
    assert s == [s[0]] + s[1..];
  }

  lemma CountedSound(t: Bytes, body: Bytes, rest: Bytes)
    requires TakeBytes(t, 4).Read? && TakeBytes(t, 4).rest == body + rest
    ensures var n := Unsigned(TakeBytes(t, 4).value); n < Range(4) && t == (Little(n, 4) + body) + rest
  {
    var header := TakeBytes(t, 4).value;
    TakeSound(t, 4);
    LittleUnsigned(header);
    Regroup(header, body, rest);
  }

  /** Whatever decodes is the encoding of the tree it decodes to, and that tree is good. */
  lemma {:induction false} DecodeSound(s: Bytes, depth: nat)
    requires Decode(s, depth).Read?
    ensures var r := Decode(s, depth); Encodable(r.value) && Good(r.value, depth) && s == Encode(r.value) + r.rest
    decreases if depth > MAX_DEPTH then 0 else MAX_DEPTH + 1 - depth, 0
  {
    hide DecodeText, EncodeText, DecodeItems, DecodeEntries, EncodeItems, EncodeEntries, TakeBytes;
    hide Finite, GoodItems, GoodEntries, Little, Unsigned;
    var r := Decode(s, depth);
    var tag, t := s[0], s[1..];
    assert s == [tag] + t;
    if tag == 3 {
      TakeSound(t, 8);
      LittleUnsigned(TakeBytes(t, 8).value);
      Untagged(s, 3, TakeBytes(t, 8).value, r.rest);
    } else if tag == 4 {
      TextSound(t);
      Untagged(s, 4, EncodeText(DecodeText(t).value), r.rest);
    } else if tag == 5 {
      var body := TakeBytes(t, 4).rest;
      var n := Unsigned(TakeBytes(t, 4).value);
      ItemsSound(body, n, depth);
      var items := DecodeItems(body, n, depth).value;
      CountedSound(t, EncodeItems(items), r.rest);
      Untagged(s, 5, Little(n, 4) + EncodeItems(items), r.rest);
    } else if tag == 6 {
      var body := TakeBytes(t, 4).rest;
      var n := Unsigned(TakeBytes(t, 4).value);
      EntriesSound(body, n, depth, {});
      var entries := DecodeEntries(body, n, depth, {}).value;
      CountedSound(t, EncodeEntries(entries), r.rest);
      Untagged(s, 6, Little(n, 4) + EncodeEntries(entries), r.rest);
    }
  }

  lemma {:induction false} ItemsSound(s: Bytes, n: nat, depth: nat)
    requires DecodeItems(s, n, depth).Read? && depth <= MAX_DEPTH
    ensures var r := DecodeItems(s, n, depth);
      Count(r.value) == n && EncodableItems(r.value) && GoodItems(r.value, depth) && s == EncodeItems(r.value) + r.rest
    decreases MAX_DEPTH - depth, 1, n
  {
    hide Decode, Encode, Good, Encodable;
    if n == 0 {
      assert [] + s == s;
    } else {
      DecodeSound(s, depth + 1);
      var head := Decode(s, depth + 1);
      ItemsSound(head.rest, n - 1, depth);
      var tail := DecodeItems(head.rest, n - 1, depth);
      Regroup(Encode(head.value), EncodeItems(tail.value), tail.rest);
    }
  }

  lemma {:induction false} EntriesSound(s: Bytes, n: nat, depth: nat, seen: set<Bytes>)
    requires DecodeEntries(s, n, depth, seen).Read? && depth <= MAX_DEPTH
    ensures var r := DecodeEntries(s, n, depth, seen);
      && CountEntries(r.value) == n && EncodableEntries(r.value) && GoodEntries(r.value, depth, seen)
      && s == EncodeEntries(r.value) + r.rest
    decreases MAX_DEPTH - depth, 1, n
  {
    hide Decode, Encode, Good, Encodable, DecodeText, EncodeText;
    if n == 0 {
      assert [] + s == s;
    } else {
      TextSound(s);
      var key := DecodeText(s);
      DecodeSound(key.rest, depth + 1);
      var value := Decode(key.rest, depth + 1);
      EntriesSound(value.rest, n - 1, depth, seen + {key.value});
      var more := DecodeEntries(value.rest, n - 1, depth, seen + {key.value});
      Regroup(Encode(value.value), EncodeEntries(more.value), more.rest);
      Regroup(EncodeText(key.value), Encode(value.value) + EncodeEntries(more.value), more.rest);
    }
  }

  // ---------------------------------------------------------------- whole inputs

  function NormalBits(bits: nat): nat {
    if bits == NEGATIVE_ZERO then 0 else bits
  }

  /** The tree with every negative zero made zero. */
  function Normal(v: Tree): Tree {
    match v
    case Number(bits) => Number(NormalBits(bits))
    case List(items) => List(NormalItems(items))
    case Object(entries) => Object(NormalEntries(entries))
    case _ => v
  }

  function NormalItems(l: Trees): Trees {
    match l
    case NoTree => NoTree
    case Tree(head, tail) => Tree(Normal(head), NormalItems(tail))
  }

  function NormalEntries(e: Entries): Entries {
    match e
    case NoEntry => NoEntry
    case Entry(key, value, rest) => Entry(key, Normal(value), NormalEntries(rest))
  }

  /** `lookup`: one value, then nothing. */
  function Lookup(s: Bytes): Reading<Tree> {
    match Decode(s, 0)
    case Fault(f) => Fault(f)
    case Read(v, rest) => if rest == [] then Read(Normal(v), []) else Fault(Trailing)
  }

  /** The round trip: an encoded tree decodes, consumed to the end, to itself with zeros normalised, exactly when it is good. */
  lemma RoundTrip(v: Tree)
    requires Encodable(v)
    ensures Good(v, 0) ==> Lookup(Encode(v)) == Read(Normal(v), [])
    ensures !Good(v, 0) ==> Flaw(v, 0).Some? && Lookup(Encode(v)) == Fault(Flaw(v, 0).value)
  {
    assert Encode(v) + [] == Encode(v);
    DecodeExact(v, [], 0);
  }

  /** After a good tree nothing may follow, before its end nothing decodes, and there are seven tags. */
  lemma WrongInputs(v: Tree, more: Bytes, cut: nat)
    requires Encodable(v) && Good(v, 0) && cut < |Encode(v)|
    ensures more != [] ==> Lookup(Encode(v) + more) == Fault(Trailing)
    ensures Lookup(Encode(v)[..cut]) == Fault(BadRange)
    ensures more != [] && more[0] > 6 ==> Lookup(more) == Fault(BadTag)
  {
    hide Encode, Good;
    DecodeExact(v, more, 0);
    CutValue(v, cut, 0);
  }

  lemma CutText(t: Bytes, cut: nat)
    requires |t| < Range(8) && cut < |EncodeText(t)|
    ensures DecodeText(EncodeText(t)[..cut]) == Fault(BadRange)
  {
    var s := EncodeText(t)[..cut];
    if cut >= 8 {
      assert s[..8] == Little(|t|, 8);
      UnsignedLittle(|t|, 8);
    }
  }

  lemma CutCount(tag: byte, n: nat, body: Bytes, cut: nat)
    requires 0 < cut < 5 + |body| && n < Range(4)
    ensures var s := ([tag] + (Little(n, 4) + body))[..cut];
      && s[0] == tag
      && TakeBytes(s[1..], 4) == if cut < 5 then Fault(BadRange) else Read(Little(n, 4), body[..cut - 5])
    ensures Unsigned(Little(n, 4)) == n
  {
    UnsignedLittle(n, 4);
    hide Little;
    var s, header := ([tag] + (Little(n, 4) + body))[..cut], Little(n, 4);
    assert s[1..] == (header + body)[..cut - 1];
    if cut >= 5 {
      assert s[1..] == header + body[..cut - 5];
      assert s[1..][..4] == header;
      assert s[1..][4..] == body[..cut - 5];
    }
  }

  /** A proper beginning of a good tree's encoding runs out. */
  lemma {:induction false} CutValue(v: Tree, cut: nat, depth: nat)
    requires Encodable(v) && Good(v, depth) && cut < |Encode(v)|
    ensures Decode(Encode(v)[..cut], depth) == Fault(BadRange)
    decreases v
  {
    hide DecodeText, EncodeText, DecodeItems, DecodeEntries, EncodeItems, EncodeEntries, Finite;
    hide GoodItems, GoodEntries, Little, Unsigned, TakeBytes;
    if cut > 0 {
      match v
      case Number(bits) => CutNumber(bits, cut);
      case Text(t) =>
        assert ([4] + EncodeText(t))[..cut][1..] == EncodeText(t)[..cut - 1];
        CutText(t, cut - 1);
      case List(items) =>
        CutCount(5, Count(items), EncodeItems(items), cut);
        if cut >= 5 {
          CutItems(items, cut - 5, depth);
        }
      case Object(entries) =>
        CutCount(6, CountEntries(entries), EncodeEntries(entries), cut);
        if cut >= 5 {
          CutEntries(entries, cut - 5, depth, {});
        }
      case _ =>
    }
  }

  lemma CutNumber(bits: nat, cut: nat)
    requires 0 < cut < 9
    ensures var s := ([3] + Little(bits, 8))[..cut]; s[0] == 3 && TakeBytes(s[1..], 8) == Fault(BadRange)
  {}

  lemma {:induction false} CutItems(l: Trees, cut: nat, depth: nat)
    requires EncodableItems(l) && GoodItems(l, depth) && cut < |EncodeItems(l)| && depth <= MAX_DEPTH
    ensures DecodeItems(EncodeItems(l)[..cut], Count(l), depth) == Fault(BadRange)
    decreases l
  {
    hide Decode, Encode, Good;
    var size, s := |Encode(l.head)|, EncodeItems(l)[..cut];
    if cut < size {
      assert s == Encode(l.head)[..cut];
      CutValue(l.head, cut, depth + 1);
    } else {
      assert s == Encode(l.head) + EncodeItems(l.tail)[..cut - size];
      DecodeExact(l.head, EncodeItems(l.tail)[..cut - size], depth + 1);
      CutItems(l.tail, cut - size, depth);
    }
  }

  lemma {:induction false} CutEntries(e: Entries, cut: nat, depth: nat, seen: set<Bytes>)
    requires EncodableEntries(e) && GoodEntries(e, depth, seen) && cut < |EncodeEntries(e)| && depth <= MAX_DEPTH
    ensures DecodeEntries(EncodeEntries(e)[..cut], CountEntries(e), depth, seen) == Fault(BadRange)
    decreases e
  {
    hide Decode, Encode, Good, DecodeText, EncodeText;
    var key, value, s := |EncodeText(e.key)|, |Encode(e.value)|, EncodeEntries(e)[..cut];
    var body := Encode(e.value) + EncodeEntries(e.rest);
    if cut < key {
      assert s == EncodeText(e.key)[..cut];
      CutText(e.key, cut);
    } else {
      assert s == EncodeText(e.key) + body[..cut - key];
      TextExact(e.key, body[..cut - key]);
      if cut - key < value {
        assert body[..cut - key] == Encode(e.value)[..cut - key];
        CutValue(e.value, cut - key, depth + 1);
      } else {
        var tail := EncodeEntries(e.rest)[..cut - key - value];
        assert body[..cut - key] == Encode(e.value) + tail;
        DecodeExact(e.value, tail, depth + 1);
        CutEntries(e.rest, cut - key - value, depth, seen + {e.key});
      }
    }
  }

  /** Only the one number whose sign bit alone is set is changed. */
  lemma NormalExact(bits: nat)
    ensures Normal(Number(bits)) == if bits == 9223372036854775808 then Number(0) else Number(bits)
  {}

  /** The decoder accepts exactly the encodings of good trees. */
  lemma AcceptsExactly(s: Bytes)
    ensures Lookup(s).Read? <==> exists v :: Encodable(v) && Good(v, 0) && Encode(v) == s
  {
    if Lookup(s).Read? {
      DecodeSound(s, 0);
      var v := Decode(s, 0).value;
      assert Encode(v) + [] == Encode(v);
    }
    if v :| Encodable(v) && Good(v, 0) && Encode(v) == s {
      RoundTrip(v);
    }
  }

  /** Different good trees have different encodings. */
  lemma EncodingsDiffer(v: Tree, w: Tree)
    requires Encodable(v) && Encodable(w) && Good(v, 0) && Good(w, 0) && Encode(v) == Encode(w)
    ensures v == w
  {
    assert Encode(v) + [] == Encode(v) && Encode(w) + [] == Encode(w);
    DecodeExact(v, [], 0);
    DecodeExact(w, [], 0);
  }

  // ---------------------------------------------------------------- the decoder in place

  /** The values read so far, before the rest. */
  function Joined(done: seq<Tree>, l: Trees): Trees
    decreases |done|
  {
    if done == [] then l else Tree(done[0], Joined(done[1..], l))
  }

  function JoinedEntries(done: seq<(Bytes, Tree)>, e: Entries): Entries
    decreases |done|
  {
    if done == [] then e else Entry(done[0].0, done[0].1, JoinedEntries(done[1..], e))
  }

  class Decoder {
    const data: Bytes
    var position: nat
    var failure: Option<Fault>

    constructor (data: Bytes)
      ensures this.data == data && position == 0 && failure == None
    {
      this.data, position, failure := data, 0, None;
    }

    ghost predicate Valid()
      reads this
    {
      position <= |data|
    }

    ghost function Rest(): Bytes
      reads this
      requires Valid()
    {
      data[position..]
    }

    method Take(length: nat) returns (r: Option<Bytes>)
      requires Valid()
      modifies this
      ensures Valid()
      ensures var t := TakeBytes(old(Rest()), length);
        if t.Read? then r == Some(t.value) && Rest() == t.rest && failure == old(failure)
        else r == None && failure == Some(t.fault)
    {
      ghost var s := Rest();
      if length > |data| - position {
        failure := Some(BadRange);
        return None;
      }
      r := Some(data[position..position + length]);
      assert s[..length] == r.value && s[length..] == data[position + length..];
      position := position + length;
    }

    method TakeText() returns (r: Option<Bytes>)
      requires Valid()
      modifies this
      ensures Valid()
      ensures var t := DecodeText(old(Rest()));
        if t.Read? then r == Some(t.value) && Rest() == t.rest && failure == old(failure)
        else r == None && failure == Some(t.fault)
    {
      var header := Take(8);
      if header.None? {
        return None;
      }
      r := Take(Unsigned(header.value));
    }

    /** `decode_value`: the tag, and what it calls for. */
    method DecodeValue(depth: nat) returns (r: Option<Tree>)
      requires Valid()
      modifies this
      ensures Valid()
      ensures var d := Decode(old(Rest()), depth);
        if d.Read? then r == Some(Normal(d.value)) && Rest() == d.rest && failure == old(failure)
        else r == None && failure == Some(d.fault)
      decreases if depth > MAX_DEPTH then 0 else MAX_DEPTH + 1 - depth, 0
    {
      hide DecodeItems, DecodeEntries, DecodeText, Finite, Unsigned;
      if depth > MAX_DEPTH {
        failure := Some(TooDeep);
        return None;
      }
      var header := Take(1);
      if header.None? {
        return None;
      }
      var tag := header.value[0];
      if tag < 3 {
        return Some(if tag == 0 then Null else Bool(tag == 2));
      }
      if tag == 3 {
        header := Take(8);
        if header.None? {
          return None;
        }
        var bits := Unsigned(header.value);
        if !Finite(bits) {
          failure := Some(NotFinite);
          return None;
        }
        return Some(Number(NormalBits(bits)));
      }
      if tag == 4 {
        var text := TakeText();
        return if text.None? then None else Some(Text(text.value));
      }
      if tag != 5 && tag != 6 {
        failure := Some(BadTag);
        return None;
      }
      header := Take(4);
      if header.None? {
        return None;
      }
      if tag == 5 {
        var items := FillArray(Unsigned(header.value), depth);
        return if items.None? then None else Some(List(items.value));
      }
      var entries := FillObject(Unsigned(header.value), depth);
      return if entries.None? then None else Some(Object(entries.value));
    }

    method FillArray(count: nat, depth: nat) returns (r: Option<Trees>)
      requires Valid() && depth <= MAX_DEPTH
      modifies this
      ensures Valid()
      ensures var d := DecodeItems(old(Rest()), count, depth);
        if d.Read? then r == Some(NormalItems(d.value)) && Rest() == d.rest && failure == old(failure)
        else r == None && failure == Some(d.fault)
      decreases MAX_DEPTH - depth, 1
    {
      hide Decode, Normal, Joined;
      var items: seq<Tree> := [];
      ghost var raw: seq<Tree> := [];
      JoinedNothing(DecodeItems(Rest(), count, depth));
      for i := 0 to count
        invariant Valid() && failure == old(failure)
        invariant DecodeItems(old(Rest()), count, depth) == After(raw, DecodeItems(Rest(), count - i, depth))
        invariant |items| == |raw| && forall k :: 0 <= k < |raw| ==> items[k] == Normal(raw[k])
      {
        ghost var head := Decode(Rest(), depth + 1);
        ghost var before := Rest();
        var item := DecodeValue(depth + 1);
        if item.None? {
          return None;
        }
        JoinedMore(raw, head.value, DecodeItems(Rest(), count - i - 1, depth));
        raw := raw + [head.value];
        items := items + [item.value];
      }
      NormalJoined(raw, items);
      r := Some(Joined(items, NoTree));
    }

    method FillObject(count: nat, depth: nat) returns (r: Option<Entries>)
      requires Valid() && depth <= MAX_DEPTH
      modifies this
      ensures Valid()
      ensures var d := DecodeEntries(old(Rest()), count, depth, {});
        if d.Read? then r == Some(NormalEntries(d.value)) && Rest() == d.rest && failure == old(failure)
        else r == None && failure == Some(d.fault)
      decreases MAX_DEPTH - depth, 1
    {
      hide Decode, Normal, JoinedEntries, DecodeText;
      var entries: seq<(Bytes, Tree)>, keys: set<Bytes> := [], {};
      ghost var raw: seq<(Bytes, Tree)> := [];
      JoinedNoEntries(DecodeEntries(Rest(), count, depth, {}));
      for i := 0 to count
        invariant Valid() && failure == old(failure)
        invariant DecodeEntries(old(Rest()), count, depth, {}) == AfterEntries(raw, DecodeEntries(Rest(), count - i, depth, keys))
        invariant |entries| == |raw| && forall k :: 0 <= k < |raw| ==> entries[k] == (raw[k].0, Normal(raw[k].1))
      {
        var key := TakeText();
        if key.None? {
          return None;
        }
        if key.value in keys {
          failure := Some(DuplicateKey);
          return None;
        }
        ghost var value := Decode(Rest(), depth + 1);
        var item := DecodeValue(depth + 1);
        if item.None? {
          return None;
        }
        keys := keys + {key.value};
        JoinedMoreEntries(raw, key.value, value.value, DecodeEntries(Rest(), count - i - 1, depth, keys));
        raw := raw + [(key.value, value.value)];
        entries := entries + [(key.value, item.value)];
      }
      NormalJoinedEntries(raw, entries);
      r := Some(JoinedEntries(entries, NoEntry));
    }

    /** `lookup`: decodes from the start, and refuses trailing bytes. */
    method LookupValue() returns (r: Option<Tree>)
      modifies this
      ensures var d := Lookup(data);
        if d.Read? then r == Some(d.value) && position == |data| else r == None && failure == Some(d.fault)
    {
      position := 0;
      assert data[0..] == data;
      r := DecodeValue(0);
      if r.Some? && position != |data| {
        failure := Some(Trailing);
        r := None;
      }
    }
  }

  function After(done: seq<Tree>, d: Reading<Trees>): Reading<Trees> {
    if d.Read? then Read(Joined(done, d.value), d.rest) else d
  }

  function AfterEntries(done: seq<(Bytes, Tree)>, d: Reading<Entries>): Reading<Entries> {
    if d.Read? then Read(JoinedEntries(done, d.value), d.rest) else d
  }

  lemma JoinedNothing(d: Reading<Trees>)
    ensures After([], d) == d
  {}

  lemma JoinedNoEntries(d: Reading<Entries>)
    ensures AfterEntries([], d) == d
  {}

  lemma {:induction false} JoinMore(done: seq<Tree>, v: Tree, l: Trees)
    ensures Joined(done + [v], l) == Joined(done, Tree(v, l))
    decreases |done|
  {
    if done != [] {
      assert (done + [v])[1..] == done[1..] + [v];
      JoinMore(done[1..], v, l);
    } else {
      assert ([] + [v])[1..] == [];
    }
  }

  lemma {:induction false} JoinMoreEntries(done: seq<(Bytes, Tree)>, key: Bytes, v: Tree, e: Entries)
    ensures JoinedEntries(done + [(key, v)], e) == JoinedEntries(done, Entry(key, v, e))
    decreases |done|
  {
    if done != [] {
      assert (done + [(key, v)])[1..] == done[1..] + [(key, v)];
      JoinMoreEntries(done[1..], key, v, e);
    } else {
      assert ([] + [(key, v)])[1..] == [];
    }
  }

  lemma JoinedMore(done: seq<Tree>, v: Tree, d: Reading<Trees>)
    ensures After(done + [v], d) == After(done, if d.Read? then Read(Tree(v, d.value), d.rest) else d)
  {
    if d.Read? {
      JoinMore(done, v, d.value);
    }
  }

  lemma JoinedMoreEntries(done: seq<(Bytes, Tree)>, key: Bytes, v: Tree, d: Reading<Entries>)
    ensures AfterEntries(done + [(key, v)], d) == AfterEntries(done, if d.Read? then Read(Entry(key, v, d.value), d.rest) else d)
  {
    if d.Read? {
      JoinMoreEntries(done, key, v, d.value);
    }
  }

  lemma {:induction false} NormalJoined(raw: seq<Tree>, items: seq<Tree>)
    requires |items| == |raw| && forall k :: 0 <= k < |raw| ==> items[k] == Normal(raw[k])
    ensures NormalItems(Joined(raw, NoTree)) == Joined(items, NoTree)
    decreases |raw|
  {
    if raw != [] {
      NormalJoined(raw[1..], items[1..]);
    }
  }

  lemma {:induction false} NormalJoinedEntries(raw: seq<(Bytes, Tree)>, entries: seq<(Bytes, Tree)>)
    requires |entries| == |raw| && forall k :: 0 <= k < |raw| ==> entries[k] == (raw[k].0, Normal(raw[k].1))
    ensures NormalEntries(JoinedEntries(raw, NoEntry)) == JoinedEntries(entries, NoEntry)
    decreases |raw|
  {
    if raw != [] {
      NormalJoinedEntries(raw[1..], entries[1..]);
    }
  }
}
