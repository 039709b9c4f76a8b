/**
 * The decoded value of a JSON text, and what dropping a top-level member does to it.
 *
 * `Loads` is the decoder `json.loads` stands for: an object is built in member order,
 * so a repeated key keeps its last value, and a literal keeps its lexeme.
 */
module JsonValue {
  import opened Bytes
  import opened Json

  /** A decoded string: one code unit per character or escape. */
  type Key = seq<int>

  datatype Value =
    | Null
    | Boolean(b: bool)
    | Number(lexeme: Bytes)
    | String(units: Key)
    | List(items: seq<Value>)
    | Dict(m: map<Key, Value>)

  function HexDigit(b: byte): int {
    if IsDigit(b) then b - 48 else if b <= 70 then b - 55 else b - 87
  }

  function CharUnit(c: Char): int {
    match c
    case Plain(b) => if b < 128 then b else 0x1_0000 + b
    case Escape(e) =>
      if e == 98 then 8 else if e == 102 then 12 else if e == 110 then 10 else if e == 114 then 13
      else if e == 116 then 9 else e
    case Hex(h0, h1, h2, h3) => 4096 * HexDigit(h0) + 256 * HexDigit(h1) + 16 * HexDigit(h2) + HexDigit(h3)
  }

  function Units(cs: seq<Char>): (u: Key)
    ensures |u| == |cs| && forall i :: 0 <= i < |cs| ==> u[i] == CharUnit(cs[i])
  {
    seq(|cs|, i requires 0 <= i < |cs| => CharUnit(cs[i]))
  }

  function LiteralValue(lexeme: Bytes): Value {
    if lexeme == NULL_TEXT then Null
    else if lexeme == TRUE_TEXT then Boolean(true)
    else if lexeme == FALSE_TEXT then Boolean(false)
    else Number(lexeme)
  }

  function ValueOf(d: Doc): Value {
    match d
    case Literal(lexeme) => LiteralValue(lexeme)
    case Text(chars) => String(Units(chars))
    case Array(_, items) => List(ItemValues(items))
    case Object(_, members) => Dict(DictInto(map[], members))
  }

  function ItemValues(l: Items): seq<Value> {
    match l
    case NoItem => []
    case Item(value, _, _, rest) => [ValueOf(value)] + ItemValues(rest)
  }

  /** Inserts the members into a dictionary, first to last. */
  function DictInto(acc: map<Key, Value>, m: Members): map<Key, Value>
    decreases m
  {
    match m
    case NoMember => acc
    case Member(key, _, _, value, _, _, rest) => DictInto(acc[Units(key) := ValueOf(value)], rest)
  }

  function Loads(s: Bytes): Option<Value> {
    match Parse(s)
    case None => None
    case Some((_, d, _)) => Some(ValueOf(d))
  }

  lemma LoadsSpelled(lead: Bytes, d: Doc, trail: Bytes, s: Bytes)
    requires Spells(lead, d, trail, s)
    ensures Loads(s) == Some(ValueOf(d))
  {
    ParseExact(lead, d, trail, s);
  }

  // ---------------------------------------------------------------- dropping a member

  predicate Dropped(key: seq<Char>, drop: Option<Key>) {
    drop.Some? && Units(key) == drop.value
  }

  /** The members whose decoded key is not `drop`, with all whitespace between tokens removed. */
  function Kept(m: Members, drop: Option<Key>): Members {
    match m
    case NoMember => NoMember
    case Member(key, _, _, value, _, _, rest) =>
      if Dropped(key, drop) then Kept(rest, drop)
      else Member(key, [], [], value, [], [], Kept(rest, drop))
  }

  function Without(d: map<Key, Value>, drop: Option<Key>): map<Key, Value> {
    match drop
    case None => d
    case Some(k) => d - {k}
  }

  lemma {:induction false} KeptOk(m: Members, drop: Option<Key>)
    requires OkMembers(m)
    ensures OkMembers(Kept(m, drop))
  {
    if m.Member? {
      KeptOk(m.rest, drop);
    }
  }

  /** Dropping members from the text is removing the key from the dictionary, repeated keys included. */
  lemma {:induction false} KeptInto(acc: map<Key, Value>, m: Members, drop: Option<Key>)
    ensures DictInto(Without(acc, drop), Kept(m, drop)) == Without(DictInto(acc, m), drop)
    decreases m
  {
    match m
    case NoMember =>
    case Member(key, _, _, value, _, _, rest) =>
      var next := acc[Units(key) := ValueOf(value)];
      KeptInto(next, rest, drop);
      if Dropped(key, drop) {
        assert Without(next, drop) == Without(acc, drop);
      } else {
        assert Without(next, drop) == Without(acc, drop)[Units(key) := ValueOf(value)];
      }
  }

  lemma KeptValue(m: Members, drop: Option<Key>)
    ensures DictInto(map[], Kept(m, drop)) == Without(DictInto(map[], m), drop)
  {
    assert Without(map[], drop) == map[];
    KeptInto(map[], m, drop);
  }
}
