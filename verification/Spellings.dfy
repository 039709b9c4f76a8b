/**
 * What the bytes of a JSON text stand for, from tables of RFC 8259 and not from the reader:
 * the characters and escapes of a string, the number grammar, and what a repeated key keeps.
 */
module Spellings {
  import opened Bytes
  import opened Json
  import opened JsonValue
  import opened JsonCopy
  import opened Request

  // ---------------------------------------------------------------- tokens

  lemma TokensExact()
    ensures Ascii("\"\\,:[]{}") ==
      [QUOTE, BACKSLASH, COMMA, COLON, OPEN_ARRAY, CLOSE_ARRAY, OPEN_OBJECT, CLOSE_OBJECT]
    ensures forall b: byte :: IsSpace(b) <==> b in Ascii(" \t\n\r")
    ensures forall b: byte :: EndsLiteral(b) <==> b in Ascii(" \t\n\r,]}")
    ensures forall b: byte :: IsDigit(b) <==> b in Ascii("0123456789")
  {
    var space, ending, digits := Ascii(" \t\n\r"), Ascii(" \t\n\r,]}"), Ascii("0123456789");
    assert space == [32, 9, 10, 13];
    assert ending == [32, 9, 10, 13, 44, 93, 125];
    assert digits == [48, 49, 50, 51, 52, 53, 54, 55, 56, 57];
  }

  // ---------------------------------------------------------------- strings

  const UPPER: Bytes := Ascii("0123456789ABCDEF")
  const LOWER: Bytes := Ascii("0123456789abcdef")

  /** Section 7: the characters that may follow a backslash, and the code units they stand for. */
  const ESCAPES: Bytes := Ascii("\"\\/bfnrt")
  const ESCAPED: Key := [34, 92, 47, 8, 12, 10, 13, 9]

  ghost predicate SpellsDigit(h: byte, d: int) {
    0 <= d < 16 && (h == UPPER[d] || h == LOWER[d])
  }

  ghost predicate SpellsHex(t: Bytes, u: int) {
    && |t| == 6 && t[0] == 92 && t[1] == 117 && 0 <= u < 65536
    && SpellsDigit(t[2], u / 16 / 16 / 16) && SpellsDigit(t[3], u / 16 / 16 % 16)
    && SpellsDigit(t[4], u / 16 % 16) && SpellsDigit(t[5], u % 16)
  }

  ghost predicate SpellsEscape(t: Bytes, u: int) {
    |t| == 2 && t[0] == 92 && exists k :: 0 <= k < |ESCAPES| && t[1] == ESCAPES[k] && u == ESCAPED[k]
  }

  /** A character as itself; a byte above 127 is a unit of its own, outside the range of escapes. */
  ghost predicate SpellsItself(t: Bytes, u: int) {
    |t| == 1 && t[0] >= 32 && t[0] != 34 && t[0] != 92 && if t[0] < 128 then u == t[0] else u - 0x1_0000 == t[0]
  }

  ghost predicate SpellsUnit(t: Bytes, u: int) {
    SpellsItself(t, u) || SpellsEscape(t, u) || SpellsHex(t, u)
  }

  /** Unit by unit, the parts spell a decoded string. */
  ghost predicate SpellsUnits(parts: seq<Bytes>, units: Key) {
    |parts| == |units| && forall i :: 0 <= i < |units| ==> SpellsUnit(parts[i], units[i])
  }

  lemma DigitTables()
    ensures UPPER == [48, 49, 50, 51, 52, 53, 54, 55, 56, 57, 65, 66, 67, 68, 69, 70]
    ensures LOWER == [48, 49, 50, 51, 52, 53, 54, 55, 56, 57, 97, 98, 99, 100, 101, 102]
  {}

  lemma HexDigitExact(h: byte)
    ensures IsHex(h) <==> SpellsDigit(h, HexDigit(h))
    ensures forall d :: SpellsDigit(h, d) ==> IsHex(h) && d == HexDigit(h)
  {
    DigitTables();
  }

  lemma EscapeTable()
    ensures ESCAPES == [34, 92, 47, 98, 102, 110, 114, 116]
  {}

  lemma EscapeExact(e: byte)
    ensures IsEscape(e) ==> SpellsEscape([92, e], CharUnit(Escape(e)))
    ensures forall u :: SpellsEscape([92, e], u) ==> IsEscape(e) && u == CharUnit(Escape(e))
  {
    EscapeTable();
    if IsEscape(e) {
      assert e in ESCAPES;
      var k :| 0 <= k < |ESCAPES| && e == ESCAPES[k];
      assert CharUnit(Escape(e)) == ESCAPED[k];
    }
  }

  lemma LastDigit(q: int, d: int, u: int)
    requires 0 <= d < 16
    ensures u == 16 * q + d <==> q == u / 16 && d == u % 16
  {}

  /** Four digits, most significant first. */
  lemma FourDigits(a: int, b: int, c: int, d: int, u: int)
    requires 0 <= a < 16 && 0 <= b < 16 && 0 <= c < 16 && 0 <= d < 16
    ensures u == 4096 * a + 256 * b + 16 * c + d <==>
      0 <= u < 65536 && a == u / 16 / 16 / 16 && b == u / 16 / 16 % 16 && c == u / 16 % 16 && d == u % 16
  {
    LastDigit(a, b, 16 * a + b);
    LastDigit(16 * a + b, c, 16 * (16 * a + b) + c);
    LastDigit(16 * (16 * a + b) + c, d, u);
    LastDigit(u / 16 / 16 / 16, u / 16 / 16 % 16, u / 16 / 16);
    LastDigit(u / 16 / 16, u / 16 % 16, u / 16);
    LastDigit(u / 16, u % 16, u);
  }

  lemma HexExact(h0: byte, h1: byte, h2: byte, h3: byte)
    ensures OkChar(Hex(h0, h1, h2, h3)) ==> SpellsHex([92, 117, h0, h1, h2, h3], CharUnit(Hex(h0, h1, h2, h3)))
    ensures forall u :: SpellsHex([92, 117, h0, h1, h2, h3], u) ==>
      OkChar(Hex(h0, h1, h2, h3)) && u == CharUnit(Hex(h0, h1, h2, h3))
  {
    HexDigitExact(h0);
    HexDigitExact(h1);
    HexDigitExact(h2);
    HexDigitExact(h3);
    hide SpellsDigit, HexDigit;
    var c := Hex(h0, h1, h2, h3);
    if OkChar(c) {
      assert SpellsDigit(h0, HexDigit(h0));
      DigitRange(h0, h1, h2, h3);
      FourDigits(HexDigit(h0), HexDigit(h1), HexDigit(h2), HexDigit(h3), CharUnit(c));
    }
    forall u | SpellsHex([92, 117, h0, h1, h2, h3], u) ensures OkChar(c) && u == CharUnit(c) {
      DigitRange(h0, h1, h2, h3);
      FourDigits(HexDigit(h0), HexDigit(h1), HexDigit(h2), HexDigit(h3), u);
    }
  }

  lemma DigitRange(h0: byte, h1: byte, h2: byte, h3: byte)
    ensures IsHex(h0) ==> 0 <= HexDigit(h0) < 16
    ensures IsHex(h1) ==> 0 <= HexDigit(h1) < 16
    ensures IsHex(h2) ==> 0 <= HexDigit(h2) < 16
    ensures IsHex(h3) ==> 0 <= HexDigit(h3) < 16
  {}

  /** A well-formed character spells its unit, and whatever spells a unit is the text of a character with that unit. */
  lemma CharSpells(c: Char)
    requires OkChar(c)
    ensures SpellsUnit(CharText(c), CharUnit(c))
  {
    match c
    case Plain(b) =>
    case Escape(e) => EscapeExact(e);
    case Hex(h0, h1, h2, h3) => HexExact(h0, h1, h2, h3);
  }

  lemma SpelledChar(t: Bytes, u: int) returns (c: Char)
    requires SpellsUnit(t, u)
    ensures OkChar(c) && CharText(c) == t && CharUnit(c) == u
  {
    if |t| == 1 {
      c := Plain(t[0]);
    } else if |t| == 2 {
      assert t == [92, t[1]];
      EscapeExact(t[1]);
      c := Escape(t[1]);
    } else {
      assert t == [92, 117, t[2], t[3], t[4], t[5]];
      HexExact(t[2], t[3], t[4], t[5]);
      c := Hex(t[2], t[3], t[4], t[5]);
    }
  }

  lemma {:induction false} SpelledChars(parts: seq<Bytes>, units: Key) returns (cs: seq<Char>)
    requires SpellsUnits(parts, units)
    ensures OkChars(cs) && CharsText(cs) == Flat(parts) && Units(cs) == units
  {
    hide SpellsUnit, OkChar, CharUnit, CharText;
    if parts == [] {
      cs := [];
    } else {
      var c := SpelledChar(parts[0], units[0]);
      var rest := SpelledChars(parts[1..], units[1..]);
      cs := [c] + rest;
      assert cs[1..] == rest && units == [units[0]] + units[1..];
    }
  }

  function Texts(cs: seq<Char>): (r: seq<Bytes>)
    ensures |r| == |cs| && forall i :: 0 <= i < |cs| ==> r[i] == CharText(cs[i])
  {
    seq(|cs|, i requires 0 <= i < |cs| => CharText(cs[i]))
  }

  lemma {:induction false} TextsFlat(cs: seq<Char>)
    ensures Flat(Texts(cs)) == CharsText(cs)
  {
    if cs != [] {
      TextsFlat(cs[1..]);
      assert Texts(cs)[1..] == Texts(cs[1..]);
    }
  }

  /** A string of a document decodes to exactly the units that its text spells. */
  lemma UnitsExact(cs: seq<Char>, units: Key)
    requires OkChars(cs)
    ensures Units(cs) == units <==> exists parts :: Flat(parts) == CharsText(cs) && SpellsUnits(parts, units)
  {
    hide SpellsUnit, OkChar, CharUnit, CharText;
    if Units(cs) == units {
      forall i | 0 <= i < |cs| ensures SpellsUnit(Texts(cs)[i], units[i]) {
        CharSpells(cs[i]);
      }
      TextsFlat(cs);
      assert SpellsUnits(Texts(cs), units);
    }
    forall parts | Flat(parts) == CharsText(cs) && SpellsUnits(parts, units) ensures Units(cs) == units {
      var cs' := SpelledChars(parts, units);
      ParseCharsExact(cs, []);
      ParseCharsExact(cs', []);
    }
  }

  /** Whatever spelling of its characters a text uses, `json.loads` of the string gives the units spelled. */
  lemma StringLoads(parts: seq<Bytes>, units: Key)
    requires SpellsUnits(parts, units)
    ensures Loads([34] + Flat(parts) + [34]) == Some(String(units))
  {
    hide SpellsUnits, Units, ParseChars;
    var cs := SpelledChars(parts, units);
    var d, s := Text(cs), [34] + Flat(parts) + [34];
    assert s == [] + DocText(d) + [];
    LoadsSpelled([], d, [], s);
  }

  /** A provider item loses exactly the members whose key text is a spelling of "created_by". */
  lemma DroppedExactly(key: seq<Char>)
    requires OkChars(key)
    ensures Dropped(key, Target(DropOf(true))) <==>
      exists parts :: Flat(parts) == CharsText(key) && SpellsUnits(parts, Ascii("created_by"))
  {
    UnitsExact(key, Ascii("created_by"));
  }

  /** A letter or an underscore is spelled as itself or by its four digits, and in no other way. */
  lemma LetterSpellings(t: Bytes, u: byte)
    requires 97 <= u <= 122 || u == 95
    ensures SpellsUnit(t, u) <==>
      t == [u] || (|t| == 6 && t[..4] == Ascii("\\u00") && SpellsDigit(t[4], u / 16) && SpellsDigit(t[5], u % 16))
  {
    EscapeTable();
    DigitTables();
    assert Ascii("\\u00") == [92, 117, 48, 48];
    assert u / 16 / 16 == 0 == u / 16 / 16 % 16 && u / 16 / 16 / 16 == 0 && u / 16 % 16 == u / 16;
    hide UPPER, LOWER, SpellsDigit;
    ZeroDigit();
    if |t| == 6 {
      assert t == [t[0], t[1], t[2], t[3], t[4], t[5]];
      assert t[..4] == [t[0], t[1], t[2], t[3]];
    }
  }

  lemma ZeroDigit()
    ensures forall h: byte :: SpellsDigit(h, 0) <==> h == 48
  {
    DigitTables();
  }

  // ---------------------------------------------------------------- literals

  lemma LiteralExact()
    ensures LiteralValue(Ascii("null")) == Null
    ensures LiteralValue(Ascii("true")) == Boolean(true) && LiteralValue(Ascii("false")) == Boolean(false)
    ensures forall s :: IsNumber(s) ==> LiteralValue(s) == Number(s)
  {
    assert Ascii("null")[0] == 110 && Ascii("true")[0] == 116 && Ascii("false")[0] == 102;
    forall s | IsNumber(s) ensures LiteralValue(s) == Number(s) {
      assert s != [];
      if s[0] >= 100 {
        BadStays(s[1..]);
      }
    }
  }

  /** Section 6: an optional minus, an integer without leading zeros, an optional fraction, an optional exponent. */
  ghost predicate Digits(s: Bytes) {
    forall i :: 0 <= i < |s| ==> IsDigit(s[i])
  }

  ghost predicate IntegerPart(s: Bytes) {
    s == Ascii("0") || (s != [] && Digits(s) && s[0] != 48)
  }

  ghost predicate FractionPart(s: Bytes) {
    s == [] || (|s| >= 2 && s[0] == 46 && Digits(s[1..]))
  }

  ghost predicate ExponentPart(s: Bytes) {
    || s == []
    || (|s| >= 2 && (s[0] == 69 || s[0] == 101)
         && (Digits(s[1..]) || (|s| >= 3 && (s[1] == 43 || s[1] == 45) && Digits(s[2..]))))
  }

  /** A fraction, if any, and an exponent, if any. */
  ghost predicate Ending(s: Bytes) {
    exists k :: 0 <= k <= |s| && FractionPart(s[..k]) && ExponentPart(s[k..])
  }

  ghost predicate Unsigned(s: Bytes) {
    exists k :: 0 <= k <= |s| && IntegerPart(s[..k]) && Ending(s[k..])
  }

  ghost predicate Signed(s: Bytes) {
    Unsigned(s) || (s != [] && s[0] == 45 && Unsigned(s[1..]))
  }

  /** What may follow the first digit of a fraction, and of an integer. */
  ghost predicate FractionTail(s: Bytes) {
    exists k :: 0 <= k <= |s| && Digits(s[..k]) && ExponentPart(s[k..])
  }

  ghost predicate IntegerTail(s: Bytes) {
    exists k :: 0 <= k <= |s| && Digits(s[..k]) && Ending(s[k..])
  }

  lemma DigitsHead(s: Bytes, k: nat)
    requires 0 < k <= |s|
    ensures Digits(s[..k]) <==> IsDigit(s[0]) && Digits(s[1..][..k - 1])
    ensures s[1..][k - 1..] == s[k..]
  {
    assert s[..k] == [s[0]] + s[1..][..k - 1];
  }

  lemma FractionTailStep(s: Bytes)
    ensures FractionTail(s) <==> ExponentPart(s) || (s != [] && IsDigit(s[0]) && FractionTail(s[1..]))
  {
    hide Digits, ExponentPart;
    NoDigits();
    assert s[0..] == s && s[..0] == [];
    if FractionTail(s) {
      var k :| 0 <= k <= |s| && Digits(s[..k]) && ExponentPart(s[k..]);
      if k > 0 {
        DigitsHead(s, k);
      }
    }
    if s != [] && IsDigit(s[0]) && FractionTail(s[1..]) {
      var k :| 0 <= k <= |s[1..]| && Digits(s[1..][..k]) && ExponentPart(s[1..][k..]);
      DigitsHead(s, k + 1);
    }
  }

  lemma NoDigits()
    ensures Digits([])
  {}

  lemma IntegerTailStep(s: Bytes)
    ensures IntegerTail(s) <==> Ending(s) || (s != [] && IsDigit(s[0]) && IntegerTail(s[1..]))
  {
    hide Digits, Ending;
    NoDigits();
    assert s[0..] == s && s[..0] == [];
    if IntegerTail(s) {
      var k :| 0 <= k <= |s| && Digits(s[..k]) && Ending(s[k..]);
      if k > 0 {
        DigitsHead(s, k);
      }
    }
    if s != [] && IsDigit(s[0]) && IntegerTail(s[1..]) {
      var k :| 0 <= k <= |s[1..]| && Digits(s[1..][..k]) && Ending(s[1..][k..]);
      DigitsHead(s, k + 1);
    }
  }

  lemma FractionHead(s: Bytes, k: nat)
    requires 2 <= k <= |s|
    ensures FractionPart(s[..k]) <==> s[0] == 46 && IsDigit(s[1]) && Digits(s[2..][..k - 2])
    ensures s[2..][k - 2..] == s[k..]
  {
    assert s[..k][1..] == s[1..][..k - 1];
    DigitsHead(s[1..], k - 1);
    assert s[1..][1..] == s[2..];
  }

  lemma EndingStep(s: Bytes)
    ensures Ending(s) <==> ExponentPart(s) || (|s| >= 2 && s[0] == 46 && IsDigit(s[1]) && FractionTail(s[2..]))
  {
    hide Digits, ExponentPart;
    assert s[0..] == s && s[..0] == [];
    if Ending(s) {
      var k :| 0 <= k <= |s| && FractionPart(s[..k]) && ExponentPart(s[k..]);
      if k >= 2 {
        FractionHead(s, k);
      }
    }
    if |s| >= 2 && s[0] == 46 && IsDigit(s[1]) && FractionTail(s[2..]) {
      var k :| 0 <= k <= |s[2..]| && Digits(s[2..][..k]) && ExponentPart(s[2..][k..]);
      FractionHead(s, k + 2);
    }
  }

  predicate Accepting(q: NumberState) {
    q == Zero || q == Integer || q == Fraction || q == Power
  }

  lemma BadRun(s: Bytes)
    ensures !Accepting(NumberRun(Bad, s))
  {
    BadStays(s);
  }

  lemma {:induction false} PowerRun(s: Bytes)
    ensures Accepting(NumberRun(Power, s)) <==> Digits(s)
  {
    if s != [] {
      BadRun(s[1..]);
      PowerRun(s[1..]);
      assert s == [s[0]] + s[1..];
    }
  }

  lemma SignRun(s: Bytes)
    ensures Accepting(NumberRun(ExponentSign, s)) <==> s != [] && Digits(s)
  {
    if s != [] {
      BadRun(s[1..]);
      PowerRun(s[1..]);
      assert s == [s[0]] + s[1..];
    }
  }

  lemma ExponentRun(s: Bytes)
    requires s != [] && (s[0] == 69 || s[0] == 101)
    ensures Accepting(NumberRun(Exponent, s[1..])) <==> ExponentPart(s)
  {
    var t := s[1..];
    if t != [] {
      BadRun(t[1..]);
      SignRun(t[1..]);
      PowerRun(t[1..]);
      assert t == [t[0]] + t[1..] && t[1..] == s[2..];
    }
  }

  lemma {:induction false} FractionRun(s: Bytes)
    ensures Accepting(NumberRun(Fraction, s)) <==> FractionTail(s)
  {
    hide FractionTail, Digits;
    FractionTailStep(s);
    if s != [] {
      BadRun(s[1..]);
      FractionRun(s[1..]);
      if s[0] == 69 || s[0] == 101 {
        ExponentRun(s);
      }
    }
  }

  lemma ZeroRun(s: Bytes)
    ensures Accepting(NumberRun(Zero, s)) <==> Ending(s)
    ensures s != [] && s[0] == 46 ==> (Accepting(NumberRun(Point, s[1..])) <==> Ending(s))
  {
    hide Ending, FractionTail, Digits;
    EndingStep(s);
    if s != [] {
      BadRun(s[1..]);
      if s[0] == 69 || s[0] == 101 {
        ExponentRun(s);
      }
      if |s| >= 2 {
        assert s[1..][1..] == s[2..];
        FractionRun(s[2..]);
        BadRun(s[2..]);
      }
    }
  }

  lemma {:induction false} IntegerRun(s: Bytes)
    ensures Accepting(NumberRun(Integer, s)) <==> IntegerTail(s)
  {
    hide Ending, IntegerTail;
    IntegerTailStep(s);
    ZeroRun(s);
    if s != [] {
      IntegerRun(s[1..]);
      BadRun(s[1..]);
      ZeroNotDigit(s);
    }
  }

  lemma ZeroNotDigit(s: Bytes)
    ensures s != [] && Ending(s) ==> !IsDigit(s[0])
  {}

  lemma UnsignedFirst(s: Bytes)
    ensures Unsigned(s) <==>
      s != [] && IsDigit(s[0]) && if s[0] == 48 then Ending(s[1..]) else IntegerTail(s[1..])
  {
    hide Ending;
    assert Ascii("0") == [48];
    if Unsigned(s) {
      var k :| 0 <= k <= |s| && IntegerPart(s[..k]) && Ending(s[k..]);
      DigitsHead(s, k);
    }
    if s != [] && IsDigit(s[0]) && s[0] == 48 && Ending(s[1..]) {
      assert s[..1] == [48];
    }
    if s != [] && IsDigit(s[0]) && s[0] != 48 && IntegerTail(s[1..]) {
      var k :| 0 <= k <= |s[1..]| && Digits(s[1..][..k]) && Ending(s[1..][k..]);
      DigitsHead(s, k + 1);
      assert IntegerPart(s[..k + 1]);
    }
  }

  lemma UnsignedRun(q: NumberState, s: Bytes)
    requires s != [] && (q == Minus || (q == Start && s[0] != 45))
    ensures Accepting(NumberRun(q, s)) <==> Unsigned(s)
  {
    hide Ending, IntegerTail, Unsigned;
    UnsignedFirst(s);
    ZeroRun(s[1..]);
    IntegerRun(s[1..]);
    BadRun(s[1..]);
  }

  /** The number automaton accepts exactly the lexemes of the grammar. */
  lemma NumberExact(s: Bytes)
    ensures IsNumber(s) <==> Signed(s)
  {
    hide Unsigned;
    assert IsNumber(s) <==> Accepting(NumberRun(Start, s));
    UnsignedFirst(s);
    if s != [] {
      if s[0] == 45 {
        UnsignedFirst(s[1..]);
        if s[1..] != [] {
          UnsignedRun(Minus, s[1..]);
        }
      } else {
        UnsignedRun(Start, s);
      }
    }
  }

  // ---------------------------------------------------------------- objects

  /** The members of an object in order, each with the key it decodes to and its value. */
  function Pairs(m: Members): seq<(Key, Value)> {
    match m
    case NoMember => []
    case Member(key, _, _, value, _, _, rest) => [(Units(key), ValueOf(value))] + Pairs(rest)
  }

  /** The last of the pairs with this key. */
  ghost predicate LastOf(pairs: seq<(Key, Value)>, k: Key, v: Value) {
    exists i :: 0 <= i < |pairs| && pairs[i] == (k, v) && forall j :: i < j < |pairs| ==> pairs[j].0 != k
  }

  ghost predicate Absent(pairs: seq<(Key, Value)>, k: Key) {
    forall i :: 0 <= i < |pairs| ==> pairs[i].0 != k
  }

  lemma {:induction false} InsertedExact(acc: map<Key, Value>, m: Members, k: Key)
    ensures Absent(Pairs(m), k) ==> (k in DictInto(acc, m) <==> k in acc) && (k in acc ==> DictInto(acc, m)[k] == acc[k])
    ensures !Absent(Pairs(m), k) ==> k in DictInto(acc, m) && LastOf(Pairs(m), k, DictInto(acc, m)[k])
    decreases m
  {
    hide Absent, LastOf, Units, ValueOf;
    if m.Member? {
      var v := ValueOf(m.value);
      InsertedExact(acc[Units(m.key) := v], m.rest, k);
      Cons((Units(m.key), v), Pairs(m.rest), k);
    } else {
      NoPairs(k);
    }
  }

  lemma NoPairs(k: Key)
    ensures Absent([], k)
  {}

  lemma Cons(p: (Key, Value), rest: seq<(Key, Value)>, k: Key)
    ensures Absent([p] + rest, k) <==> p.0 != k && Absent(rest, k)
    ensures Absent(rest, k) && p.0 == k ==> LastOf([p] + rest, k, p.1)
    ensures forall v :: LastOf(rest, k, v) ==> LastOf([p] + rest, k, v)
  {
    var all := [p] + rest;
    assert all[0] == p && forall i :: 0 <= i < |rest| ==> all[i + 1] == rest[i];
    forall v | LastOf(rest, k, v) ensures LastOf(all, k, v) {
      var i :| 0 <= i < |rest| && rest[i] == (k, v) && forall j :: i < j < |rest| ==> rest[j].0 != k;
      assert all[i + 1] == (k, v) && forall j :: i + 1 < j < |all| ==> all[j] == rest[j - 1];
    }
  }

  /** An object decodes to the keys it has, each with the value of its last member. */
  lemma DictExact(m: Members, k: Key)
    ensures k in DictInto(map[], m) <==> !Absent(Pairs(m), k)
    ensures k in DictInto(map[], m) ==> LastOf(Pairs(m), k, DictInto(map[], m)[k])
  {
    InsertedExact(map[], m, k);
  }
}
