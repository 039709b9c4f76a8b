/**
 * JSON texts (RFC 8259, sections 2 to 7) as documents, and the decoder that
 * `json.loads` stands for.
 *
 * A document records every byte of a text: its whitespace, the spelling of each
 * string and the lexeme of each literal. `Parse` is an independent recursive-descent
 * reader; it is proved to accept exactly the texts of well-formed documents, and to
 * recover the document. `Loads` decodes a text to a value, an object being a map
 * built in member order so that a repeated key keeps its last value.
 *
 * A raw byte above 127 is kept as a unit of its own, outside the range of escapes.
 */
module Json {
  import opened Bytes

  const QUOTE: byte := 34
  const COMMA: byte := 44
  const OPEN_ARRAY: byte := 91
  const BACKSLASH: byte := 92
  const CLOSE_ARRAY: byte := 93
  const OPEN_OBJECT: byte := 123
  const CLOSE_OBJECT: byte := 125

  // ---------------------------------------------------------------- lexical classes

  predicate IsSpace(b: byte) {
    b == 9 || b == 10 || b == 13 || b == 32
  }

  ghost predicate AllSpace(s: Bytes) {
    forall i :: 0 <= i < |s| ==> IsSpace(s[i])
  }

  /** The bytes that end a literal. */
  predicate EndsLiteral(b: byte) {
    IsSpace(b) || b == COMMA || b == CLOSE_ARRAY || b == CLOSE_OBJECT
  }

  predicate IsHex(b: byte) {
    IsDigit(b) || 65 <= b <= 70 || 97 <= b <= 102
  }

  /** The number grammar of section 6, as an automaton over its lexeme. */
  datatype NumberState = Start | Minus | Zero | Integer | Point | Fraction | Exponent | ExponentSign | Power | Bad

  function NumberStep(q: NumberState, b: byte): NumberState {
    match q
    case Start => if b == 45 then Minus else if b == 48 then Zero else if IsDigit(b) then Integer else Bad
    case Minus => if b == 48 then Zero else if IsDigit(b) then Integer else Bad
    case Zero => if b == 46 then Point else if b == 69 || b == 101 then Exponent else Bad
    case Integer =>
      if IsDigit(b) then Integer else if b == 46 then Point else if b == 69 || b == 101 then Exponent else Bad
    case Point => if IsDigit(b) then Fraction else Bad
    case Fraction => if IsDigit(b) then Fraction else if b == 69 || b == 101 then Exponent else Bad
    case Exponent => if b == 43 || b == 45 then ExponentSign else if IsDigit(b) then Power else Bad
    case ExponentSign => if IsDigit(b) then Power else Bad
    case Power => if IsDigit(b) then Power else Bad
    case Bad => Bad
  }

  function NumberRun(q: NumberState, s: Bytes): NumberState
    decreases |s|
  {
    if s == [] then q else NumberRun(NumberStep(q, s[0]), s[1..])
  }

  predicate IsNumber(s: Bytes) {
    var q := NumberRun(Start, s);
    q == Zero || q == Integer || q == Fraction || q == Power
  }

  const NULL_TEXT: Bytes := Ascii("null")
  const TRUE_TEXT: Bytes := Ascii("true")
  const FALSE_TEXT: Bytes := Ascii("false")

  predicate IsLiteral(s: Bytes) {
    s == NULL_TEXT || s == TRUE_TEXT || s == FALSE_TEXT || IsNumber(s)
  }

  // ---------------------------------------------------------------- documents

  /** One character of a string, as spelled. */
  datatype Char = Plain(b: byte) | Escape(e: byte) | Hex(h0: byte, h1: byte, h2: byte, h3: byte)

  datatype Doc =
    | Literal(lexeme: Bytes)
    | Text(chars: seq<Char>)
    | Array(open: Bytes, items: Items)
    | Object(open: Bytes, members: Members)

  /** `after` follows the value, `gap` follows the comma when there is one. */
  datatype Items =
    | NoItem
    | Item(value: Doc, after: Bytes, gap: Bytes, rest: Items)

  datatype Members =
    | NoMember
    | Member(key: seq<Char>, before: Bytes, between: Bytes, value: Doc, after: Bytes, gap: Bytes, rest: Members)

  predicate IsEscape(e: byte) {
    e == 34 || e == 92 || e == 47 || e == 98 || e == 102 || e == 110 || e == 114 || e == 116
  }

  predicate OkChar(c: Char) {
    match c
    case Plain(b) => 32 <= b && b != QUOTE && b != BACKSLASH
    case Escape(e) => IsEscape(e)
    case Hex(h0, h1, h2, h3) => IsHex(h0) && IsHex(h1) && IsHex(h2) && IsHex(h3)
  }

  ghost predicate OkChars(cs: seq<Char>) {
    forall i :: 0 <= i < |cs| ==> OkChar(cs[i])
  }

  ghost predicate OkDoc(d: Doc) {
    match d
    case Literal(lexeme) => lexeme != [] && IsLiteral(lexeme) && forall i :: 0 <= i < |lexeme| ==> !EndsLiteral(lexeme[i])
    case Text(chars) => OkChars(chars)
    case Array(open, items) => AllSpace(open) && OkItems(items)
    case Object(open, members) => AllSpace(open) && OkMembers(members)
  }

  ghost predicate OkItems(l: Items) {
    match l
    case NoItem => true
    case Item(value, after, gap, rest) =>
      OkDoc(value) && AllSpace(after) && AllSpace(gap) && OkItems(rest) && (rest.NoItem? ==> gap == [])
  }

  ghost predicate OkMembers(m: Members) {
    match m
    case NoMember => true
    case Member(key, before, between, value, after, gap, rest) =>
      && OkChars(key) && AllSpace(before) && AllSpace(between) && OkDoc(value)
      && AllSpace(after) && AllSpace(gap) && OkMembers(rest) && (rest.NoMember? ==> gap == [])
  }

  // ---------------------------------------------------------------- the text of a document

  function CharText(c: Char): Bytes {
    match c
    case Plain(b) => [b]
    case Escape(e) => [BACKSLASH, e]
    case Hex(h0, h1, h2, h3) => [BACKSLASH, 117, h0, h1, h2, h3]
  }

  function CharsText(cs: seq<Char>): Bytes {
    if cs == [] then [] else CharText(cs[0]) + CharsText(cs[1..])
  }

  function StringText(cs: seq<Char>): Bytes {
    [QUOTE] + (CharsText(cs) + [QUOTE])
  }

  function DocText(d: Doc): Bytes {
    match d
    case Literal(lexeme) => lexeme
    case Text(chars) => StringText(chars)
    case Array(open, items) => [OPEN_ARRAY] + (open + (ItemsText(items) + [CLOSE_ARRAY]))
    case Object(open, members) => [OPEN_OBJECT] + (open + (MembersText(members) + [CLOSE_OBJECT]))
  }

  function ItemsText(l: Items): Bytes {
    match l
    case NoItem => []
    case Item(value, after, gap, rest) =>
      DocText(value) + (after + (if rest.NoItem? then [] else [COMMA] + (gap + ItemsText(rest))))
  }

  function MembersText(m: Members): Bytes {
    match m
    case NoMember => []
    case Member(key, before, between, value, after, gap, rest) =>
      StringText(key) + (before + ([COLON] + (between + (DocText(value) + (after +
        (if rest.NoMember? then [] else [COMMA] + (gap + MembersText(rest))))))))
  }

  // ---------------------------------------------------------------- reading a text

  function SkipSpace(s: Bytes): (r: (Bytes, Bytes))
    ensures s == r.0 + r.1 && AllSpace(r.0)
    ensures r.1 != [] ==> !IsSpace(r.1[0])
  {
    if s == [] || !IsSpace(s[0]) then ([], s)
    else
      var (taken, rest) := SkipSpace(s[1..]);
      assert s == [s[0]] + s[1..];
      Regroup([s[0]], taken, rest);
      ([s[0]] + taken, rest)
  }

  function TakeLexeme(s: Bytes): (r: (Bytes, Bytes))
    ensures s == r.0 + r.1
    ensures forall i :: 0 <= i < |r.0| ==> !EndsLiteral(r.0[i])
    ensures r.1 != [] ==> EndsLiteral(r.1[0])
  {
    if s == [] || EndsLiteral(s[0]) then ([], s)
    else
      var (taken, rest) := TakeLexeme(s[1..]);
      assert s == [s[0]] + s[1..];
      Regroup([s[0]], taken, rest);
      ([s[0]] + taken, rest)
  }

  function ParseChar(s: Bytes): (r: Option<(Char, Bytes)>)
    ensures r.Some? ==> OkChar(r.value.0) && s == CharText(r.value.0) + r.value.1
    ensures r.Some? ==> |r.value.1| < |s|
  {
    if s == [] then None
    else if s[0] == BACKSLASH then
      if |s| >= 6 && s[1] == 117 then
        if IsHex(s[2]) && IsHex(s[3]) && IsHex(s[4]) && IsHex(s[5])
        then Some((Hex(s[2], s[3], s[4], s[5]), s[6..])) else None
      else if |s| >= 2 && IsEscape(s[1]) then Some((Escape(s[1]), s[2..]))
      else None
    else if s[0] < 32 || s[0] == QUOTE then None
    else Some((Plain(s[0]), s[1..]))
  }

  /** Reads what follows an opening quote, through the closing one. */
  function ParseChars(s: Bytes): (r: Option<(seq<Char>, Bytes)>)
    ensures r.Some? ==> OkChars(r.value.0) && s == CharsText(r.value.0) + [QUOTE] + r.value.1
    ensures r.Some? ==> |r.value.1| < |s|
    decreases |s|
  {
    if s == [] then None
    else if s[0] == QUOTE then
      assert s == CharsText([]) + [QUOTE] + s[1..];
      Some(([], s[1..]))
    else
      match ParseChar(s)
      case None => None
      case Some((c, tail)) =>
        match ParseChars(tail)
        case None => None
        case Some((cs, rest)) =>
          assert ([c] + cs)[1..] == cs;
          assert s == CharsText([c] + cs) + [QUOTE] + rest;
          Some(([c] + cs, rest))
  }

  function ParseDoc(s: Bytes): (r: Option<(Doc, Bytes)>)
    ensures r.Some? ==> |r.value.1| < |s|
    decreases |s|, 0
  {
    if s == [] then None
    else if s[0] == QUOTE then
      match ParseChars(s[1..])
      case None => None
      case Some((cs, rest)) => Some((Text(cs), rest))
    else if s[0] == OPEN_ARRAY then
      var (open, tail) := SkipSpace(s[1..]);
      if tail != [] && tail[0] == CLOSE_ARRAY then Some((Array(open, NoItem), tail[1..]))
      else
        match ParseItems(tail)
        case None => None
        case Some((items, rest)) =>
          if rest != [] && rest[0] == CLOSE_ARRAY then Some((Array(open, items), rest[1..])) else None
    else if s[0] == OPEN_OBJECT then
      var (open, tail) := SkipSpace(s[1..]);
      if tail != [] && tail[0] == CLOSE_OBJECT then Some((Object(open, NoMember), tail[1..]))
      else
        match ParseMembers(tail)
        case None => None
        case Some((members, rest)) =>
          if rest != [] && rest[0] == CLOSE_OBJECT then Some((Object(open, members), rest[1..])) else None
    else
      var (lexeme, rest) := TakeLexeme(s);
      if lexeme != [] && IsLiteral(lexeme) then Some((Literal(lexeme), rest)) else None
  }

  /** Reads one or more items, up to but not including the closing bracket. */
  function ParseItems(s: Bytes): (r: Option<(Items, Bytes)>)
    ensures r.Some? ==> |r.value.1| < |s|
    decreases |s|, 1
  {
    match ParseDoc(s)
    case None => None
    case Some((value, tail)) =>
      var (after, tail') := SkipSpace(tail);
      if tail' != [] && tail'[0] == COMMA then
        var (gap, next) := SkipSpace(tail'[1..]);
        match ParseItems(next)
        case None => None
        case Some((items, rest)) => Some((Item(value, after, gap, items), rest))
      else Some((Item(value, after, [], NoItem), tail'))
  }

  /** Reads one member and the whitespace after it; the result carries no comma. */
  function ParsePair(s: Bytes): (r: Option<(Members, Bytes)>)
    ensures r.Some? ==> r.value.0.Member? && |r.value.1| < |s|
    decreases |s|, 1
  {
    if s == [] || s[0] != QUOTE then None
    else
      match ParseChars(s[1..])
      case None => None
      case Some((key, t0)) =>
        var (before, t1) := SkipSpace(t0);
        if t1 == [] || t1[0] != COLON then None
        else
          var (between, t2) := SkipSpace(t1[1..]);
          match ParseDoc(t2)
          case None => None
          case Some((value, t3)) =>
            var (after, t4) := SkipSpace(t3);
            Some((Member(key, before, between, value, after, [], NoMember), t4))
  }

  /** Reads one or more members, up to but not including the closing brace. */
  function ParseMembers(s: Bytes): (r: Option<(Members, Bytes)>)
    ensures r.Some? ==> |r.value.1| < |s|
    decreases |s|, 2
  {
    match ParsePair(s)
    case None => None
    case Some((pair, tail)) =>
      if tail != [] && tail[0] == COMMA then
        var (gap, next) := SkipSpace(tail[1..]);
        match ParseMembers(next)
        case None => None
        case Some((members, rest)) => Some((pair.(gap := gap, rest := members), rest))
      else Some((pair, tail))
  }

  // ---------------------------------------------------------------- the reader is sound

  lemma HeadTail(s: Bytes)
    requires s != []
    ensures s == [s[0]] + s[1..]
  {}

  /** What a successful reading of an array read. */
  lemma ArrayShape(s: Bytes)
    requires s != [] && s[0] == OPEN_ARRAY && ParseDoc(s).Some?
    ensures
      var (open, tail) := SkipSpace(s[1..]);
      var (d, rest) := ParseDoc(s).value;
      && tail != [] && d.Array? && d.open == open
      && (if tail[0] == CLOSE_ARRAY then d.items == NoItem && rest == tail[1..]
          else ParseItems(tail) == Some((d.items, [CLOSE_ARRAY] + rest)))
  {
    hide ParseItems, SkipSpace;
    var (_, tail) := SkipSpace(s[1..]);
    if tail != [] && tail[0] != CLOSE_ARRAY {
      HeadTail(ParseItems(tail).value.1);
    }
  }

  lemma ObjectShape(s: Bytes)
    requires s != [] && s[0] == OPEN_OBJECT && ParseDoc(s).Some?
    ensures
      var (open, tail) := SkipSpace(s[1..]);
      var (d, rest) := ParseDoc(s).value;
      && tail != [] && d.Object? && d.open == open
      && (if tail[0] == CLOSE_OBJECT then d.members == NoMember && rest == tail[1..]
          else ParseMembers(tail) == Some((d.members, [CLOSE_OBJECT] + rest)))
  {
    hide ParseMembers, SkipSpace;
    var (_, tail) := SkipSpace(s[1..]);
    if tail != [] && tail[0] != CLOSE_OBJECT {
      HeadTail(ParseMembers(tail).value.1);
    }
  }

  lemma ScalarSound(s: Bytes)
    requires s != [] && s[0] != OPEN_ARRAY && s[0] != OPEN_OBJECT && ParseDoc(s).Some?
    ensures var (d, rest) := ParseDoc(s).value; OkDoc(d) && s == DocText(d) + rest
  {
    hide ParseChars, TakeLexeme, IsLiteral;
    var (d, rest) := ParseDoc(s).value;
    HeadTail(s);
    if s[0] == QUOTE {
      Regroup([QUOTE], CharsText(d.chars) + [QUOTE], rest);
    }
  }

  lemma {:induction false} ParseDocSound(s: Bytes)
    requires ParseDoc(s).Some?
    ensures var (d, rest) := ParseDoc(s).value; OkDoc(d) && s == DocText(d) + rest
    decreases |s|, 0
  {
    hide ParseDoc, ParseItems, ParseMembers, SkipSpace, OkDoc, DocText, OkItems, OkMembers, ItemsText, MembersText;
    SomeText(s);
    var (d, rest) := ParseDoc(s).value;
    NothingInside();
    if s[0] == OPEN_ARRAY {
      var (open, tail) := SkipSpace(s[1..]);
      ArrayShape(s);
      if tail[0] != CLOSE_ARRAY {
        ParseItemsSound(tail);
      } else {
        HeadTail(tail);
        Empty([CLOSE_ARRAY] + rest);
      }
      ArraySpelled(s, open, d.items, tail, rest);
    } else if s[0] == OPEN_OBJECT {
      var (open, tail) := SkipSpace(s[1..]);
      ObjectShape(s);
      if tail[0] != CLOSE_OBJECT {
        ParseMembersSound(tail);
      } else {
        HeadTail(tail);
        Empty([CLOSE_OBJECT] + rest);
      }
      ObjectSpelled(s, open, d.members, tail, rest);
    } else {
      ScalarSound(s);
    }
  }

  lemma Empty(s: Bytes)
    ensures [] + s == s
  {}

  lemma ArraySpelled(s: Bytes, open: Bytes, items: Items, tail: Bytes, rest: Bytes)
    requires s != [] && s[0] == OPEN_ARRAY && s[1..] == open + tail && AllSpace(open) && OkItems(items)
    requires tail == ItemsText(items) + ([CLOSE_ARRAY] + rest)
    ensures OkDoc(Array(open, items)) && s == DocText(Array(open, items)) + rest
  {
    hide ItemsText;
    HeadTail(s);
    Wrapped(OPEN_ARRAY, open, ItemsText(items), CLOSE_ARRAY, rest);
  }

  lemma ObjectSpelled(s: Bytes, open: Bytes, members: Members, tail: Bytes, rest: Bytes)
    requires s != [] && s[0] == OPEN_OBJECT && s[1..] == open + tail && AllSpace(open) && OkMembers(members)
    requires tail == MembersText(members) + ([CLOSE_OBJECT] + rest)
    ensures OkDoc(Object(open, members)) && s == DocText(Object(open, members)) + rest
  {
    hide MembersText;
    HeadTail(s);
    Wrapped(OPEN_OBJECT, open, MembersText(members), CLOSE_OBJECT, rest);
  }

  lemma SomeText(s: Bytes)
    requires ParseDoc(s).Some?
    ensures s != []
  {}

  lemma NothingInside()
    ensures ItemsText(NoItem) == [] && OkItems(NoItem) && MembersText(NoMember) == [] && OkMembers(NoMember)
  {}

  lemma Wrapped(left: byte, open: Bytes, body: Bytes, right: byte, rest: Bytes)
    ensures ([left] + (open + (body + [right]))) + rest == [left] + (open + (body + ([right] + rest)))
  {}

  lemma {:induction false} ParseItemsSound(s: Bytes)
    requires ParseItems(s).Some?
    ensures var (l, rest) := ParseItems(s).value; l.Item? && OkItems(l) && s == ItemsText(l) + rest
    decreases |s|, 1
  {
    ParseDocSound(s);
    var (value, tail) := ParseDoc(s).value;
    var (after, tail') := SkipSpace(tail);
    if tail' != [] && tail'[0] == COMMA {
      var (gap, next) := SkipSpace(tail'[1..]);
      HeadTail(tail');
      ParseItemsSound(next);
      var (items, rest) := ParseItems(next).value;
      Chain2(DocText(value), after, COMMA, gap, ItemsText(items), rest);
    } else {
      Regroup(DocText(value), after, tail');
      assert after + [] == after;
    }
  }

  lemma Chain2(value: Bytes, after: Bytes, comma: byte, gap: Bytes, items: Bytes, rest: Bytes)
    ensures value + (after + ([comma] + (gap + (items + rest)))) == (value + (after + ([comma] + (gap + items)))) + rest
  {}

  /** A member's bytes up to its comma. */
  function PairText(m: Members): Bytes
    requires m.Member?
  {
    StringText(m.key) + (m.before + ([COLON] + (m.between + (DocText(m.value) + m.after))))
  }

  lemma MembersTextStep(m: Members)
    requires m.Member?
    ensures MembersText(m) == PairText(m) + (if m.rest.NoMember? then [] else [COMMA] + (m.gap + MembersText(m.rest)))
  {}

  lemma {:induction false} ParsePairSound(s: Bytes)
    requires ParsePair(s).Some?
    ensures
      var (m, rest) := ParsePair(s).value;
      m.gap == [] && m.rest == NoMember && OkMembers(m) && s == PairText(m) + rest
    decreases |s|, 1
  {
    HeadTail(s);
    var (key, t0) := ParseChars(s[1..]).value;
    var (before, t1) := SkipSpace(t0);
    HeadTail(t1);
    var (between, t2) := SkipSpace(t1[1..]);
    ParseDocSound(t2);
    var (value, t3) := ParseDoc(t2).value;
    var (after, t4) := SkipSpace(t3);
    PairChain(CharsText(key), before, between, DocText(value), after, t4);
  }

  lemma PairChain(key: Bytes, before: Bytes, between: Bytes, value: Bytes, after: Bytes, rest: Bytes)
    ensures [QUOTE] + (key + [QUOTE] + (before + ([COLON] + (between + (value + (after + rest))))))
         == (([QUOTE] + (key + [QUOTE])) + (before + ([COLON] + (between + (value + after))))) + rest
  {}

  lemma {:induction false} ParseMembersSound(s: Bytes)
    requires ParseMembers(s).Some?
    ensures var (m, rest) := ParseMembers(s).value; m.Member? && OkMembers(m) && s == MembersText(m) + rest
    decreases |s|, 2
  {
    ParsePairSound(s);
    var (pair, tail) := ParsePair(s).value;
    if tail != [] && tail[0] == COMMA {
      var (gap, next) := SkipSpace(tail[1..]);
      HeadTail(tail);
      ParseMembersSound(next);
      var (members, rest) := ParseMembers(next).value;
      PairThenMore(pair, gap, members, rest);
    } else {
      PairAlone(pair, tail);
    }
  }

  lemma PairAlone(pair: Members, rest: Bytes)
    requires pair.Member? && pair.rest == NoMember
    ensures PairText(pair) + rest == MembersText(pair) + rest
  {}

  lemma PairThenMore(pair: Members, gap: Bytes, members: Members, rest: Bytes)
    requires pair.Member? && OkMembers(pair.(gap := [], rest := NoMember)) && AllSpace(gap) && OkMembers(members) && members.Member?
    ensures var m := pair.(gap := gap, rest := members);
      OkMembers(m) && PairText(pair) + ([COMMA] + (gap + (MembersText(members) + rest))) == MembersText(m) + rest
  {
    var m := pair.(gap := gap, rest := members);
    MembersTextStep(m);
    assert PairText(m) == PairText(pair);
    Wrapped2(PairText(pair), gap, MembersText(members), rest);
  }

  lemma Wrapped2(pair: Bytes, gap: Bytes, body: Bytes, rest: Bytes)
    ensures (pair + ([COMMA] + (gap + body))) + rest == pair + ([COMMA] + (gap + (body + rest)))
  {}

  /** A whole text: one document with whitespace around it. */
  function Parse(s: Bytes): Option<(Bytes, Doc, Bytes)> {
    var (lead, tail) := SkipSpace(s);
    match ParseDoc(tail)
    case None => None
    case Some((d, rest)) =>
      var (trail, end) := SkipSpace(rest);
      if end == [] then Some((lead, d, trail)) else None
  }

  /** `lead`, `d` and `trail` spell the text `s`. */
  ghost predicate Spells(lead: Bytes, d: Doc, trail: Bytes, s: Bytes) {
    OkDoc(d) && AllSpace(lead) && AllSpace(trail) && s == lead + DocText(d) + trail
  }

  lemma ParseSound(s: Bytes)
    requires Parse(s).Some?
    ensures var (lead, d, trail) := Parse(s).value; Spells(lead, d, trail, s)
  {
    var (lead, tail) := SkipSpace(s);
    ParseDocSound(tail);
    Regroup(lead, DocText(Parse(s).value.1), Parse(s).value.2);
  }

  // ---------------------------------------------------------------- the reader is complete

  lemma {:induction false} SkipSpaceExact(w: Bytes, rest: Bytes)
    requires AllSpace(w) && (rest != [] ==> !IsSpace(rest[0]))
    ensures SkipSpace(w + rest) == (w, rest)
  {
    if w == [] {
      assert w + rest == rest;
    } else {
      assert (w + rest)[1..] == w[1..] + rest;
      HeadTail(w);
      SkipSpaceExact(w[1..], rest);
    }
  }

  lemma {:induction false} TakeLexemeExact(w: Bytes, rest: Bytes)
    requires (forall i :: 0 <= i < |w| ==> !EndsLiteral(w[i])) && (rest != [] ==> EndsLiteral(rest[0]))
    ensures TakeLexeme(w + rest) == (w, rest)
  {
    if w == [] {
      assert w + rest == rest;
    } else {
      assert (w + rest)[1..] == w[1..] + rest;
      HeadTail(w);
      TakeLexemeExact(w[1..], rest);
    }
  }

  lemma ParseCharExact(c: Char, rest: Bytes)
    requires OkChar(c)
    ensures ParseChar(CharText(c) + rest) == Some((c, rest))
    ensures (CharText(c) + rest)[0] != QUOTE
  {
    var s := CharText(c) + rest;
    assert s[|CharText(c)|..] == rest;
  }

  lemma {:induction false} ParseCharsExact(cs: seq<Char>, rest: Bytes)
    requires OkChars(cs)
    ensures ParseChars(CharsText(cs) + [QUOTE] + rest) == Some((cs, rest))
  {
    var s := CharsText(cs) + [QUOTE] + rest;
    if cs == [] {
      assert s == [QUOTE] + rest;
      assert s[1..] == rest;
    } else {
      var tail := CharsText(cs[1..]) + [QUOTE] + rest;
      assert s == CharText(cs[0]) + tail;
      ParseCharExact(cs[0], tail);
      ParseCharsExact(cs[1..], rest);
      assert cs == [cs[0]] + cs[1..];
    }
  }

  /** A well-formed document starts with a byte no whitespace or closing bracket can be taken for. */
  lemma DocFirst(d: Doc)
    requires OkDoc(d)
    ensures DocText(d) != [] && !EndsLiteral(DocText(d)[0])
    ensures d.Text? <==> DocText(d)[0] == QUOTE
    ensures d.Array? <==> DocText(d)[0] == OPEN_ARRAY
    ensures d.Object? <==> DocText(d)[0] == OPEN_OBJECT
  {
    if d.Literal? {
      LiteralFirst(d.lexeme);
    }
  }

  lemma LiteralFirst(s: Bytes)
    requires s != [] && IsLiteral(s)
    ensures s[0] != QUOTE && s[0] != OPEN_ARRAY && s[0] != OPEN_OBJECT
  {
    if IsNumber(s) {
      if NumberStep(Start, s[0]) == Bad {
        BadStays(s[1..]);
      }
    } else {
      assert NULL_TEXT[0] == 110 && TRUE_TEXT[0] == 116 && FALSE_TEXT[0] == 102;
    }
  }

  lemma {:induction false} BadStays(s: Bytes)
    ensures NumberRun(Bad, s) == Bad
    decreases |s|
  {
    if s != [] {
      BadStays(s[1..]);
    }
  }

  lemma ItemsFirst(l: Items)
    requires OkItems(l) && l.Item?
    ensures ItemsText(l) != [] && !EndsLiteral(ItemsText(l)[0])
  {
    DocFirst(l.value);
  }

  lemma Bracketed(open: Bytes, body: Bytes, right: byte, rest: Bytes, left: byte)
    ensures (([left] + (open + (body + [right]))) + rest)[1..] == open + (body + ([right] + rest))
    ensures ([right] + rest)[1..] == rest && ([right] + rest)[0] == right && [] + ([right] + rest) == [right] + rest
  {}

  lemma ArrayExact(open: Bytes, items: Items, rest: Bytes)
    requires AllSpace(open) && OkItems(items)
    requires var tail := [CLOSE_ARRAY] + rest; items.Item? ==> ParseItems(ItemsText(items) + tail) == Some((items, tail))
    ensures ParseDoc(DocText(Array(open, items)) + rest) == Some((Array(open, items), rest))
  {
    hide ParseItems, SkipSpace;
    var inner := ItemsText(items) + ([CLOSE_ARRAY] + rest);
    Bracketed(open, ItemsText(items), CLOSE_ARRAY, rest, OPEN_ARRAY);
    if items.Item? {
      ItemsFirst(items);
    }
    SkipSpaceExact(open, inner);
  }

  lemma MembersFirst(m: Members)
    requires m.Member?
    ensures MembersText(m) != [] && MembersText(m)[0] == QUOTE
  {}

  lemma BodyFirst(m: Members, trail: Bytes)
    ensures var s := MembersText(m) + ([CLOSE_OBJECT] + trail);
      s != [] && !IsSpace(s[0]) && (s[0] == CLOSE_OBJECT <==> m.NoMember?)
  {
    hide MembersText;
    var s := MembersText(m) + ([CLOSE_OBJECT] + trail);
    if m.Member? {
      MembersFirst(m);
      assert s[0] == MembersText(m)[0];
    } else {
      NoMembers();
      assert s[0] == CLOSE_OBJECT;
    }
  }

  lemma NoMembers()
    ensures MembersText(NoMember) == []
  {}

  lemma ObjectExact(open: Bytes, members: Members, rest: Bytes)
    requires AllSpace(open) && OkMembers(members)
    requires var tail := [CLOSE_OBJECT] + rest;
      members.Member? ==> ParseMembers(MembersText(members) + tail) == Some((members, tail))
    ensures ParseDoc(DocText(Object(open, members)) + rest) == Some((Object(open, members), rest))
  {
    hide ParseMembers, SkipSpace, MembersText, ParseDoc;
    var inner := MembersText(members) + ([CLOSE_OBJECT] + rest);
    Bracketed(open, MembersText(members), CLOSE_OBJECT, rest, OPEN_OBJECT);
    BodyFirst(members, rest);
    SkipSpaceExact(open, inner);
    if members.NoMember? {
      NoMembers();
    }
    ParseObject(DocText(Object(open, members)) + rest, open, inner, members, rest);
  }

  lemma ParseObject(s: Bytes, open: Bytes, inner: Bytes, members: Members, rest: Bytes)
    requires s != [] && s[0] == OPEN_OBJECT && SkipSpace(s[1..]) == (open, inner) && inner != []
    requires inner[0] == CLOSE_OBJECT <==> members.NoMember?
    requires if members.NoMember? then inner[1..] == rest else ParseMembers(inner) == Some((members, [CLOSE_OBJECT] + rest))
    ensures ParseDoc(s) == Some((Object(open, members), rest))
  {
    hide ParseMembers, SkipSpace;
    assert ([CLOSE_OBJECT] + rest)[1..] == rest;
  }

  lemma {:induction false} ParseDocExact(d: Doc, rest: Bytes)
    requires OkDoc(d)
    requires d.Literal? && rest != [] ==> EndsLiteral(rest[0])
    ensures ParseDoc(DocText(d) + rest) == Some((d, rest))
    decreases d, 1
  {
    match d
    case Literal(lexeme) =>
      hide ParseChars, ParseItems, ParseMembers, SkipSpace, IsLiteral;
      DocFirst(d);
      TakeLexemeExact(lexeme, rest);
    case Text(chars) =>
      assert (DocText(d) + rest)[1..] == CharsText(chars) + [QUOTE] + rest;
      ParseCharsExact(chars, rest);
    case Array(open, items) =>
      if items.Item? {
        ParseItemsExact(items, [CLOSE_ARRAY] + rest);
      }
      ArrayExact(open, items, rest);
    case Object(open, members) =>
      if members.Member? {
        ParseMembersExact(members, [CLOSE_OBJECT] + rest);
      }
      ObjectExact(open, members, rest);
  }

  /** What follows an item list or a member list: its closing bracket. */
  ghost predicate Closes(rest: Bytes) {
    rest != [] && (rest[0] == CLOSE_ARRAY || rest[0] == CLOSE_OBJECT)
  }

  lemma {:induction false} ParseItemsExact(l: Items, rest: Bytes)
    requires OkItems(l) && l.Item? && Closes(rest)
    ensures ParseItems(ItemsText(l) + rest) == Some((l, rest))
    decreases l, 0
  {
    hide ParseDoc, SkipSpace, DocText, OkDoc;
    var more := if l.rest.NoItem? then [] else [COMMA] + (l.gap + ItemsText(l.rest));
    var tail := l.after + (more + rest);
    Regroup(DocText(l.value), l.after + more, rest);
    Regroup(l.after, more, rest);
    AfterEnds(l.after, more + rest);
    ParseDocExact(l.value, tail);
    SkipSpaceExact(l.after, more + rest);
    if l.rest.NoItem? {
      assert more + rest == rest;
    } else {
      var next := ItemsText(l.rest) + rest;
      assert (more + rest)[1..] == l.gap + next;
      ItemsFirst(l.rest);
      SkipSpaceExact(l.gap, next);
      ParseItemsExact(l.rest, rest);
    }
  }

  lemma AfterEnds(after: Bytes, tail: Bytes)
    requires AllSpace(after) && tail != [] && EndsLiteral(tail[0])
    ensures after + tail != [] && EndsLiteral((after + tail)[0])
  {
    if after != [] {
      assert (after + tail)[0] == after[0];
    }
  }

  lemma {:induction false} ParsePairExact(m: Members, rest: Bytes)
    requires OkMembers(m) && m.Member? && rest != [] && EndsLiteral(rest[0]) && !IsSpace(rest[0])
    ensures ParsePair(PairText(m) + rest) == Some((m.(gap := [], rest := NoMember), rest))
    decreases m, 0
  {
    var s := PairText(m) + rest;
    var t4 := m.after + rest;
    var t2 := DocText(m.value) + t4;
    var t1 := [COLON] + (m.between + t2);
    var t0 := m.before + t1;
    PairChain(CharsText(m.key), m.before, m.between, DocText(m.value), m.after, rest);
    assert s == [QUOTE] + (CharsText(m.key) + [QUOTE] + t0);
    assert s[1..] == CharsText(m.key) + [QUOTE] + t0;
    ParseCharsExact(m.key, t0);
    SkipSpaceExact(m.before, t1);
    assert t1[1..] == m.between + t2;
    DocFirst(m.value);
    SkipSpaceExact(m.between, t2);
    AfterEnds(m.after, rest);
    ParseDocExact(m.value, t4);
    SkipSpaceExact(m.after, rest);
  }

  lemma {:induction false} ParseMembersExact(m: Members, rest: Bytes)
    requires OkMembers(m) && m.Member? && Closes(rest)
    ensures ParseMembers(MembersText(m) + rest) == Some((m, rest))
    decreases m, 1
  {
    if m.rest.NoMember? {
      LastMemberText(m, rest);
      ParsePairExact(m, rest);
      LastMember(PairText(m) + rest, m, rest);
    } else {
      var next := MembersText(m.rest) + rest;
      MoreMembersText(m, rest);
      ParseMembersExact(m.rest, rest);
      ParsePairExact(m, [COMMA] + (m.gap + next));
      MoreMembers(PairText(m) + ([COMMA] + (m.gap + next)), m, rest);
    }
  }

  lemma LastMemberText(m: Members, rest: Bytes)
    requires m.Member? && m.rest.NoMember?
    ensures MembersText(m) + rest == PairText(m) + rest
  {}

  lemma MoreMembersText(m: Members, rest: Bytes)
    requires m.Member? && m.rest.Member?
    ensures MembersText(m) + rest == PairText(m) + ([COMMA] + (m.gap + (MembersText(m.rest) + rest)))
  {
    MembersTextStep(m);
    Wrapped2(PairText(m), m.gap, MembersText(m.rest), rest);
  }

  lemma LastMember(s: Bytes, m: Members, rest: Bytes)
    requires OkMembers(m) && m.Member? && m.rest.NoMember? && Closes(rest)
    requires ParsePair(s) == Some((m.(gap := [], rest := NoMember), rest))
    ensures ParseMembers(s) == Some((m, rest))
  {}

  lemma MoreMembers(s: Bytes, m: Members, rest: Bytes)
    requires OkMembers(m) && m.Member? && m.rest.Member?
    requires var next := MembersText(m.rest) + rest;
      && ParsePair(s) == Some((m.(gap := [], rest := NoMember), [COMMA] + (m.gap + next)))
      && ParseMembers(next) == Some((m.rest, rest))
    ensures ParseMembers(s) == Some((m, rest))
  {
    var next := MembersText(m.rest) + rest;
    assert next[0] == QUOTE;
    assert ([COMMA] + (m.gap + next))[1..] == m.gap + next;
    SkipSpaceExact(m.gap, next);
  }

  /** The reader accepts exactly the texts of well-formed documents, and each such text has one reading. */
  lemma ParseExact(lead: Bytes, d: Doc, trail: Bytes, s: Bytes)
    requires Spells(lead, d, trail, s)
    ensures Parse(s) == Some((lead, d, trail))
  {
    DocFirst(d);
    Regroup(lead, DocText(d), trail);
    SkipSpaceExact(lead, DocText(d) + trail);
    ParseDocExact(d, trail);
    assert trail + [] == trail;
    SkipSpaceExact(trail, []);
  }
}
