/**
 * The streaming request writer of streaming.py, and its agreement with the simple builder:
 * the bytes it seals decode to the settings, the fixed members and the builder's input.
 */
module Streaming {
  import opened Bytes
  import opened Json
  import opened JsonValue
  import opened JsonCopy
  import opened History
  import opened Snapshots
  import opened Selection
  import opened Request

  // ---------------------------------------------------------------- the request as a document

  function PlainChars(s: Bytes): (cs: seq<Char>)
    ensures |cs| == |s| && forall i :: 0 <= i < |s| ==> cs[i] == Plain(s[i])
  {
    seq(|s|, i requires 0 <= i < |s| => Plain(s[i]))
  }

  lemma {:induction false} PlainText(s: Bytes)
    ensures CharsText(PlainChars(s)) == s
  {
    if s != [] {
      assert PlainChars(s)[1..] == PlainChars(s[1..]);
      PlainText(s[1..]);
      HeadTail(s);
    }
  }

  const STORE: Bytes := Ascii("store")
  const STREAM: Bytes := Ascii("stream")
  const INCLUDE: Bytes := Ascii("include")
  const REASONING_CONTENT: Bytes := Ascii("reasoning.encrypted_content")
  const INPUT: Bytes := Ascii("input")

  function PlainMember(key: Bytes, value: Doc, rest: Members): Members {
    Member(PlainChars(key), [], [], value, [], [], rest)
  }

  /** The fixed members and the input, as the end of an object. */
  function FixedMembers(items: Items): Members {
    PlainMember(STORE, Literal(FALSE_TEXT),
      PlainMember(STREAM, Literal(TRUE_TEXT),
        PlainMember(INCLUDE, INCLUDED,
          PlainMember(INPUT, Array([], items), NoMember))))
  }

  lemma PlainMemberText(key: Bytes, value: Doc, rest: Members)
    ensures MembersText(PlainMember(key, value, rest))
      == (Keyed(key) + DocText(value)) + (if rest.NoMember? then [] else [COMMA] + MembersText(rest))
  {
    hide MembersText, DocText, CharsText;
    PlainText(key);
    MembersTextStep(PlainMember(key, value, rest));
    Unspaced([QUOTE] + (key + [QUOTE]), DocText(value), MembersText(rest));
    KeyedColon(key, DocText(value));
  }

  lemma KeyedColon(key: Bytes, value: Bytes)
    ensures ([QUOTE] + (key + [QUOTE])) + ([COLON] + value) == Keyed(key) + value
  {}

  lemma StoreText(rest: Members)
    requires rest.Member?
    ensures MembersText(PlainMember(STORE, Literal(FALSE_TEXT), rest)) == Ascii("\"store\":false,") + MembersText(rest)
  {
    hide MembersText, Ascii, Keyed;
    PlainMemberText(STORE, Literal(FALSE_TEXT), rest);
    LiteralPieces();
    Regroup(Keyed(STORE) + FALSE_TEXT, [COMMA], MembersText(rest));
  }

  lemma StreamText(rest: Members)
    requires rest.Member?
    ensures MembersText(PlainMember(STREAM, Literal(TRUE_TEXT), rest)) == Ascii("\"stream\":true,") + MembersText(rest)
  {
    hide MembersText, Ascii, Keyed;
    PlainMemberText(STREAM, Literal(TRUE_TEXT), rest);
    LiteralPieces();
    Regroup(Keyed(STREAM) + TRUE_TEXT, [COMMA], MembersText(rest));
  }

  const INCLUDED: Doc := Array([], Item(Text(PlainChars(REASONING_CONTENT)), [], [], NoItem))

  function Keyed(key: Bytes): Bytes {
    [QUOTE] + key + [QUOTE, COLON]
  }

  lemma LiteralPieces()
    ensures Ascii("\"store\":false,") == (Keyed(STORE) + FALSE_TEXT) + [COMMA]
    ensures Ascii("\"stream\":true,") == (Keyed(STREAM) + TRUE_TEXT) + [COMMA]
  {}

  lemma ArrayPieces()
    ensures Ascii("\"include\":[") == Keyed(INCLUDE) + [OPEN_ARRAY]
    ensures Ascii("\"input\":[") == Keyed(INPUT) + [OPEN_ARRAY]
  {}

  lemma ContentPiece()
    ensures Ascii("\"reasoning.encrypted_content\"],") == [QUOTE] + REASONING_CONTENT + [QUOTE] + [CLOSE_ARRAY, COMMA]
  {}

  lemma SingleItemText(d: Doc)
    ensures DocText(Array([], Item(d, [], [], NoItem))) == [OPEN_ARRAY] + (DocText(d) + [CLOSE_ARRAY])
  {
    assert ItemsText(Item(d, [], [], NoItem)) == DocText(d);
  }

  lemma PlainStringText(key: Bytes)
    ensures StringText(PlainChars(key)) == [QUOTE] + key + [QUOTE]
  {
    PlainText(key);
  }

  lemma IncludedText()
    ensures DocText(INCLUDED) == [OPEN_ARRAY] + ([QUOTE] + REASONING_CONTENT + [QUOTE] + [CLOSE_ARRAY])
  {
    PlainStringText(REASONING_CONTENT);
    SingleItemText(Text(PlainChars(REASONING_CONTENT)));
  }

  lemma OpenedArray(key: Bytes, body: Bytes, close: Bytes, rest: Bytes)
    ensures (Keyed(key) + ([OPEN_ARRAY] + (body + close))) + rest == (Keyed(key) + [OPEN_ARRAY]) + (body + close + rest)
  {}

  lemma IncludeText(rest: Members)
    requires rest.Member?
    ensures MembersText(PlainMember(INCLUDE, INCLUDED, rest))
      == Ascii("\"include\":[") + (Ascii("\"reasoning.encrypted_content\"],") + MembersText(rest))
  {
    hide MembersText, DocText;
    var content := [QUOTE] + REASONING_CONTENT + [QUOTE];
    PlainMemberText(INCLUDE, INCLUDED, rest);
    ArrayPieces();
    ContentPiece();
    IncludedText();
    OpenedArray(INCLUDE, content, [CLOSE_ARRAY], [COMMA] + MembersText(rest));
    assert content + [CLOSE_ARRAY] + ([COMMA] + MembersText(rest)) == content + [CLOSE_ARRAY, COMMA] + MembersText(rest);
  }

  lemma InputText(items: Items)
    ensures MembersText(PlainMember(INPUT, Array([], items), NoMember)) == Ascii("\"input\":[") + (ItemsText(items) + [CLOSE_ARRAY])
  {
    hide MembersText, ItemsText;
    PlainMemberText(INPUT, Array([], items), NoMember);
    ArrayPieces();
    assert [] + (ItemsText(items) + [CLOSE_ARRAY]) == ItemsText(items) + [CLOSE_ARRAY];
    OpenedArray(INPUT, ItemsText(items), [CLOSE_ARRAY], []);
    assert ItemsText(items) + [CLOSE_ARRAY] + [] == ItemsText(items) + [CLOSE_ARRAY];
  }

  lemma FixedText(items: Items)
    ensures MembersText(FixedMembers(items)) == FIXED + (ItemsText(items) + [CLOSE_ARRAY])
  {
    hide MembersText, ItemsText;
    var input := PlainMember(INPUT, Array([], items), NoMember);
    var rest := PlainMember(INCLUDE, INCLUDED, input);
    InputText(items);
    IncludeText(input);
    StreamText(rest);
    StoreText(PlainMember(STREAM, Literal(TRUE_TEXT), rest));
    FivePieces(Ascii("\"store\":false,"), Ascii("\"stream\":true,"), Ascii("\"include\":["),
      Ascii("\"reasoning.encrypted_content\"],"), Ascii("\"input\":["), ItemsText(items) + [CLOSE_ARRAY]);
  }

  lemma FivePieces(a: Bytes, b: Bytes, c: Bytes, d: Bytes, e: Bytes, rest: Bytes)
    ensures a + (b + (c + (d + (e + rest)))) == (a + b + c + d + e) + rest
  {}

  function Append(m: Members, more: Members): Members {
    match m
    case NoMember => more
    case Member(_, _, _, _, _, _, rest) => m.(rest := Append(rest, more))
  }

  lemma {:induction false} AppendText(m: Members, more: Members, drop: Option<Key>)
    requires more.Member?
    ensures MembersText(Append(Kept(m, drop), more))
         == MembersText(Kept(m, drop)) + (Separator(Kept(m, drop).NoMember?) + MembersText(more))
    decreases m
  {
    hide MembersText;
    match m
    case NoMember =>
      NoMembersText(more);
    case Member(key, _, _, value, _, _, rest) =>
      AppendText(rest, more, drop);
      if !Dropped(key, drop) {
        var k := Kept(rest, drop);
        MemberThen(key, value, k);
        MemberThen(key, value, Append(k, more));
        NoMembersText(more);
        Spliced(Piece(key, value), MembersText(k), MembersText(more), k.NoMember?);
      }
  }

  lemma NoMembersText(more: Members)
    ensures MembersText(NoMember) == [] && [] + ([] + MembersText(more)) == MembersText(more)
  {}

  lemma MemberThen(key: seq<Char>, value: Doc, rest: Members)
    ensures MembersText(Member(key, [], [], value, [], [], rest))
      == Piece(key, value) + (if rest.NoMember? then [] else [COMMA] + MembersText(rest))
  {
    hide MembersText, DocText, StringText;
    MembersTextStep(Member(key, [], [], value, [], [], rest));
    Unspaced(StringText(key), DocText(value), MembersText(rest));
  }

  lemma Spliced(piece: Bytes, k: Bytes, more: Bytes, none: bool)
    ensures !none ==> piece + ([COMMA] + (k + ([COMMA] + more))) == (piece + ([COMMA] + k)) + ([COMMA] + more)
    ensures none && k == [] ==> piece + ([COMMA] + (k + ([] + more))) == (piece + []) + ([COMMA] + more)
  {}

  lemma {:induction false} AppendOk(m: Members, more: Members)
    requires OkMembers(m) && OkMembers(more)
    ensures OkMembers(Append(m, more))
  {
    if m.Member? {
      AppendOk(m.rest, more);
    }
  }

  lemma {:induction false} AppendValue(acc: map<Key, Value>, m: Members, more: Members)
    ensures DictInto(acc, Append(m, more)) == DictInto(DictInto(acc, m), more)
    decreases m
  {
    if m.Member? {
      AppendValue(acc[Units(m.key) := ValueOf(m.value)], m.rest, more);
    }
  }

  function ItemsOf(docs: seq<Doc>): Items {
    if docs == [] then NoItem else Item(docs[0], [], [], ItemsOf(docs[1..]))
  }

  lemma {:induction false} ItemsOfOk(docs: seq<Doc>)
    requires forall i :: 0 <= i < |docs| ==> OkDoc(docs[i])
    ensures OkItems(ItemsOf(docs))
  {
    if docs != [] {
      ItemsOfOk(docs[1..]);
    }
  }

  lemma {:induction false} ItemsOfText(docs: seq<Doc>, d: Doc)
    ensures ItemsText(ItemsOf(docs + [d])) == ItemsText(ItemsOf(docs)) + Separator(docs == []) + DocText(d)
  {
    hide ItemsText, DocText, ItemsOf;
    if docs == [] {
      ItemsStep(d, []);
      NoItemsText();
      assert [d] + [] == docs + [d];
      Trimmed(DocText(d));
    } else {
      var rest := docs[1..];
      assert docs == [docs[0]] + rest && docs + [d] == [docs[0]] + (rest + [d]);
      ItemsOfText(rest, d);
      ItemsStep(docs[0], rest);
      ItemsStep(docs[0], rest + [d]);
      NoItemsText();
      LastItem(DocText(docs[0]), ItemsText(ItemsOf(rest)), DocText(d), rest == []);
    }
  }

  lemma Trimmed(a: Bytes)
    ensures a + [] == a && [] + [] + a == a
  {}

  lemma LastItem(first: Bytes, middle: Bytes, last: Bytes, none: bool)
    requires none ==> middle == []
    ensures first + ([COMMA] + (middle + Separator(none) + last))
      == first + (if none then [] else [COMMA] + middle) + [COMMA] + last
  {}

  lemma ItemsStep(d: Doc, rest: seq<Doc>)
    ensures ItemsText(ItemsOf([d] + rest)) == DocText(d) + (if rest == [] then [] else [COMMA] + ItemsText(ItemsOf(rest)))
  {
    assert ([d] + rest)[1..] == rest;
    assert [] + ItemsText(ItemsOf(rest)) == ItemsText(ItemsOf(rest));
  }

  lemma {:induction false} ItemsOfValues(docs: seq<Doc>)
    ensures |ItemValues(ItemsOf(docs))| == |docs|
    ensures forall i :: 0 <= i < |docs| ==> ItemValues(ItemsOf(docs))[i] == ValueOf(docs[i])
  {
    if docs != [] {
      ItemsOfValues(docs[1..]);
    }
  }

  // ---------------------------------------------------------------- what the streamed text decodes to

  /** The value of one copied payload: its dictionary, without `created_by` for a provider's. */
  function EmissionValue(s: Store, e: Emission): Value
    requires ObjectOf(s, e.body).Some?
  {
    Dict(Without(DictInto(map[], ObjectOf(s, e.body).value), Target(DropOf(e.provider))))
  }

  function EmissionValues(s: Store, ems: seq<Emission>): (r: seq<Value>)
    requires AllCopyable(s, ems)
    ensures |r| == |ems| && forall i :: 0 <= i < |r| ==> r[i] == EmissionValue(s, ems[i])
  {
    seq(|ems|, i requires 0 <= i < |ems| => EmissionValue(s, ems[i]))
  }

  /** The value of a whole request: the settings, overridden by the fixed members and the input. */
  function Envelope(settings: map<Key, Value>, input: seq<Value>): Value {
    Dict(settings[STORE := Boolean(false)][STREAM := Boolean(true)]
      [INCLUDE := List([String(REASONING_CONTENT)])][INPUT := List(input)])
  }

  function DocsOf(s: Store, ems: seq<Emission>): (r: seq<Doc>)
    requires AllCopyable(s, ems)
    ensures |r| == |ems| && forall i :: 0 <= i < |r| ==> r[i] == Object([], EmissionMembers(s, ems[i]))
  {
    seq(|ems|, i requires 0 <= i < |ems| => Object([], EmissionMembers(s, ems[i])))
  }

  lemma ObjectOfOk(s: Store, body: nat)
    requires ObjectOf(s, body).Some?
    ensures OkMembers(ObjectOf(s, body).value)
    ensures Loads(s.payloads[body].body) == Some(Dict(DictInto(map[], ObjectOf(s, body).value)))
  {
    ParseSound(s.payloads[body].body);
  }

  lemma CopiedDoc(m: Members, drop: Option<Key>)
    ensures DocText(Object([], Kept(m, drop))) == CopiedText(m, drop, true)
  {
    var body := MembersText(Kept(m, drop)) + [CLOSE_OBJECT];
    assert [] + body == body;
  }

  lemma DocsOfLast(s: Store, ems: seq<Emission>)
    requires AllCopyable(s, ems) && ems != []
    ensures var n := |ems| - 1;
      DocsOf(s, ems) == DocsOf(s, ems[..n]) + [Object([], EmissionMembers(s, ems[n]))]
  {
    hide DocsOf, EmissionMembers, Copyable, ObjectOf;
  }

  lemma CopyIsDoc(s: Store, e: Emission)
    requires Copyable(s, e.body)
    ensures CopyOf(s, e) == DocText(Object([], EmissionMembers(s, e)))
  {
    CopiedDoc(ObjectOf(s, e.body).value, Target(DropOf(e.provider)));
  }

  lemma {:induction false} EmittedIsItems(s: Store, ems: seq<Emission>)
    requires AllCopyable(s, ems)
    ensures EmittedText(s, ems) == ItemsText(ItemsOf(DocsOf(s, ems)))
  {
    hide ItemsText, CopyOf, DocText, ItemsOf, EmissionMembers;
    if ems == [] {
      NoItemsText();
    } else {
      var n := |ems| - 1;
      EmittedIsItems(s, ems[..n]);
      var d := Object([], EmissionMembers(s, ems[n]));
      DocsOfLast(s, ems);
      ItemsOfText(DocsOf(s, ems[..n]), d);
      Regroup(EmittedText(s, ems[..n]), Separator(n == 0), DocText(d));
      CopyIsDoc(s, ems[n]);
    }
  }

  lemma NoItemsText()
    ensures ItemsText(ItemsOf([])) == []
  {}

  lemma PlainUnits(key: Bytes)
    requires Ascii7(key)
    ensures Units(PlainChars(key)) == key
  {}

  lemma PlainMemberValue(acc: map<Key, Value>, key: Bytes, value: Doc, rest: Members)
    requires Ascii7(key)
    ensures DictInto(acc, PlainMember(key, value, rest)) == DictInto(acc[key := ValueOf(value)], rest)
  {
    PlainUnits(key);
  }

  lemma FixedValue(acc: map<Key, Value>, items: Items)
    ensures Dict(DictInto(acc, FixedMembers(items))) == Envelope(acc, ItemValues(items))
  {
    var input := PlainMember(INPUT, Array([], items), NoMember);
    var rest := PlainMember(INCLUDE, INCLUDED, input);
    var a0 := acc[STORE := Boolean(false)];
    var a1 := a0[STREAM := Boolean(true)];
    var a2 := a1[INCLUDE := List([String(REASONING_CONTENT)])];
    LiteralValues();
    PlainUnits(REASONING_CONTENT);
    assert ItemValues(INCLUDED.items) == [String(REASONING_CONTENT)];
    PlainMemberValue(acc, STORE, Literal(FALSE_TEXT), PlainMember(STREAM, Literal(TRUE_TEXT), rest));
    PlainMemberValue(a0, STREAM, Literal(TRUE_TEXT), rest);
    PlainMemberValue(a1, INCLUDE, INCLUDED, input);
    PlainMemberValue(a2, INPUT, Array([], items), NoMember);
  }

  lemma LiteralValues()
    ensures LiteralValue(FALSE_TEXT) == Boolean(false) && LiteralValue(TRUE_TEXT) == Boolean(true)
  {
    assert |NULL_TEXT| == |TRUE_TEXT| == 4 && |FALSE_TEXT| == 5;
    assert TRUE_TEXT[0] == 116 && NULL_TEXT[0] == 110;
  }

  function RequestDoc(settings: Members, items: Items): Doc {
    Object([], Append(Kept(settings, None), FixedMembers(items)))
  }

  lemma RequestDocText(settings: Members, items: Items)
    ensures DocText(RequestDoc(settings, items)) == Head(Kept(settings, None)) + ItemsText(items) + ENDING
  {
    hide MembersText, ItemsText, FIXED;
    var k := Kept(settings, None);
    AppendText(settings, FixedMembers(items), None);
    FixedText(items);
    Enclosed(MembersText(k), Separator(k.NoMember?), FIXED, ItemsText(items));
  }

  lemma Enclosed(k: Bytes, separator: Bytes, fixed: Bytes, items: Bytes)
    ensures [OPEN_OBJECT] + ([] + (k + (separator + (fixed + (items + [CLOSE_ARRAY]))) + [CLOSE_OBJECT]))
         == [OPEN_OBJECT] + k + separator + fixed + items + ENDING
  {}

  lemma PlainMemberOk(key: Bytes, value: Doc, rest: Members)
    requires forall i :: 0 <= i < |key| ==> 48 <= key[i] && key[i] != BACKSLASH
    requires OkDoc(value) && OkMembers(rest)
    ensures OkMembers(PlainMember(key, value, rest))
  {}

  lemma FixedOk(items: Items)
    requires OkItems(items)
    ensures OkMembers(FixedMembers(items))
  {
    var input := PlainMember(INPUT, Array([], items), NoMember);
    var rest := PlainMember(INCLUDE, INCLUDED, input);
    PlainMemberOk(INPUT, Array([], items), NoMember);
    assert OkDoc(Text(PlainChars(REASONING_CONTENT)));
    PlainMemberOk(INCLUDE, INCLUDED, input);
    PlainMemberOk(STREAM, Literal(TRUE_TEXT), rest);
    PlainMemberOk(STORE, Literal(FALSE_TEXT), PlainMember(STREAM, Literal(TRUE_TEXT), rest));
  }

  /** The copied payloads are well-formed documents, with the payloads' values. */
  lemma DocsOk(s: Store, ems: seq<Emission>)
    requires AllCopyable(s, ems)
    ensures OkItems(ItemsOf(DocsOf(s, ems)))
    ensures ItemValues(ItemsOf(DocsOf(s, ems))) == EmissionValues(s, ems)
  {
    var docs := DocsOf(s, ems);
    forall i | 0 <= i < |docs| ensures OkDoc(docs[i]) && ValueOf(docs[i]) == EmissionValue(s, ems[i]) {
      var m, drop := ObjectOf(s, ems[i].body).value, Target(DropOf(ems[i].provider));
      ObjectOfOk(s, ems[i].body);
      KeptOk(m, drop);
      KeptValue(m, drop);
    }
    ItemsOfOk(docs);
    ItemsOfValues(docs);
  }

  lemma RequestDocOk(settings: Members, items: Items)
    requires OkMembers(settings) && OkItems(items)
    ensures OkDoc(RequestDoc(settings, items))
    ensures ValueOf(RequestDoc(settings, items)) == Envelope(DictInto(map[], settings), ItemValues(items))
  {
    FixedOk(items);
    KeptOk(settings, None);
    AppendOk(Kept(settings, None), FixedMembers(items));
    AppendValue(map[], Kept(settings, None), FixedMembers(items));
    KeptValue(settings, None);
    FixedValue(DictInto(map[], settings), items);
  }

  /** The streamed bytes are one JSON text, and this is its value. */
  lemma RequestTextLoads(s: Store, plan: Plan)
    requires OkMembers(plan.settings) && AllCopyable(s, plan.ems)
    ensures Loads(RequestText(s, plan)) == Some(Envelope(DictInto(map[], plan.settings), EmissionValues(s, plan.ems)))
  {
    hide AllCopyable, OkMembers, OkDoc, DocText, ItemsText, EmittedText, Head, ValueOf, RequestDoc, ItemsOf;
    var items := ItemsOf(DocsOf(s, plan.ems));
    var doc := RequestDoc(plan.settings, items);
    DocsOk(s, plan.ems);
    RequestDocOk(plan.settings, items);
    EmittedIsItems(s, plan.ems);
    RequestDocText(plan.settings, items);
    var text := RequestText(s, plan);
    assert text == [] + text + [];
    LoadsSpelled([], doc, [], text);
  }
}
