/**
 * The bounded lexical copier of streaming.py: a chunked `Source`, a buffered `Sink`
 * with mark and rewind under an allowance, and the copying of strings, values and objects.
 */
module JsonCopy {
  import opened Bytes
  import opened Json
  import opened JsonValue

  const FLUSH_SIZE := 4096

  /** The bytes still to come from an iterator over chunks. */
  function Flat(chunks: seq<Bytes>): Bytes {
    if chunks == [] then [] else chunks[0] + Flat(chunks[1..])
  }

  /**
   * A payload read chunk by chunk. `intact` is what the payload's digest says when
   * the reader is exhausted: reading past the last chunk fails if it does not match.
   */
  class Source {
    var pending: seq<Bytes>
    var chunk: Bytes
    var index: nat
    const intact: bool

    ghost predicate Valid()
      reads this
    {
      index <= |chunk| && forall i :: 0 <= i < |pending| ==> pending[i] != []
    }

    ghost function Rest(): Bytes
      reads this
      requires Valid()
    {
      chunk[index..] + Flat(pending)
    }

    constructor (chunks: seq<Bytes>, intact: bool)
      requires forall i :: 0 <= i < |chunks| ==> chunks[i] != []
      ensures Valid() && Rest() == Flat(chunks) && this.intact == intact
    {
      pending, chunk, index, this.intact := chunks, [], 0, intact;
    }

    /** The next byte without consuming it; at the end, `None`, or a failure if the digest differs. */
    method Peek() returns (r: Result<Option<byte>>)
      requires Valid()
      modifies this
      ensures Valid() && Rest() == old(Rest())
      ensures Rest() != [] ==> r == Ok(Some(Rest()[0]))
      ensures Rest() == [] ==> r == if intact then Ok(None) else Err(Unavailable)
      ensures Rest() != [] ==> index < |chunk|
    {
      while index == |chunk|
        invariant Valid() && Rest() == old(Rest())
        decreases |pending|, |chunk| - index
      {
        if pending == [] {
          return if intact then Ok(None) else Err(Unavailable);
        }
        chunk, pending, index := pending[0], pending[1..], 0;
      }
      r := Ok(Some(chunk[index]));
    }

    method Take() returns (r: Result<byte>)
      requires Valid()
      modifies this
      ensures Valid()
      ensures old(Rest()) != [] ==> r == Ok(old(Rest())[0]) && Rest() == old(Rest())[1..]
      ensures old(Rest()) == [] ==> r == Err(Unavailable) && Rest() == []
    {
      var peeked := Peek();
      if peeked.Err? || peeked.value.None? {
        return Err(Unavailable);
      }
      index := index + 1;
      r := Ok(peeked.value.value);
    }

    /** Takes a byte where the document says there is one. */
    method Next() returns (b: byte)
      requires Valid() && Rest() != []
      modifies this
      ensures Valid() && b == old(Rest())[0] && Rest() == old(Rest())[1..]
    {
      var taken := Take();
      b := taken.value;
    }

    /** Skips whitespace. It fails only if it runs off the end of a payload whose digest differs. */
    method Space() returns (r: Result<()>)
      requires Valid()
      modifies this
      ensures Valid()
      ensures Rest() == SkipSpace(old(Rest())).1
      ensures r == if Rest() == [] && !intact then Err(Unavailable) else Ok(())
    {
      while true
        invariant Valid() && SkipSpace(Rest()).1 == SkipSpace(old(Rest())).1
        decreases |Rest()|
      {
        var peeked := Peek();
        if peeked.Err? {
          return Err(peeked.error);
        }
        if peeked.value.None? || !IsSpace(peeked.value.value) {
          return Ok(());
        }
        var _ := Take();
      }
    }

    /** Requires the next token to be `b`. */
    method Expect(b: byte) returns (r: Result<()>)
      requires Valid()
      modifies this
      ensures Valid()
      ensures var tail := SkipSpace(old(Rest())).1;
        && Rest() == (if tail == [] then [] else tail[1..])
        && r == if tail != [] && tail[0] == b then Ok(()) else Err(Unavailable)
    {
      var spaced := Space();
      if spaced.Err? {
        return spaced;
      }
      var found := Take();
      r := if found == Ok(b) then Ok(()) else Err(Unavailable);
    }

    /** Accepts only trailing whitespace, and verifies the digest. */
    method Finish() returns (r: Result<()>)
      requires Valid()
      modifies this
      ensures Valid()
      ensures r == if SkipSpace(old(Rest())).1 == [] && intact then Ok(()) else Err(Unavailable)
    {
      var spaced := Space();
      if spaced.Err? {
        return spaced;
      }
      var peeked := Peek();
      r := if peeked == Ok(None) then Ok(()) else Err(Unavailable);
    }
  }

  /** A scratch file behind a buffer; the file and the buffer together stay within the allowance. */
  class Sink {
    var file: Bytes
    var position: nat
    var buffer: Bytes
    const allowance: nat

    ghost predicate Valid()
      reads this
      ensures Valid() ==> |Contents()| <= allowance
    {
      position == |file| && |buffer| < FLUSH_SIZE && |file| + |buffer| <= allowance
    }

    ghost function Contents(): Bytes
      reads this
    {
      file + buffer
    }

    constructor (allowance: nat)
      ensures Valid() && Contents() == [] && this.allowance == allowance
    {
      file, position, buffer, this.allowance := [], 0, [], allowance;
    }

    method Write(data: Bytes) returns (ok: bool)
      requires Valid()
      modifies this
      ensures Valid() && old(file) <= file
      ensures ok <==> |old(Contents())| + |data| <= allowance
      ensures Contents() == if ok then old(Contents()) + data else old(Contents())
    {
      if position + |buffer| + |data| > allowance {
        return false;
      }
      buffer := buffer + data;
      if |buffer| >= FLUSH_SIZE {
        Flush();
      }
      ok := true;
    }

    method Flush()
      requires position == |file| && |file| + |buffer| <= allowance
      modifies this
      ensures Valid() && buffer == [] && file == old(Contents()) == Contents()
    {
      if buffer != [] {
        file := file[..position] + buffer;
        position := position + |buffer|;
        buffer := [];
      }
    }

    method Mark() returns (mark: nat)
      requires Valid()
      modifies this
      ensures Valid() && Contents() == old(Contents()) == file && mark == |file|
    {
      Flush();
      mark := position;
    }

    /** Restores exactly what the file held when it was `mark` bytes long. */
    method Rewind(mark: nat)
      requires Valid() && mark <= |file|
      modifies this
      ensures Valid() && Contents() == file == old(file)[..mark]
    {
      buffer := [];
      position := mark;
      file := file[..position];
    }
  }

  /** The decoded value of one spelled character, as the copier compares it: a raw byte stands for itself. */
  function Decoded(c: Char): int {
    match c
    case Plain(b) => b
    case _ => CharUnit(c)
  }

  /** Copies what follows the backslash of an escape, and decodes it. */
  method CopyEscape(source: Source, sink: Sink, ghost c: Char, ghost tail: Bytes) returns (r: Result<int>)
    requires source.Valid() && sink.Valid()
    requires OkChar(c) && !c.Plain? && source.Rest() == CharText(c)[1..] + tail
    modifies source, sink
    ensures source.Valid() && sink.Valid() && old(sink.file) <= sink.file
    ensures r.Ok? <==> |old(sink.Contents())| + |CharText(c)| - 1 <= sink.allowance
    ensures r.Ok? ==> r.value == Decoded(c) && source.Rest() == tail
    ensures r.Ok? ==> sink.Contents() == old(sink.Contents()) + CharText(c)[1..]
    ensures r.Err? ==> r.error == ResourceExceeded
  {
    hide Source.Valid, Source.Rest, Sink.Valid, Sink.Contents;
    ghost var text := CharText(c)[1..] + tail;
    var e := source.Next();
    var ok := sink.Write([e]);
    if !ok {
      return Err(ResourceExceeded);
    }
    if e == 117 {
      assert c.Hex? && text == [117, c.h0, c.h1, c.h2, c.h3] + tail;
      var h0 := source.Next();
      var h1 := source.Next();
      var h2 := source.Next();
      var h3 := source.Next();
      assert c == Hex(h0, h1, h2, h3);
      ok := sink.Write([h0, h1, h2, h3]);
      if !ok {
        return Err(ResourceExceeded);
      }
      r := Ok(CharUnit(Hex(h0, h1, h2, h3)));
    } else {
      assert c.Escape? && text == [c.e] + tail;
      r := Ok(CharUnit(Escape(e)));
    }
  }

  function UnitText(c: Option<Char>): Bytes {
    match c
    case None => [QUOTE]
    case Some(spelled) => CharText(spelled)
  }

  /** Copies one character of a string and decodes it, or copies the closing quote. */
  method CopyUnit(source: Source, sink: Sink, ghost c: Option<Char>, ghost tail: Bytes) returns (r: Result<Option<int>>)
    requires source.Valid() && sink.Valid()
    requires c.Some? ==> OkChar(c.value)
    requires source.Rest() == UnitText(c) + tail
    modifies source, sink
    ensures source.Valid() && sink.Valid() && old(sink.file) <= sink.file
    ensures r.Ok? <==> |old(sink.Contents())| + |UnitText(c)| <= sink.allowance
    ensures r.Ok? ==> r.value == (if c.None? then None else Some(Decoded(c.value)))
    ensures r.Ok? ==> source.Rest() == tail && sink.Contents() == old(sink.Contents()) + UnitText(c)
    ensures r.Err? ==> r.error == ResourceExceeded
  {
    hide Source.Valid, Source.Rest, Sink.Valid, Sink.Contents;
    ghost var text := UnitText(c);
    assert text == [text[0]] + text[1..];
    assert (text + tail)[1..] == text[1..] + tail;
    var b := source.Next();
    var ok := sink.Write([b]);
    if !ok {
      return Err(ResourceExceeded);
    }
    if b == QUOTE {
      return Ok(None);
    }
    if b != BACKSLASH {
      return Ok(Some(b));
    }
    var unit := CopyEscape(source, sink, c.value, tail);
    r := if unit.Ok? then Ok(Some(unit.value)) else Err(ResourceExceeded);
  }

  /** Whether the first `i` characters spell a prefix of the target. */
  ghost predicate Matches(chars: seq<Char>, i: nat, target: Bytes)
    requires i <= |chars|
  {
    i <= |target| && forall k :: 0 <= k < i ==> CharUnit(chars[k]) == target[k]
  }

  ghost predicate Ascii7(target: Bytes) {
    forall k :: 0 <= k < |target| ==> target[k] < 128
  }

  /** What the copier knows of the target after `i` characters. */
  ghost predicate Tracks(matching: bool, prefix: Bytes, chars: seq<Char>, i: nat, target: Option<Bytes>)
    requires i <= |chars|
  {
    && (matching ==> target.Some? && |prefix| == i && prefix <= target.value)
    && (target.Some? ==> (matching <==> Matches(chars, i, target.value)))
  }

  /** Compares one decoded unit with the next byte of the target, holding only a prefix of it. */
  method MatchUnit(matching: bool, prefix: Bytes, target: Option<Bytes>, decoded: int, ghost chars: seq<Char>, ghost i: nat)
      returns (matching': bool, prefix': Bytes)
    requires i < |chars| && decoded == Decoded(chars[i])
    requires target.Some? ==> Ascii7(target.value)
    requires Tracks(matching, prefix, chars, i, target)
    ensures Tracks(matching', prefix', chars, i + 1, target)
  {
    matching', prefix' := matching, prefix;
    if matching {
      if |prefix| >= |target.value| || decoded != target.value[|prefix|] {
        matching' := false;
      } else {
        prefix' := prefix + [decoded];
      }
    }
  }

  function UnitAt(chars: seq<Char>, i: nat): Option<Char> {
    if i < |chars| then Some(chars[i]) else None
  }

  /** The text from character `i` on, through the closing quote. */
  function TextFrom(chars: seq<Char>, i: nat): (t: Bytes)
    requires i <= |chars|
    ensures t != []
  {
    CharsText(chars[i..]) + [QUOTE]
  }

  lemma TextFromStep(chars: seq<Char>, i: nat)
    requires i <= |chars|
    ensures TextFrom(chars, i) == UnitText(UnitAt(chars, i)) + (if i < |chars| then TextFrom(chars, i + 1) else [])
  {
    if i < |chars| {
      assert chars[i..][1..] == chars[i+1..];
    }
  }

  /**
   * Copies one string verbatim, spelling and all. The result says whether its decoded
   * text is `target`, however it is spelled; only a prefix no longer than `target` is held.
   */
  method CopyString(source: Source, sink: Sink, target: Option<Bytes>, ghost chars: seq<Char>, ghost rest: Bytes)
      returns (r: Result<bool>)
    requires source.Valid() && sink.Valid()
    requires OkChars(chars) && source.Rest() == StringText(chars) + rest
    requires target.Some? ==> Ascii7(target.value)
    modifies source, sink
    ensures source.Valid() && sink.Valid() && old(sink.file) <= sink.file
    ensures r.Ok? <==> |old(sink.Contents())| + |StringText(chars)| <= sink.allowance
    ensures r.Ok? ==> source.Rest() == rest && sink.Contents() == old(sink.Contents()) + StringText(chars)
    ensures r.Ok? ==> (r.value <==> target.Some? && Units(chars) == target.value)
    ensures r.Err? ==> r.error == ResourceExceeded
  {
    hide Source.Valid, Source.Rest, Sink.Valid, Sink.Contents, StringText, TextFrom, UnitText, Tracks, SkipSpace;
    StringStart(chars, rest);
    Regroup(sink.Contents(), [QUOTE], TextFrom(chars, 0));
    SkipSpaceExact([], StringText(chars) + rest);
    assert [] + (StringText(chars) + rest) == StringText(chars) + rest;
    var _ := source.Expect(QUOTE);
    var ok := sink.Write([QUOTE]);
    if !ok {
      return Err(ResourceExceeded);
    }
    var prefix: Bytes := [];
    var matching := target.Some?;
    TracksNothing(chars, target);
    ghost var i := 0;
    while true
      invariant source.Valid() && sink.Valid() && old(sink.file) <= sink.file
      invariant 0 <= i <= |chars|
      invariant source.Rest() == TextFrom(chars, i) + rest
      invariant sink.Contents() + TextFrom(chars, i) == old(sink.Contents()) + StringText(chars)
      invariant Tracks(matching, prefix, chars, i, target)
      decreases |chars| - i
    {
      TextFromStep(chars, i);
      ghost var tail := if i < |chars| then TextFrom(chars, i + 1) + rest else rest;
      Regroup(UnitText(UnitAt(chars, i)), if i < |chars| then TextFrom(chars, i + 1) else [], rest);
      assert [] + rest == rest;
      Regroup(sink.Contents(), UnitText(UnitAt(chars, i)), if i < |chars| then TextFrom(chars, i + 1) else []);
      var unit := CopyUnit(source, sink, UnitAt(chars, i), tail);
      if unit.Err? {
        return Err(ResourceExceeded);
      }
      if unit.value.None? {
        break;
      }
      matching, prefix := MatchUnit(matching, prefix, target, unit.value.value, chars, i);
      i := i + 1;
    }
    TracksAll(matching, prefix, chars, target);
    r := Ok(matching && prefix == target.value);
  }

  lemma StringStart(chars: seq<Char>, rest: Bytes)
    ensures StringText(chars) == [QUOTE] + TextFrom(chars, 0)
    ensures (StringText(chars) + rest)[0] == QUOTE && (StringText(chars) + rest)[1..] == TextFrom(chars, 0) + rest
  {
    assert chars[0..] == chars;
  }

  lemma TracksNothing(chars: seq<Char>, target: Option<Bytes>)
    ensures Tracks(target.Some?, [], chars, 0, target)
  {}

  lemma TracksAll(matching: bool, prefix: Bytes, chars: seq<Char>, target: Option<Bytes>)
    requires Tracks(matching, prefix, chars, |chars|, target) && (target.Some? ==> Ascii7(target.value))
    ensures matching ==> target.Some?
    ensures matching && prefix == target.value <==> target.Some? && Units(chars) == target.value
  {
    if target.Some? && Units(chars) == target.value {
      assert Matches(chars, |chars|, target.value);
    }
    if matching && prefix == target.value {
      assert Units(chars) == target.value;
    }
  }

  // ---------------------------------------------------------------- values

  function DepthAfter(b: byte, depth: int): int {
    if b == OPEN_ARRAY || b == OPEN_OBJECT then depth + 1
    else if b == CLOSE_ARRAY || b == CLOSE_OBJECT then depth - 1
    else depth
  }

  /** What is left when bracket counting, which steps over strings, first comes back to zero. */
  function ScanRest(s: Bytes, depth: nat): (r: Option<Bytes>)
    ensures r.Some? ==> |r.value| <= |s|
    decreases |s|
  {
    if s == [] then None
    else if s[0] == QUOTE then
      match ParseChars(s[1..])
      case None => None
      case Some((_, tail)) => ScanRest(tail, depth)
    else
      var next := DepthAfter(s[0], depth);
      if next == 0 then Some(s[1..]) else if next < 0 then None else ScanRest(s[1..], next)
  }

  ghost predicate IsPlain(w: Bytes) {
    forall i :: 0 <= i < |w| ==> w[i] != QUOTE && DepthAfter(w[i], 0) == 0
  }

  lemma {:induction false} ScanPlain(w: Bytes, rest: Bytes, depth: nat)
    requires IsPlain(w) && depth > 0
    ensures ScanRest(w + rest, depth) == ScanRest(rest, depth)
  {
    if w == [] {
      assert w + rest == rest;
    } else {
      assert (w + rest)[1..] == w[1..] + rest;
      ScanPlain(w[1..], rest, depth);
    }
  }

  lemma {:induction false} NumberPlain(q: NumberState, s: Bytes)
    requires NumberRun(q, s) != Bad
    ensures IsPlain(s)
    decreases |s|
  {
    if s != [] {
      if NumberStep(q, s[0]) == Bad {
        BadStays(s[1..]);
      }
      NumberPlain(NumberStep(q, s[0]), s[1..]);
      HeadTail(s);
    }
  }

  lemma LiteralPlain(s: Bytes)
    requires IsLiteral(s)
    ensures IsPlain(s)
  {
    if IsNumber(s) {
      NumberPlain(Start, s);
    } else {
      assert IsPlain(NULL_TEXT) && IsPlain(TRUE_TEXT) && IsPlain(FALSE_TEXT);
    }
  }

  lemma ScanOpen(b: byte, w: Bytes, rest: Bytes, depth: nat)
    requires (b == OPEN_ARRAY || b == OPEN_OBJECT) && AllSpace(w)
    ensures ScanRest([b] + (w + rest), depth) == ScanRest(rest, depth + 1)
  {
    assert ([b] + (w + rest))[1..] == w + rest;
    ScanPlain(w, rest, depth + 1);
  }

  lemma ScanClose(b: byte, rest: Bytes, depth: nat)
    requires (b == CLOSE_ARRAY || b == CLOSE_OBJECT) && depth > 0
    ensures ScanRest([b] + rest, depth) == if depth == 1 then Some(rest) else ScanRest(rest, depth - 1)
  {
    assert ([b] + rest)[1..] == rest;
  }

  lemma ScanString(cs: seq<Char>, rest: Bytes, depth: nat)
    requires OkChars(cs)
    ensures ScanRest(StringText(cs) + rest, depth) == ScanRest(rest, depth)
  {
    assert (StringText(cs) + rest)[1..] == CharsText(cs) + [QUOTE] + rest;
    ParseCharsExact(cs, rest);
  }

  /** Inside a bracket, a whole well-formed value leaves the depth where it was. */
  lemma {:induction false} ScanDoc(d: Doc, rest: Bytes, depth: nat)
    requires OkDoc(d) && depth > 0
    ensures ScanRest(DocText(d) + rest, depth) == ScanRest(rest, depth)
    decreases d, 1
  {
    match d
    case Literal(lexeme) =>
      LiteralPlain(lexeme);
      ScanPlain(lexeme, rest, depth);
    case Text(chars) =>
      ScanString(chars, rest, depth);
    case _ =>
      ScanContainer(d, rest, depth);
  }

  /** A well-formed array or object is exactly what bracket counting consumes. */
  lemma {:induction false} ScanContainer(d: Doc, rest: Bytes, depth: nat)
    requires OkDoc(d) && (d.Array? || d.Object?)
    ensures ScanRest(DocText(d) + rest, depth) == if depth == 0 then Some(rest) else ScanRest(rest, depth)
    decreases d, 0
  {
    if d.Array? {
      var tail := [CLOSE_ARRAY] + rest;
      ScanItems(d.items, tail, depth + 1);
      ScanBody(OPEN_ARRAY, d.open, ItemsText(d.items), CLOSE_ARRAY, rest, depth);
    } else {
      var tail := [CLOSE_OBJECT] + rest;
      ScanMembers(d.members, tail, depth + 1);
      ScanBody(OPEN_OBJECT, d.open, MembersText(d.members), CLOSE_OBJECT, rest, depth);
    }
  }

  lemma ScanBody(left: byte, open: Bytes, body: Bytes, right: byte, rest: Bytes, depth: nat)
    requires left == OPEN_ARRAY || left == OPEN_OBJECT
    requires right == CLOSE_ARRAY || right == CLOSE_OBJECT
    requires AllSpace(open)
    requires ScanRest(body + ([right] + rest), depth + 1) == ScanRest([right] + rest, depth + 1)
    ensures ScanRest([left] + (open + (body + [right])) + rest, depth)
         == if depth == 0 then Some(rest) else ScanRest(rest, depth)
  {
    Wrapped(left, open, body, right, rest);
    ScanOpen(left, open, body + ([right] + rest), depth);
    ScanClose(right, rest, depth + 1);
  }

  lemma {:induction false} ScanItems(l: Items, rest: Bytes, depth: nat)
    requires OkItems(l) && depth > 0
    ensures ScanRest(ItemsText(l) + rest, depth) == ScanRest(rest, depth)
    decreases l, 0
  {
    hide ScanRest, IsPlain, DocText, AllSpace;
    match l
    case NoItem =>
      assert ItemsText(l) + rest == rest;
    case Item(value, after, gap, more) =>
      var tail := if more.NoItem? then rest else [COMMA] + (gap + (ItemsText(more) + rest));
      ItemsTail(l, rest);
      ScanDoc(value, after + tail, depth);
      ScanSpace(after, tail, depth);
      if more.Item? {
        ScanComma(gap + (ItemsText(more) + rest), depth);
        ScanSpace(gap, ItemsText(more) + rest, depth);
        ScanItems(more, rest, depth);
      }
  }

  lemma ItemsTail(l: Items, rest: Bytes)
    requires l.Item?
    ensures ItemsText(l) + rest == DocText(l.value) + (l.after +
      (if l.rest.NoItem? then rest else [COMMA] + (l.gap + (ItemsText(l.rest) + rest))))
  {
    hide DocText;
    if l.rest.NoItem? {
      Regroup(DocText(l.value), l.after, rest);
      assert l.after + [] == l.after;
    } else {
      Chain2(DocText(l.value), l.after, COMMA, l.gap, ItemsText(l.rest), rest);
    }
  }

  lemma ScanComma(rest: Bytes, depth: nat)
    requires depth > 0
    ensures ScanRest([COMMA] + rest, depth) == ScanRest(rest, depth)
  {
    hide ScanRest;
    ScanPlain([COMMA], rest, depth);
  }

  lemma {:induction false} ScanMembers(m: Members, rest: Bytes, depth: nat)
    requires OkMembers(m) && depth > 0
    ensures ScanRest(MembersText(m) + rest, depth) == ScanRest(rest, depth)
    decreases m, 1
  {
    match m
    case NoMember =>
      assert MembersText(m) + rest == rest;
    case Member(key, before, between, value, after, gap, more) =>
      if more.NoMember? {
        LastMemberText(m, rest);
        ScanPair(m, rest, depth);
      } else {
        MoreMembersText(m, rest);
        ScanPair(m, [COMMA] + (gap + (MembersText(more) + rest)), depth);
        ScanComma(gap + (MembersText(more) + rest), depth);
        ScanSpace(gap, MembersText(more) + rest, depth);
        ScanMembers(more, rest, depth);
      }
  }

  lemma {:induction false} ScanPair(m: Members, rest: Bytes, depth: nat)
    requires OkMembers(m) && m.Member? && depth > 0
    ensures ScanRest(PairText(m) + rest, depth) == ScanRest(rest, depth)
    decreases m, 0
  {
    hide ScanRest, IsPlain, AllSpace, DocText, CharsText, StringText;
    var t3 := m.after + rest;
    var t2 := DocText(m.value) + t3;
    var t1 := m.between + t2;
    var t0 := m.before + ([COLON] + t1);
    PairPrefix(m, rest);
    ScanString(m.key, t0, depth);
    ScanSpace(m.before, [COLON] + t1, depth);
    ScanColon(t1, depth);
    ScanSpace(m.between, t2, depth);
    ScanDoc(m.value, t3, depth);
    ScanSpace(m.after, rest, depth);
  }

  lemma ScanSpace(w: Bytes, rest: Bytes, depth: nat)
    requires AllSpace(w) && depth > 0
    ensures ScanRest(w + rest, depth) == ScanRest(rest, depth)
  {
    hide ScanRest;
    ScanPlain(w, rest, depth);
  }

  lemma ScanColon(rest: Bytes, depth: nat)
    requires depth > 0
    ensures ScanRest([COLON] + rest, depth) == ScanRest(rest, depth)
  {
    hide ScanRest;
    ScanPlain([COLON], rest, depth);
  }

  lemma CancelRight(a: Bytes, b: Bytes, rest: Bytes)
    requires a + rest == b + rest
    ensures a == b
  {
    assert |a| == |b|;
    forall i | 0 <= i < |a| ensures a[i] == b[i] {
      assert a[i] == (a + rest)[i] == (b + rest)[i];
    }
  }

  /** What the copier requires of a value: it is well formed and its end can be seen. */
  ghost predicate Delimited(d: Doc, rest: Bytes) {
    OkDoc(d) && rest != [] && EndsLiteral(rest[0])
  }

  /** Copies an array or object by counting brackets, strings copied whole. */
  method CopyContainer(source: Source, sink: Sink, ghost d: Doc, ghost rest: Bytes) returns (r: Result<()>)
    requires source.Valid() && sink.Valid()
    requires OkDoc(d) && (d.Array? || d.Object?) && source.Rest() == DocText(d) + rest
    modifies source, sink
    ensures source.Valid() && sink.Valid() && old(sink.file) <= sink.file
    ensures r.Ok? <==> |old(sink.Contents())| + |DocText(d)| <= sink.allowance
    ensures r.Ok? ==> source.Rest() == rest && sink.Contents() == old(sink.Contents()) + DocText(d)
    ensures r.Err? ==> r.error == ResourceExceeded
  {
    hide Source.Valid, Source.Rest, Sink.Valid, Sink.Contents;
    var depth := 0;
    ghost var start := sink.Contents();
    ScanContainer(d, rest, 0);
    DocFirst(d);
    while true
      invariant source.Valid() && sink.Valid() && old(sink.file) <= sink.file
      invariant depth >= 0 && ScanRest(source.Rest(), depth) == Some(rest)
      invariant depth == 0 ==> source.Rest()[0] != QUOTE
      invariant sink.Contents() + source.Rest() == start + DocText(d) + rest
      decreases |source.Rest()|
    {
      ghost var before, held := source.Rest(), sink.Contents();
      var peeked := source.Peek();
      if peeked.value == Some(QUOTE) {
        ghost var (chars, tail) := ParseChars(before[1..]).value;
        assert before == StringText(chars) + tail by {
          HeadTail(before);
          Regroup([QUOTE], CharsText(chars) + [QUOTE], tail);
        }
        Regroup(held, StringText(chars), tail);
        var copied := CopyString(source, sink, None, chars, tail);
        if copied.Err? {
          return Err(ResourceExceeded);
        }
        continue;
      }
      var b := source.Next();
      HeadTail(before);
      Regroup(held, [b], before[1..]);
      var ok := sink.Write([b]);
      if !ok {
        return Err(ResourceExceeded);
      }
      depth := DepthAfter(b, depth);
      if depth == 0 {
        CancelRight(sink.Contents(), start + DocText(d), rest);
        return Ok(());
      }
    }
  }

  /** Copies one value verbatim, whatever whitespace comes before it. */
  method CopyValue(source: Source, sink: Sink, ghost space: Bytes, ghost d: Doc, ghost rest: Bytes) returns (r: Result<()>)
    requires source.Valid() && sink.Valid()
    requires AllSpace(space) && Delimited(d, rest) && source.Rest() == space + (DocText(d) + rest)
    modifies source, sink
    ensures source.Valid() && sink.Valid() && old(sink.file) <= sink.file
    ensures r.Ok? <==> |old(sink.Contents())| + |DocText(d)| <= sink.allowance
    ensures r.Ok? ==> source.Rest() == rest && sink.Contents() == old(sink.Contents()) + DocText(d)
    ensures r.Err? ==> r.error == ResourceExceeded
  {
    hide Source.Valid, Source.Rest, Sink.Valid, Sink.Contents;
    DocFirst(d);
    SkipSpaceExact(space, DocText(d) + rest);
    var _ := source.Space();
    var first := source.Peek();
    if first.value == Some(QUOTE) {
      var copied := CopyString(source, sink, None, d.chars, rest);
      return if copied.Ok? then Ok(()) else Err(ResourceExceeded);
    }
    if first.value == Some(OPEN_ARRAY) || first.value == Some(OPEN_OBJECT) {
      r := CopyContainer(source, sink, d, rest);
      return;
    }
    r := CopyLiteral(source, sink, d.lexeme, rest);
  }

  method CopyLiteral(source: Source, sink: Sink, ghost lexeme: Bytes, ghost rest: Bytes) returns (r: Result<()>)
    requires source.Valid() && sink.Valid()
    requires (forall i :: 0 <= i < |lexeme| ==> !EndsLiteral(lexeme[i])) && rest != [] && EndsLiteral(rest[0])
    requires source.Rest() == lexeme + rest
    modifies source, sink
    ensures source.Valid() && sink.Valid() && old(sink.file) <= sink.file
    ensures r.Ok? <==> lexeme != [] && |old(sink.Contents())| + |lexeme| <= sink.allowance
    ensures r.Ok? ==> source.Rest() == rest && sink.Contents() == old(sink.Contents()) + lexeme
    ensures r.Err? ==> r.error == if lexeme == [] then Unavailable else ResourceExceeded
  {
    hide Source.Valid, Source.Rest, Sink.Valid, Sink.Contents;
    var copied := false;
    ghost var i := 0;
    while true
      invariant source.Valid() && sink.Valid() && old(sink.file) <= sink.file
      invariant 0 <= i <= |lexeme| && (copied <==> i > 0)
      invariant source.Rest() == lexeme[i..] + rest
      invariant sink.Contents() == old(sink.Contents()) + lexeme[..i]
      decreases |lexeme| - i
    {
      var peeked := source.Peek();
      if peeked.value.None? || EndsLiteral(peeked.value.value) {
        break;
      }
      var b := source.Next();
      var ok := sink.Write([b]);
      if !ok {
        return Err(ResourceExceeded);
      }
      assert lexeme[..i+1] == lexeme[..i] + [b];
      copied := true;
      i := i + 1;
    }
    assert lexeme[..|lexeme|] == lexeme;
    r := if copied then Ok(()) else Err(Unavailable);
  }

  // ---------------------------------------------------------------- objects

  /** What one copied member adds, without a separator. */
  function Piece(key: seq<Char>, value: Doc): Bytes {
    StringText(key) + ([COLON] + DocText(value))
  }

  function Separator(first: bool): Bytes {
    if first then [] else [COMMA]
  }

  /** The kept members still to come, with the comma they need after what is already out. */
  function Tail(first: bool, kept: Members): Bytes {
    if kept.NoMember? then [] else Separator(first) + MembersText(kept)
  }

  lemma TailStep(first: bool, key: seq<Char>, value: Doc, rest: Members)
    ensures Tail(first, Member(key, [], [], value, [], [], rest)) == (Separator(first) + Piece(key, value)) + Tail(false, rest)
  {
    hide MembersText, StringText, DocText;
    MembersTextStep(Member(key, [], [], value, [], [], rest));
    Unspaced(StringText(key), DocText(value), MembersText(rest));
    if rest.Member? {
      Regroup(Separator(first), Piece(key, value), [COMMA] + MembersText(rest));
    } else {
      assert Separator(first) + (Piece(key, value) + []) == (Separator(first) + Piece(key, value)) + [];
    }
  }

  /** A pair without whitespace. */
  lemma Unspaced(key: Bytes, value: Bytes, rest: Bytes)
    ensures key + ([] + ([COLON] + ([] + (value + [])))) == key + ([COLON] + value)
    ensures [] + rest == rest
  {}

  /**
   * The most bytes the sink holds while the members are copied, starting from `size`:
   * a dropped member counts in full until the sink is rewound over it.
   */
  function Peak(size: nat, first: bool, m: Members, drop: Option<Key>): (p: nat)
    ensures p >= size
    decreases m
  {
    match m
    case NoMember => size
    case Member(key, _, _, value, _, _, rest) =>
      var written := size + |Separator(first)| + |Piece(key, value)|;
      if Dropped(key, drop) then
        var later := Peak(size, first, rest, drop);
        if written > later then written else later
      else Peak(written, false, rest, drop)
  }

  /** `Peak` never undercounts what is kept. */
  lemma {:induction false} PeakCoversKept(size: nat, first: bool, m: Members, drop: Option<Key>)
    ensures Peak(size, first, m, drop) >= size + |Tail(first, Kept(m, drop))|
    decreases m
  {
    match m
    case NoMember =>
    case Member(key, _, _, value, _, _, rest) =>
      if Dropped(key, drop) {
        PeakCoversKept(size, first, rest, drop);
      } else {
        PeakCoversKept(size + |Separator(first)| + |Piece(key, value)|, false, rest, drop);
        TailStep(first, key, value, Kept(rest, drop));
      }
  }

  function Target(drop: Option<Bytes>): Option<Key> {
    match drop
    case None => None
    case Some(text) => Some(text)
  }

  /** Copies a key, its colon and its value. The result says whether the key is the one to drop. */
  method CopyPair(source: Source, sink: Sink, drop: Option<Bytes>, ghost m: Members, ghost rest: Bytes)
      returns (r: Result<bool>)
    requires source.Valid() && sink.Valid()
    requires OkMembers(m) && m.Member? && rest != [] && EndsLiteral(rest[0])
    requires drop.Some? ==> Ascii7(drop.value)
    requires source.Rest() == PairText(m) + rest
    modifies source, sink
    ensures source.Valid() && sink.Valid() && old(sink.file) <= sink.file
    ensures r.Ok? <==> |old(sink.Contents())| + |Piece(m.key, m.value)| <= sink.allowance
    ensures r.Ok? ==> source.Rest() == m.after + rest && (r.value <==> Dropped(m.key, Target(drop)))
    ensures r.Ok? ==> sink.Contents() == old(sink.Contents()) + Piece(m.key, m.value)
    ensures r.Err? ==> r.error == ResourceExceeded
  {
    hide Source.Valid, Source.Rest, Sink.Valid, Sink.Contents;
    ghost var t2 := DocText(m.value) + (m.after + rest);
    ghost var t1 := [COLON] + (m.between + t2);
    ghost var start := sink.Contents();
    PairPrefix(m, rest);
    var excluded := CopyString(source, sink, drop, m.key, m.before + t1);
    if excluded.Err? {
      return Err(ResourceExceeded);
    }
    SkipSpaceExact(m.before, t1);
    var _ := source.Expect(COLON);
    assert t1[1..] == m.between + t2;
    var ok := sink.Write([COLON]);
    if !ok {
      return Err(ResourceExceeded);
    }
    AfterEnds(m.after, rest);
    Assembled(start, StringText(m.key), [COLON], DocText(m.value));
    var copied := CopyValue(source, sink, m.between, m.value, m.after + rest);
    if copied.Err? {
      return Err(ResourceExceeded);
    }
    r := Ok(excluded.value);
  }

  lemma PairPrefix(m: Members, rest: Bytes)
    requires m.Member?
    ensures PairText(m) + rest
         == StringText(m.key) + (m.before + ([COLON] + (m.between + (DocText(m.value) + (m.after + rest)))))
  {
    var t0 := m.before + ([COLON] + (m.between + (DocText(m.value) + (m.after + rest))));
    PairChain(CharsText(m.key), m.before, m.between, DocText(m.value), m.after, rest);
    Regroup([QUOTE], CharsText(m.key) + [QUOTE], t0);
  }

  /** Copies one member after its separator, then rewinds over both if its key is the one to drop. */
  method CopyMember(source: Source, sink: Sink, drop: Option<Bytes>, first: bool, ghost m: Members, ghost rest: Bytes)
      returns (r: Result<bool>)
    requires source.Valid() && sink.Valid()
    requires OkMembers(m) && m.Member? && rest != [] && EndsLiteral(rest[0])
    requires drop.Some? ==> Ascii7(drop.value)
    requires source.Rest() == PairText(m) + rest
    modifies source, sink
    ensures source.Valid() && sink.Valid()
    ensures r.Ok? <==> |old(sink.Contents())| + |Separator(first)| + |Piece(m.key, m.value)| <= sink.allowance
    ensures r.Ok? ==> source.Rest() == m.after + rest && (r.value <==> Dropped(m.key, Target(drop)))
    ensures r.Ok? && r.value ==> sink.Contents() == old(sink.Contents())
    ensures r.Ok? && !r.value ==> sink.Contents() == old(sink.Contents()) + (Separator(first) + Piece(m.key, m.value))
    ensures r.Err? ==> r.error == ResourceExceeded
  {
    var mark := sink.Mark();
    ghost var start := sink.file;
    if !first {
      var separated := sink.Write([COMMA]);
      if !separated {
        return Err(ResourceExceeded);
      }
    }
    assert sink.Contents() == start + Separator(first);
    r := CopyPair(source, sink, drop, m, rest);
    if r == Ok(true) {
      sink.Rewind(mark);
    } else if r == Ok(false) {
      Regroup(start, Separator(first), Piece(m.key, m.value));
    }
  }

  function Opening(braces: bool): Bytes {
    if braces then [OPEN_OBJECT] else []
  }

  function Closing(braces: bool): Bytes {
    if braces then [CLOSE_OBJECT] else []
  }

  /** The object's text as the copier writes it: dropped members and top-level whitespace gone. */
  function CopiedText(members: Members, drop: Option<Key>, braces: bool): Bytes {
    Opening(braces) + (MembersText(Kept(members, drop)) + Closing(braces))
  }

  function Max(a: int, b: int): int {
    if a > b then a else b
  }

  /** The most bytes the sink holds while an object is copied, starting from `size`. */
  function ObjectPeak(size: nat, members: Members, drop: Option<Key>, braces: bool): (p: int)
    ensures p >= size + |CopiedText(members, drop, braces)|
  {
    Max(Peak(size + |Opening(braces)|, true, members, drop), size + |CopiedText(members, drop, braces)|)
  }

  /**
   * Copies one object from a payload that spells `d`, leaving out the members whose
   * decoded key is `drop`. The result says whether any member was kept.
   */
  method CopyObject(source: Source, sink: Sink, drop: Option<Bytes>, braces: bool,
      ghost lead: Bytes, ghost d: Doc, ghost trail: Bytes) returns (r: Result<bool>)
    requires source.Valid() && sink.Valid()
    requires Spells(lead, d, trail, source.Rest())
    requires drop.Some? ==> Ascii7(drop.value)
    modifies source, sink
    ensures source.Valid() && sink.Valid()
    ensures !d.Object? ==> r == Err(Unavailable)
    ensures d.Object? ==> (r == Err(ResourceExceeded) <==>
      ObjectPeak(|old(sink.Contents())|, d.members, Target(drop), braces) > sink.allowance)
    ensures d.Object? && r != Err(ResourceExceeded) ==>
      r == if source.intact then Ok(Kept(d.members, Target(drop)).Member?) else Err(Unavailable)
    ensures r.Ok? ==> sink.Contents() == old(sink.Contents()) + CopiedText(d.members, Target(drop), braces)
  {
    hide Source.Valid, Source.Rest, Sink.Valid, Sink.Contents, ObjectPeak, CopiedText, Kept;
    DocFirst(d);
    Regroup(lead, DocText(d), trail);
    if d.Object? {
      ObjectInside(d, trail);
    }
    SkipSpaceExact(lead, DocText(d) + trail);
    var found := source.Expect(OPEN_OBJECT);
    if found.Err? {
      return Err(Unavailable);
    }
    r := CopyBody(source, sink, drop, braces, d, trail);
  }

  lemma ObjectInside(d: Doc, trail: Bytes)
    requires d.Object?
    ensures (DocText(d) + trail)[1..] == d.open + (MembersText(d.members) + ([CLOSE_OBJECT] + trail))
  {
    Wrapped(OPEN_OBJECT, d.open, MembersText(d.members), CLOSE_OBJECT, trail);
  }

  /** Writes the opening brace, if any, and copies the members up to the closing brace. */
  method CopyInside(source: Source, sink: Sink, drop: Option<Bytes>, braces: bool, ghost d: Doc, ghost trail: Bytes)
      returns (r: Result<bool>)
    requires source.Valid() && sink.Valid()
    requires drop.Some? ==> Ascii7(drop.value)
    requires d.Object? && OkDoc(d)
    requires source.Rest() == d.open + (MembersText(d.members) + ([CLOSE_OBJECT] + trail))
    modifies source, sink
    ensures source.Valid() && sink.Valid()
    ensures r.Ok? <==> Peak(|old(sink.Contents())| + |Opening(braces)|, true, d.members, Target(drop)) <= sink.allowance
    ensures r.Ok? ==> source.Rest() == [CLOSE_OBJECT] + trail && (r.value <==> Kept(d.members, Target(drop)).Member?)
    ensures r.Ok? ==> sink.Contents() == old(sink.Contents()) + (Opening(braces) + MembersText(Kept(d.members, Target(drop))))
    ensures r.Err? ==> r.error == ResourceExceeded
  {
    hide Source.Valid, Source.Rest, Sink.Valid, Sink.Contents, Peak, Kept;
    var ok := WriteBrace(sink, braces, OPEN_OBJECT);
    if !ok {
      return Err(ResourceExceeded);
    }
    BodyFirst(d.members, trail);
    SkipSpaceExact(d.open, MembersText(d.members) + ([CLOSE_OBJECT] + trail));
    var _ := source.Space();
    Regroup(old(sink.Contents()), Opening(braces), MembersText(Kept(d.members, Target(drop))));
    assert |sink.Contents()| == |old(sink.Contents())| + |Opening(braces)|;
    r := CopyMembers(source, sink, drop, d.members, trail);
  }

  /** `CopyObject` after the opening brace has been read. */
  method CopyBody(source: Source, sink: Sink, drop: Option<Bytes>, braces: bool, ghost d: Doc, ghost trail: Bytes)
      returns (r: Result<bool>)
    requires source.Valid() && sink.Valid()
    requires drop.Some? ==> Ascii7(drop.value)
    requires d.Object? && OkDoc(d) && AllSpace(trail)
    requires source.Rest() == d.open + (MembersText(d.members) + ([CLOSE_OBJECT] + trail))
    modifies source, sink
    ensures source.Valid() && sink.Valid()
    ensures r == Err(ResourceExceeded) <==>
      ObjectPeak(|old(sink.Contents())|, d.members, Target(drop), braces) > sink.allowance
    ensures r != Err(ResourceExceeded) ==>
      r == if source.intact then Ok(Kept(d.members, Target(drop)).Member?) else Err(Unavailable)
    ensures r.Ok? ==> sink.Contents() == old(sink.Contents()) + CopiedText(d.members, Target(drop), braces)
  {
    hide Source.Valid, Source.Rest, Sink.Valid, Sink.Contents, Peak, Kept, SkipSpace, MembersText, OkMembers;
    ghost var body := MembersText(Kept(d.members, Target(drop)));
    ClosingFirst(trail);
    Assembled(sink.Contents(), Opening(braces), body, Closing(braces));
    var kept := CopyInside(source, sink, drop, braces, d, trail);
    if kept.Err? {
      return Err(ResourceExceeded);
    }
    var _ := source.Expect(CLOSE_OBJECT);
    var ok := WriteBrace(sink, braces, CLOSE_OBJECT);
    if !ok {
      return Err(ResourceExceeded);
    }
    SkipSpaceExact(trail, []);
    assert trail + [] == trail;
    var finished := source.Finish();
    r := if finished.Ok? then Ok(kept.value) else Err(finished.error);
  }

  lemma ClosingFirst(trail: Bytes)
    ensures var s := [CLOSE_OBJECT] + trail; SkipSpace(s) == ([], s) && s[0] == CLOSE_OBJECT && s[1..] == trail
  {}

  method WriteBrace(sink: Sink, braces: bool, b: byte) returns (ok: bool)
    requires sink.Valid()
    modifies sink
    ensures sink.Valid()
    ensures ok <==> |old(sink.Contents())| + (if braces then 1 else 0) <= sink.allowance
    ensures ok ==> sink.Contents() == old(sink.Contents()) + (if braces then [b] else [])
    ensures ok ==> |sink.Contents()| == |old(sink.Contents())| + if braces then 1 else 0
  {
    if !braces {
      return true;
    }
    ok := sink.Write([b]);
  }

  lemma Assembled(start: Bytes, left: Bytes, body: Bytes, right: Bytes)
    ensures (start + (left + body)) + right == start + (left + (body + right))
    ensures ((start + left) + body) + right == start + (left + (body + right))
  {}

  /** How one member changes what is still to be kept. */
  lemma KeptStep(held: Bytes, first: bool, m: Members, drop: Option<Key>)
    requires m.Member?
    ensures Dropped(m.key, drop) ==> Kept(m, drop) == Kept(m.rest, drop)
    ensures !Dropped(m.key, drop) ==>
      && Kept(m, drop).Member?
      && (held + (Separator(first) + Piece(m.key, m.value))) + Tail(false, Kept(m.rest, drop)) == held + Tail(first, Kept(m, drop))
  {
    TailStep(first, m.key, m.value, Kept(m.rest, drop));
    Regroup(held, Separator(first) + Piece(m.key, m.value), Tail(false, Kept(m.rest, drop)));
  }

  /** How one member changes the most the sink has yet to hold. */
  lemma PeakStep(held: Bytes, first: bool, m: Members, drop: Option<Key>, limit: nat)
    requires m.Member?
    ensures
      var written := held + (Separator(first) + Piece(m.key, m.value));
      Peak(|held|, first, m, drop) <= limit <==>
        && |written| <= limit
        && Peak(if Dropped(m.key, drop) then |held| else |written|, first && Dropped(m.key, drop), m.rest, drop) <= limit
  {}

  /** The text of the members still to be read, split after the first one and its whitespace. */
  ghost function AfterPair(m: Members, trail: Bytes): Bytes
    requires m.Member?
  {
    if m.rest.NoMember? then [CLOSE_OBJECT] + trail
    else [COMMA] + (m.gap + (MembersText(m.rest) + ([CLOSE_OBJECT] + trail)))
  }

  lemma SplitMembers(m: Members, trail: Bytes)
    requires m.Member?
    ensures MembersText(m) + ([CLOSE_OBJECT] + trail) == PairText(m) + AfterPair(m, trail)
  {
    if m.rest.NoMember? {
      LastMemberText(m, [CLOSE_OBJECT] + trail);
    } else {
      MoreMembersText(m, [CLOSE_OBJECT] + trail);
    }
  }

  /** Moves past the whitespace and comma after a member; the result says whether another one follows. */
  method NextMember(source: Source, ghost m: Members, ghost trail: Bytes) returns (more: bool)
    requires source.Valid() && OkMembers(m) && m.Member?
    requires source.Rest() == m.after + AfterPair(m, trail)
    modifies source
    ensures source.Valid() && source.Rest() == MembersText(m.rest) + ([CLOSE_OBJECT] + trail)
    ensures more <==> m.rest.Member?
  {
    hide Source.Valid, Source.Rest, Sink.Valid, Sink.Contents;
    SkipSpaceExact(m.after, AfterPair(m, trail));
    var _ := source.Space();
    var peeked := source.Peek();
    if peeked.value == Some(CLOSE_OBJECT) {
      return false;
    }
    ghost var next := MembersText(m.rest) + ([CLOSE_OBJECT] + trail);
    assert source.Rest()[1..] == m.gap + next;
    var _ := source.Expect(COMMA);
    BodyFirst(m.rest, trail);
    SkipSpaceExact(m.gap, next);
    var _ := source.Space();
    more := true;
  }

  /** One round of the loop over the members: copies a member, and moves on to the next. */
  method CopyNext(source: Source, sink: Sink, drop: Option<Bytes>, first: bool, ghost m: Members, ghost trail: Bytes)
      returns (r: Result<bool>, more: bool)
    requires source.Valid() && sink.Valid()
    requires OkMembers(m) && m.Member? && source.Rest() == MembersText(m) + ([CLOSE_OBJECT] + trail)
    requires drop.Some? ==> Ascii7(drop.value)
    modifies source, sink
    ensures source.Valid() && sink.Valid()
    ensures r.Err? ==> r.error == ResourceExceeded
    ensures r.Err? ==> Peak(|old(sink.Contents())|, first, m, Target(drop)) > sink.allowance
    ensures r.Ok? ==> source.Rest() == MembersText(m.rest) + ([CLOSE_OBJECT] + trail) && (more <==> m.rest.Member?)
    ensures r.Ok? ==> (r.value <==> first && Dropped(m.key, Target(drop)))
    ensures r.Ok? ==>
      && sink.Contents() + Tail(r.value, Kept(m.rest, Target(drop)))
           == old(sink.Contents()) + Tail(first, Kept(m, Target(drop)))
      && ((Peak(|old(sink.Contents())|, first, m, Target(drop)) <= sink.allowance) ==
          (Peak(|sink.Contents()|, r.value, m.rest, Target(drop)) <= sink.allowance))
  {
    hide Source.Valid, Source.Rest, Sink.Valid, Sink.Contents;
    SplitMembers(m, trail);
    KeptStep(sink.Contents(), first, m, Target(drop));
    PeakStep(sink.Contents(), first, m, Target(drop), sink.allowance);
    r := CopyMember(source, sink, drop, first, m, AfterPair(m, trail));
    if r.Ok? {
      r := Ok(if r.value then first else false);
      more := NextMember(source, m, trail);
    } else {
      more := false;
    }
  }

  /** The loop of `CopyObject` over the members, up to the closing brace. */
  method CopyMembers(source: Source, sink: Sink, drop: Option<Bytes>, ghost members: Members, ghost trail: Bytes)
      returns (r: Result<bool>)
    requires source.Valid() && sink.Valid()
    requires OkMembers(members) && source.Rest() == MembersText(members) + ([CLOSE_OBJECT] + trail)
    requires drop.Some? ==> Ascii7(drop.value)
    modifies source, sink
    ensures source.Valid() && sink.Valid()
    ensures r.Ok? <==> Peak(|old(sink.Contents())|, true, members, Target(drop)) <= sink.allowance
    ensures r.Ok? ==> source.Rest() == [CLOSE_OBJECT] + trail && (r.value <==> Kept(members, Target(drop)).Member?)
    ensures r.Ok? ==> sink.Contents() == old(sink.Contents()) + MembersText(Kept(members, Target(drop)))
    ensures r.Err? ==> r.error == ResourceExceeded
  {
    hide Source.Valid, Source.Rest, Sink.Valid, Sink.Contents;
    ghost var m, want := members, Target(drop);
    ghost var goal := sink.Contents() + Tail(true, Kept(members, want));
    ghost var peak, any := Peak(|sink.Contents()|, true, members, want), Kept(members, want).Member?;
    BodyFirst(members, trail);
    var first := true;
    var peeked := source.Peek();
    var more := peeked.value != Some(CLOSE_OBJECT);
    while more
      invariant source.Valid() && sink.Valid()
      invariant OkMembers(m) && source.Rest() == MembersText(m) + ([CLOSE_OBJECT] + trail)
      invariant more <==> m.Member?
      invariant sink.Contents() + Tail(first, Kept(m, want)) == goal
      invariant peak <= sink.allowance <==> Peak(|sink.Contents()|, first, m, want) <= sink.allowance
      invariant any <==> !first || Kept(m, want).Member?
      decreases m
    {
      var copied;
      copied, more := CopyNext(source, sink, drop, first, m, trail);
      if copied.Err? {
        return Err(ResourceExceeded);
      }
      first := copied.value;
      m := m.rest;
    }
    TailEnds(Kept(members, want));
    r := Ok(!first);
  }

  lemma TailEnds(kept: Members)
    ensures Tail(true, kept) == MembersText(kept) && Tail(true, NoMember) == [] == Tail(false, NoMember)
  {}
}
