/**
 * The feed's opaque cursor (feed.ts): a position and an ordinal, as decimal numbers, in unpadded
 * base64url (RFC 4648, section 5). A character outside the alphabet is refused here.
 */
module Cursor {
  import opened Bytes

  // ---------------------------------------------------------------- base64url

  function Symbol(v: nat): byte
    requires v < 64
  {
    if v < 26 then 65 + v else if v < 52 then 97 + (v - 26) else if v < 62 then 48 + (v - 52)
    else if v == 62 then 45 else 95
  }

  function SymbolValue(b: byte): (v: Option<nat>)
    ensures v.Some? ==> v.value < 64 && Symbol(v.value) == b
  {
    if 65 <= b <= 90 then Some(b - 65)
    else if 97 <= b <= 122 then Some(b - 97 + 26)
    else if 48 <= b <= 57 then Some(b - 48 + 52)
    else if b == 45 then Some(62)
    else if b == 95 then Some(63)
    else None
  }

  function Symbols(vs: seq<nat>): (t: Bytes)
    requires forall i :: 0 <= i < |vs| ==> vs[i] < 64
    ensures |t| == |vs| && forall i :: 0 <= i < |t| ==> t[i] == Symbol(vs[i])
  {
    seq(|vs|, i requires 0 <= i < |vs| => Symbol(vs[i]))
  }

  /** The six-bit values of up to three bytes. */
  function Sixes(s: Bytes): (vs: seq<nat>)
    requires 1 <= |s| <= 3
    ensures |vs| == |s| + 1 && forall i :: 0 <= i < |vs| ==> vs[i] < 64
  {
    if |s| == 1 then [s[0] / 4, s[0] % 4 * 16]
    else if |s| == 2 then [s[0] / 4, s[0] % 4 * 16 + s[1] / 16, s[1] % 16 * 4]
    else [s[0] / 4, s[0] % 4 * 16 + s[1] / 16, s[1] % 16 * 4 + s[2] / 64, s[2] % 64]
  }

  /** Three bytes in four symbols; a last one or two bytes in two or three. */
  function Encode64(s: Bytes): Bytes {
    if s == [] then [] else Symbols(Sixes(s[..Min(3, |s|)])) + Encode64(s[Min(3, |s|)..])
  }

  /** The bytes of up to four symbols; bits past the last whole byte are dropped. */
  function Bytes64(vs: seq<nat>): (s: Bytes)
    requires |vs| <= 4 && forall i :: 0 <= i < |vs| ==> vs[i] < 64
    ensures |s| == if vs == [] then 0 else |vs| - 1
  {
    (if |vs| >= 2 then [vs[0] * 4 + vs[1] / 16] else [])
    + (if |vs| >= 3 then [vs[1] % 16 * 16 + vs[2] / 4] else [])
    + (if |vs| == 4 then [vs[2] % 4 * 64 + vs[3]] else [])
  }

  function Values(t: Bytes): (r: Option<seq<nat>>)
    ensures r.Some? ==> |r.value| == |t| && forall i :: 0 <= i < |t| ==> r.value[i] < 64 && SymbolValue(t[i]) == Some(r.value[i])
    ensures r.None? <==> exists i :: 0 <= i < |t| && SymbolValue(t[i]).None?
  {
    if t == [] then Some([])
    else
      assert t == [t[0]] + t[1..];
      match SymbolValue(t[0])
      case None => None
      case Some(v) => match Values(t[1..]) case None => None case Some(vs) => Some([v] + vs)
  }

  function Decode64(t: Bytes): Option<Bytes> {
    if t == [] then Some([])
    else
      var n := Min(4, |t|);
      match Values(t[..n])
      case None => None
      case Some(vs) => match Decode64(t[n..]) case None => None case Some(rest) => Some(Bytes64(vs) + rest)
  }

  /** The alphabet of section 5. */
  const ALPHABET: Bytes := UPPER_CASE + LOWER_CASE + Ascii("0123456789-_")

  const UPPER_CASE: Bytes := Ascii("ABCDEFGHIJKLMNOPQRSTUVWXYZ")
  const LOWER_CASE: Bytes := Ascii("abcdefghijklmnopqrstuvwxyz")

  /** Each symbol is the alphabet's, and the groups are read with the first symbol most significant. */
  lemma AlphabetExact(v: nat)
    requires v < 64
    ensures |ALPHABET| == 64 && Symbol(v) == ALPHABET[v]
  {
    assert |UPPER_CASE| == |LOWER_CASE| == 26 && |Ascii("0123456789-_")| == 12;
    if v < 26 {
      UpperCase(v);
    } else if v < 52 {
      LowerCase(v - 26);
    } else {
      Tail64(v - 52);
    }
  }

  lemma UpperCase(k: nat)
    requires k < 26
    ensures |UPPER_CASE| == 26 && UPPER_CASE[k] == 65 + k
  {}

  lemma LowerCase(k: nat)
    requires k < 26
    ensures |LOWER_CASE| == 26 && LOWER_CASE[k] == 97 + k
  {}

  lemma Tail64(k: nat)
    requires k < 12
    ensures k < |Ascii("0123456789-_")| && Ascii("0123456789-_")[k] == if k < 10 then 48 + k else if k == 10 then 45 else 95
  {}

  /** The number that digits spell, the first one most significant. */
  function Horner(digits: seq<int>, base: int): int {
    if digits == [] then 0 else Horner(digits[..|digits| - 1], base) * base + digits[|digits| - 1]
  }

  /** A group's six-bit values spell the number its bytes spell, with zeros after the last bit of a short group. */
  lemma SixesExact(s: Bytes)
    requires 1 <= |s| <= 3
    ensures Horner(Sixes(s), 64) == Horner(s, 256) * (if |s| == 1 then 16 else if |s| == 2 then 4 else 1)
  {
    var v := Sixes(s);
    HornerStep(v, 64);
    HornerStep(s, 256);
    hide Horner;
    SixBits(s[0], if |s| > 1 then s[1] else 0, if |s| > 2 then s[2] else 0);
  }

  lemma HornerStep(d: seq<int>, base: int)
    ensures |d| == 1 ==> Horner(d, base) == d[0]
    ensures |d| == 2 ==> Horner(d, base) == d[0] * base + d[1]
    ensures |d| == 3 ==> Horner(d, base) == (d[0] * base + d[1]) * base + d[2]
    ensures |d| == 4 ==> Horner(d, base) == ((d[0] * base + d[1]) * base + d[2]) * base + d[3]
  {
    if |d| > 1 {
      HornerStep(d[..|d| - 1], base);
    }
  }

  lemma SixBits(a: byte, b: byte, c: byte)
    ensures a / 4 * 64 + a % 4 * 16 == a * 16
    ensures (a / 4 * 64 + (a % 4 * 16 + b / 16)) * 64 + b % 16 * 4 == (a * 256 + b) * 4
    ensures ((a / 4 * 64 + (a % 4 * 16 + b / 16)) * 64 + (b % 16 * 4 + c / 64)) * 64 + c % 64 == (a * 256 + b) * 256 + c
  {}

  lemma ValuesOfSymbols(vs: seq<nat>)
    requires forall i :: 0 <= i < |vs| ==> vs[i] < 64
    ensures Values(Symbols(vs)) == Some(vs)
  {
    var t := Symbols(vs);
    forall i | 0 <= i < |t| ensures SymbolValue(t[i]) == Some(vs[i]) {
      SymbolExact(vs[i]);
    }
    assert Values(t).Some? && Values(t).value == vs;
  }

  lemma SymbolExact(v: nat)
    requires v < 64
    ensures SymbolValue(Symbol(v)) == Some(v)
  {}

  lemma BytesOfSixes(s: Bytes)
    requires 1 <= |s| <= 3
    ensures Bytes64(Sixes(s)) == s
  {
    PairBytes(s[0], if |s| > 1 then s[1] else 0);
    if |s| == 3 {
      TripleBytes(s[0], s[1], s[2]);
    }
  }

  lemma PairBytes(a: byte, b: byte)
    ensures a / 4 * 4 + (a % 4 * 16 + b / 16) / 16 == a
    ensures (a % 4 * 16 + b / 16) % 16 * 16 + b % 16 * 4 / 4 == b
  {}

  lemma TripleBytes(a: byte, b: byte, c: byte)
    ensures a / 4 * 4 + (a % 4 * 16 + b / 16) / 16 == a
    ensures (a % 4 * 16 + b / 16) % 16 * 16 + (b % 16 * 4 + c / 64) / 4 == b
    ensures (b % 16 * 4 + c / 64) % 4 * 64 + c % 64 == c
  {}

  /** Decoding takes one group, whole or the last one. */
  lemma DecodeGroup(vs: seq<nat>, rest: Bytes)
    requires 0 < |vs| <= 4 && (|vs| < 4 ==> rest == []) && forall i :: 0 <= i < |vs| ==> vs[i] < 64
    ensures Decode64(Symbols(vs) + rest) ==
      match Decode64(rest) case None => None case Some(more) => Some(Bytes64(vs) + more)
  {
    hide Bytes64, Values;
    ValuesOfSymbols(vs);
    var t := Symbols(vs);
    assert (t + rest)[..|vs|] == t && (t + rest)[|vs|..] == rest;
  }

  lemma {:induction false} Decode64Encode64(s: Bytes)
    ensures Decode64(Encode64(s)) == Some(s)
    decreases |s|
  {
    hide Decode64, Bytes64, Sixes;
    if s == [] {
      NothingCoded();
    } else {
      var n := Min(3, |s|);
      Decode64Encode64(s[n..]);
      BytesOfSixes(s[..n]);
      DecodeGroup(Sixes(s[..n]), Encode64(s[n..]));
      assert s == s[..n] + s[n..];
    }
  }

  lemma NothingCoded()
    ensures Decode64([]) == Some([]) && Encode64([]) == []
  {}

  // ---------------------------------------------------------------- the cursor

  /** A decimal number without leading zeros. */
  predicate Canonical(s: Bytes) {
    s == [48] || (s != [] && s[0] != 48 && forall i :: 0 <= i < |s| ==> IsDigit(s[i]))
  }

  /** Digits without a leading zero, and zero itself. */
  lemma CanonicalExact(s: Bytes)
    ensures Canonical(s) <==> s != [] && (forall i :: 0 <= i < |s| ==> IsDigit(s[i])) && (s[0] == 48 ==> |s| == 1)
  {}

  function EncodeCursor(position: Bytes, ordinal: Bytes): Bytes {
    Encode64([49, COLON] + position + [COLON] + ordinal)
  }

  function FirstColon(s: Bytes): (i: nat)
    ensures i <= |s|
    ensures forall k :: 0 <= k < i ==> s[k] != COLON
    ensures i < |s| ==> s[i] == COLON
  {
    if s == [] || s[0] == COLON then 0 else 1 + FirstColon(s[1..])
  }

  /** `1:`, a canonical number, a colon and another one. */
  function ParseCursor(s: Bytes): Option<(Bytes, Bytes)> {
    if |s| < 2 || s[..2] != [49, COLON] then None
    else
      var rest := s[2..];
      var i := FirstColon(rest);
      if i < |rest| && Canonical(rest[..i]) && Canonical(rest[i + 1..]) then Some((rest[..i], rest[i + 1..])) else None
  }

  function DecodeCursor(cursor: Bytes): Option<(Bytes, Bytes)> {
    match Decode64(cursor)
    case None => None
    case Some(s) => ParseCursor(s)
  }

  lemma {:induction false} FirstColonOf(position: Bytes, tail: Bytes)
    requires tail != [] && tail[0] == COLON
    ensures var i := FirstColon(position + tail);
      i <= |position| && (i == |position| <==> forall k :: 0 <= k < |position| ==> position[k] != COLON)
    decreases |position|
  {
    var i := FirstColon(position + tail);
    if position == [] {
      assert position + tail == tail;
    } else if position[0] != COLON {
      FirstColonOf(position[1..], tail);
      assert (position + tail)[1..] == position[1..] + tail;
      assert i == 1 + FirstColon(position[1..] + tail);
      assert position == [position[0]] + position[1..];
    } else {
      assert (position + tail)[0] == COLON;
    }
  }

  lemma NoColon(s: Bytes)
    requires Canonical(s)
    ensures forall k :: 0 <= k < |s| ==> s[k] != COLON
  {}

  lemma ParseExact(position: Bytes, ordinal: Bytes)
    ensures ParseCursor([49, COLON] + position + [COLON] + ordinal)
         == if Canonical(position) && Canonical(ordinal) then Some((position, ordinal)) else None
  {
    hide Canonical, FirstColon;
    var tail := [COLON] + ordinal;
    var s := [49, COLON] + position + [COLON] + ordinal;
    assert s[..2] == [49, COLON] && s[2..] == position + tail;
    FirstColonOf(position, tail);
    var i := FirstColon(position + tail);
    if i == |position| {
      assert (position + tail)[..i] == position && (position + tail)[i + 1..] == ordinal;
    } else {
      var right := (position + tail)[i + 1..];
      assert right[|position| - i - 1] == COLON;
      if Canonical(right) {
        NoColon(right);
      }
      if Canonical(position) {
        NoColon(position);
      }
    }
  }

  /** A cursor decodes to what it was made of, exactly when that is two canonical numbers; anything else is refused. */
  lemma CursorRoundTrip(position: Bytes, ordinal: Bytes)
    ensures DecodeCursor(EncodeCursor(position, ordinal))
         == if Canonical(position) && Canonical(ordinal) then Some((position, ordinal)) else None
  {
    hide Decode64, Encode64, ParseCursor, Canonical;
    Decode64Encode64([49, COLON] + position + [COLON] + ordinal);
    ParseExact(position, ordinal);
  }

  /** Different places have different cursors. */
  lemma CursorInjective(p: Bytes, o: Bytes, p': Bytes, o': Bytes)
    requires Canonical(p) && Canonical(o) && Canonical(p') && Canonical(o')
    requires EncodeCursor(p, o) == EncodeCursor(p', o')
    ensures p == p' && o == o'
  {
    CursorRoundTrip(p, o);
    CursorRoundTrip(p', o');
  }

  // ---------------------------------------------------------------- which cursors are the encoder's

  /** The last value of a group has no bits past its last byte. */
  predicate Exact(vs: seq<nat>) {
    (|vs| == 2 ==> vs[1] % 16 == 0) && (|vs| == 3 ==> vs[2] % 4 == 0)
  }

  /** After the whole groups there is no single symbol, and there are no bits past the last byte. */
  predicate Tight(t: Bytes)
    decreases |t|
  {
    if |t| >= 4 then Tight(t[4..])
    else |t| != 1 && Values(t).Some? && Exact(Values(t).value)
  }

  lemma SymbolsOfValues(t: Bytes)
    requires Values(t).Some?
    ensures Symbols(Values(t).value) == t
  {}

  lemma SixesOfBytes(vs: seq<nat>)
    requires 2 <= |vs| <= 4 && forall i :: 0 <= i < |vs| ==> vs[i] < 64
    ensures |Bytes64(vs)| == |vs| - 1
    ensures Sixes(Bytes64(vs)) == vs <==> Exact(vs)
  {
    var a, b := vs[0], vs[1];
    var c, d := if |vs| > 2 then vs[2] else 0, if |vs| > 3 then vs[3] else 0;
    GroupBack(a, b, c, d);
  }

  lemma GroupBack(a: nat, b: nat, c: nat, d: nat)
    requires a < 64 && b < 64 && c < 64 && d < 64
    ensures var x, y, z := a * 4 + b / 16, b % 16 * 16 + c / 4, c % 4 * 64 + d;
      && x / 4 == a && x % 4 * 16 + y / 16 == b && y % 16 * 4 + z / 64 == c && z % 64 == d
      && x % 4 * 16 == b - b % 16 && y % 16 * 4 == c - c % 4
  {}

  lemma SymbolsDiffer(vs: seq<nat>, ws: seq<nat>)
    requires forall i :: 0 <= i < |vs| ==> vs[i] < 64
    requires forall i :: 0 <= i < |ws| ==> ws[i] < 64
    ensures Symbols(vs) == Symbols(ws) <==> vs == ws
  {
    ValuesOfSymbols(vs);
    ValuesOfSymbols(ws);
  }

  /** One group of symbols, decoded and encoded again. */
  lemma GroupTight(t: Bytes, rest: Bytes)
    requires 2 <= |t| <= 4 && Values(t).Some? && (|t| < 4 ==> rest == [])
    ensures Encode64(Bytes64(Values(t).value) + rest) == Symbols(Sixes(Bytes64(Values(t).value))) + Encode64(rest)
    ensures Symbols(Sixes(Bytes64(Values(t).value))) == t <==> Exact(Values(t).value)
  {
    hide Values, Sixes, Bytes64;
    var vs := Values(t).value;
    SixesOfBytes(vs);
    SymbolsOfValues(t);
    SymbolsDiffer(Sixes(Bytes64(vs)), vs);
    var s := Bytes64(vs) + rest;
    assert s[..|vs| - 1] == Bytes64(vs) && s[|vs| - 1..] == rest;
  }

  lemma {:induction false} Encode64Decode64(t: Bytes)
    requires Decode64(t).Some?
    ensures Encode64(Decode64(t).value) == t <==> Tight(t)
    decreases |t|
  {
    hide Encode64, Decode64, Values, Bytes64, Sixes, Symbols, Tight, Exact;
    TightTail(t);
    if t == [] {
      NothingCoded();
      NoValues();
    } else {
      var n := Min(4, |t|);
      var group, tail := t[..n], t[n..];
      assert t == group + tail;
      DecodeStep(t);
      var vs, rest := Values(group).value, Decode64(tail).value;
      if n == 1 {
        OneSymbol(vs);
        NothingCoded();
      } else {
        NothingCoded();
        GroupTight(group, rest);
        Encode64Decode64(tail);
        SameTail(Symbols(Sixes(Bytes64(vs))), Encode64(rest), group, tail);
      }
    }
  }

  lemma DecodeStep(t: Bytes)
    requires t != [] && Decode64(t).Some?
    ensures
      var n := Min(4, |t|);
      && Values(t[..n]).Some? && Decode64(t[n..]).Some?
      && Decode64(t).value == Bytes64(Values(t[..n]).value) + Decode64(t[n..]).value
  {
    hide Values, Bytes64;
  }

  lemma NoValues()
    ensures Values([]) == Some([]) && Exact([])
  {}

  /** Only the last group can be loose. */
  lemma TightTail(t: Bytes)
    ensures |t| < 4 ==> t[..|t|] == t && t[|t|..] == []
    ensures |t| < 4 && Values(t).Some? ==> (Tight(t) <==> |t| != 1 && Exact(Values(t).value))
    ensures |t| >= 4 ==> (Tight(t) <==> Tight(t[4..]))
    ensures |t| >= 4 && Values(t[..4]).Some? ==> Exact(Values(t[..4]).value)
  {
    hide Values;
  }

  lemma OneSymbol(vs: seq<nat>)
    requires |vs| == 1 && vs[0] < 64
    ensures Bytes64(vs) == [] && Bytes64(vs) + [] == []
  {}

  lemma SameTail(a: Bytes, b: Bytes, c: Bytes, d: Bytes)
    requires |a| == |c|
    ensures a + b == c + d <==> a == c && b == d
  {
    assert (a + b)[..|a|] == a && (a + b)[|a|..] == b;
    assert (c + d)[..|c|] == c && (c + d)[|c|..] == d;
  }

  /** A cursor that decodes is the one its place encodes to exactly when it is tight: the decoder accepts no other spelling of it. */
  lemma CursorReencodes(cursor: Bytes)
    requires DecodeCursor(cursor).Some?
    ensures
      var (position, ordinal) := DecodeCursor(cursor).value;
      && Canonical(position) && Canonical(ordinal)
      && (EncodeCursor(position, ordinal) == cursor <==> Tight(cursor))
  {
    hide Decode64, Encode64, Tight;
    var s := Decode64(cursor).value;
    var rest := s[2..];
    var i := FirstColon(rest);
    assert s == [49, COLON] + rest[..i] + [COLON] + rest[i + 1..];
    Encode64Decode64(cursor);
  }
}
