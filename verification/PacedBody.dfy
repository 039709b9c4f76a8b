/**
 * The offset-addressed response body of paced_format.py, and its independent verifier in paced.c.
 *
 * The response is a fixed-size record for each event, a terminal record that repeats the text of
 * all of them, and its end; neither program ever holds more than a window of it.
 */
module PacedBody {
  import opened Bytes

  const WINDOW := 16384

  /** Event numbers have five digits below this. */
  const FIVE_DIGITS := 100000

  // ---------------------------------------------------------------- the response

  function Decimal(n: nat): (d: Bytes)
    ensures d != []
  {
    if n < 10 then [48 + n] else Decimal(n / 10) + [48 + n % 10]
  }

  function Zeros(n: nat): (z: Bytes)
    ensures |z| == n
  {
    seq(n, _ => 48)
  }

  /** At least five digits. */
  function Padded(n: nat): Bytes {
    var d := Decimal(n);
    if |d| < 5 then Zeros(5 - |d|) + d else d
  }

  const TEXT: Bytes := [116, 101, 120, 116]

  /** The first `n` bytes of `text` repeated for ever. */
  function TextRun(n: nat): (t: Bytes)
    ensures |t| == n && forall i :: 0 <= i < n ==> t[i] == TEXT[i % 4]
  {
    seq(n, i requires 0 <= i < n => TEXT[i % 4])
  }

  const DELTA_START: Bytes :=
    Ascii("event: response.output_text.delta\n") + Ascii("data: {\"type\":")
    + Ascii("\"response.output_text.delta\",") + Ascii("\"sequence_number\":\"")

  const DELTA_TEXT: Bytes := Ascii("\",\"delta\":\"")
  const DELTA_END: Bytes := Ascii("\"}\n\n")

  const HEAD_START: Bytes :=
    Ascii("event: response.completed\n") + Ascii("data: {\"type\":")
    + Ascii("\"response.completed\",") + Ascii("\"sequence_number\":\"")

  const HEAD_TEXT: Bytes := Ascii("\",\"response\":{") + Ascii("\"status\":\"completed\",") + Ascii("\"text\":\"")
  const TAIL: Bytes := Ascii("\"}}\n\n")

  function Delta(index: nat, tokens: nat): Bytes {
    DELTA_START + Padded(index) + DELTA_TEXT + TextRun(4 * tokens) + DELTA_END
  }

  function Head(events: nat): Bytes {
    HEAD_START + Padded(events) + HEAD_TEXT
  }

  function Deltas(events: nat, tokens: nat): Bytes {
    if events == 0 then [] else Deltas(events - 1, tokens) + Delta(events - 1, tokens)
  }

  function TextLength(tokens: nat, events: nat): nat {
    events * tokens * 4
  }

  /** The terminal record. */
  function Terminal(tokens: nat, events: nat): Bytes {
    Head(events) + (TextRun(TextLength(tokens, events)) + TAIL)
  }

  /** The whole response. */
  function Full(tokens: nat, events: nat): Bytes {
    Deltas(events, tokens) + Terminal(tokens, events)
  }

  /** `dimensions`: the size of a record, and of the terminal one. */
  function RecordSize(tokens: nat): (n: nat)
    ensures n > 0
  {
    |Delta(0, tokens)|
  }

  function DeltasSize(tokens: nat, events: nat): nat {
    RecordSize(tokens) * events
  }

  function TerminalSize(tokens: nat, events: nat): nat {
    |Head(events)| + TextLength(tokens, events) + |TAIL|
  }

  // ---------------------------------------------------------------- sizes

  function Power10(k: nat): (p: nat)
    ensures p > 0
  {
    if k == 0 then 1 else 10 * Power10(k - 1)
  }

  lemma {:induction false} DecimalSize(n: nat, k: nat)
    requires k > 0
    ensures |Decimal(n)| <= k <==> n < Power10(k)
  {
    if n < 10 {
      assert Power10(k) == 10 * Power10(k - 1);
    } else if k > 1 {
      DecimalSize(n / 10, k - 1);
    } else {
      assert Power10(1) == 10 * Power10(0);
    }
  }

  lemma PaddedSize(n: nat)
    ensures |Padded(n)| >= 5 && (|Padded(n)| == 5 <==> n < FIVE_DIGITS)
  {
    DecimalSize(n, 5);
    assert Power10(1) == 10 && Power10(2) == 100 && Power10(3) == 1000 && Power10(4) == 10000 && Power10(5) == FIVE_DIGITS;
  }

  lemma DeltaSize(index: nat, tokens: nat)
    ensures |Delta(index, tokens)| >= RecordSize(tokens)
    ensures |Delta(index, tokens)| == RecordSize(tokens) <==> index < FIVE_DIGITS
  {
    PaddedSize(index);
    PaddedSize(0);
  }

  lemma {:induction false} DeltasExact(events: nat, tokens: nat)
    ensures |Deltas(events, tokens)| >= DeltasSize(tokens, events)
    ensures |Deltas(events, tokens)| == DeltasSize(tokens, events) <==> events <= FIVE_DIGITS
  {
    hide Delta, RecordSize;
    if events > 0 {
      DeltasExact(events - 1, tokens);
      DeltaSize(events - 1, tokens);
      assert RecordSize(tokens) * events == RecordSize(tokens) * (events - 1) + RecordSize(tokens);
    }
  }

  /** The dimensions are those of the response exactly while every event number has five digits. */
  lemma DimensionsExact(tokens: nat, events: nat)
    ensures |Full(tokens, events)| >= DeltasSize(tokens, events) + TerminalSize(tokens, events)
    ensures |Full(tokens, events)| == DeltasSize(tokens, events) + TerminalSize(tokens, events) <==> events <= FIVE_DIGITS
  {
    hide Delta, Head, Deltas;
    DeltasExact(events, tokens);
  }

  /** The number that decimal digits spell, the first one most significant. */
  function Spelled(d: Bytes): int {
    if d == [] then 0 else 10 * Spelled(d[..|d| - 1]) - 48 + d[|d| - 1]
  }

  lemma {:induction false} DecimalExact(n: nat)
    ensures Spelled(Decimal(n)) == n && forall i :: 0 <= i < |Decimal(n)| ==> 48 <= Decimal(n)[i] <= 57
    ensures Decimal(n)[0] == 48 ==> |Decimal(n)| == 1
  {
    var d := Decimal(n);
    if n < 10 {
      assert d[..0] == [];
    } else {
      DecimalExact(n / 10);
      assert d[..|d| - 1] == Decimal(n / 10);
      if |Decimal(n / 10)| == 1 {
        assert Decimal(n / 10)[..0] == [];
      }
    }
  }

  lemma {:induction false} ZerosSpell(k: nat, d: Bytes)
    ensures Spelled(Zeros(k) + d) == Spelled(d)
    decreases |d|, k
  {
    var s := Zeros(k) + d;
    if d != [] {
      assert s[..|s| - 1] == Zeros(k) + d[..|d| - 1];
      ZerosSpell(k, d[..|d| - 1]);
    } else if k > 0 {
      assert s[..|s| - 1] == Zeros(k - 1) + [];
      ZerosSpell(k - 1, []);
    }
  }

  /** An event number is spelled by its digits, the first one most significant, with zeros before them only up to five. */
  lemma PaddedExact(n: nat)
    ensures Spelled(Padded(n)) == n && |Padded(n)| >= 5
    ensures forall i :: 0 <= i < |Padded(n)| ==> 48 <= Padded(n)[i] <= 57
    ensures |Padded(n)| > 5 ==> Padded(n)[0] != 48
  {
    DecimalExact(n);
    if |Decimal(n)| < 5 {
      ZerosSpell(5 - |Decimal(n)|, Decimal(n));
    }
  }

  /** The records whose numbers have five digits. */
  function Records(tokens: nat, events: nat): Bytes {
    Deltas(Min(events, FIVE_DIGITS), tokens)
  }

  function RecordsSize(tokens: nat, events: nat): nat {
    DeltasSize(tokens, Min(events, FIVE_DIGITS))
  }

  lemma {:induction false} DeltasGrow(n: nat, events: nat, tokens: nat)
    requires n <= events
    ensures Deltas(n, tokens) <= Deltas(events, tokens)
  {
    hide Delta;
    if n < events {
      DeltasGrow(n, events - 1, tokens);
    }
  }

  /** A record with a five-digit number lies where its number says. */
  lemma DeltaAt(index: nat, tokens: nat, events: nat)
    requires index < Min(events, FIVE_DIGITS)
    ensures LiesAt(Records(tokens, events), DeltasSize(tokens, index), Delta(index, tokens))
  {
    hide Delta, RecordSize;
    var all := Records(tokens, events);
    DeltasExact(index, tokens);
    DeltasGrow(index + 1, Min(events, FIVE_DIGITS), tokens);
    var front := Deltas(index, tokens);
    assert Deltas(index + 1, tokens) == front + Delta(index, tokens);
    assert all[|front|..|front| + |Delta(index, tokens)|] == Delta(index, tokens);
  }

  // ---------------------------------------------------------------- pieces

  /** `s[at:at+length]` as Python slices: clipped at the end. */
  function Slice(s: Bytes, at: nat, length: nat): Bytes {
    if at >= |s| then [] else s[at..Min(at + length, |s|)]
  }

  /** `s` lies in the response at `at`. */
  ghost predicate LiesAt(full: Bytes, at: nat, s: Bytes) {
    at + |s| <= |full| && full[at..at + |s|] == s
  }

  lemma SliceLies(full: Bytes, at: nat, s: Bytes, pos: nat, length: nat)
    requires LiesAt(full, at, s) && pos < |s| && length > 0
    ensures LiesAt(full, at + pos, Slice(s, pos, length)) && 0 < |Slice(s, pos, length)| <= length
  {
    SubSlice(full, at, |s|, pos, |Slice(s, pos, length)|);
  }

  lemma Lies(x: Bytes, y: Bytes, z: Bytes)
    ensures LiesAt(x + (y + z), |x|, y)
  {
    assert (x + (y + z))[|x|..|x| + |y|] == y;
  }

  lemma Parts(a: Bytes, b: Bytes, c: Bytes)
    ensures var all := a + (b + c);
      |all| == |a| + |b| + |c| && LiesAt(all, 0, a) && LiesAt(all, |a|, b) && LiesAt(all, |a| + |b|, c)
  {
    var all := a + (b + c);
    assert all == [] + (a + (b + c));
    assert all == (a + b) + (c + []);
    Lies([], a, b + c);
    Lies(a, b, c);
    Lies(a + b, c, []);
    assert |a + b| == |a| + |b|;
  }

  lemma LiesWithin(full: Bytes, at: nat, s: Bytes, pos: nat, t: Bytes)
    requires LiesAt(full, at, s) && LiesAt(s, pos, t)
    ensures LiesAt(full, at + pos, t)
  {
    SubSlice(full, at, |s|, pos, |t|);
  }

  /** Where the records with five-digit numbers and the terminal record lie in the response. */
  lemma Layout(tokens: nat, events: nat)
    ensures
      var full, total := Full(tokens, events), DeltasSize(tokens, events);
      && |Records(tokens, events)| == RecordsSize(tokens, events) <= total
      && |Terminal(tokens, events)| == TerminalSize(tokens, events) > 0
      && LiesAt(full, 0, Records(tokens, events))
      && (events <= FIVE_DIGITS ==>
           RecordsSize(tokens, events) == total && LiesAt(full, total, Terminal(tokens, events)) && |full| == total + TerminalSize(tokens, events))
  {
    hide Delta, Head, Deltas, TextLength, TextRun;
    var n := Min(events, FIVE_DIGITS);
    DeltasExact(n, tokens);
    DeltasGrow(n, events, tokens);
    Monotone(RecordSize(tokens), n, events);
    Lies(Deltas(events, tokens), Terminal(tokens, events), []);
    assert Full(tokens, events) == Deltas(events, tokens) + (Terminal(tokens, events) + []);
    assert |TAIL| > 0;
  }

  /** Text from an offset on, cut from enough whole words. */
  function TextChunk(at: nat, take: nat): Bytes {
    Slice(TextRun(4 * ((take + 7) / 4)), at % 4, take)
  }

  function Divide(a: nat, b: nat): (nat, nat)
    requires b > 0
  {
    (a / b, a % b)
  }

  /** A record's bytes from an offset among the records. */
  function DeltaChunk(offset: nat, length: nat, tokens: nat): Bytes {
    var (index, pos) := Divide(offset, RecordSize(tokens));
    Slice(Delta(index, tokens), pos, length)
  }

  /** The terminal record's bytes from an offset in it. */
  function TerminalChunk(pos: nat, length: nat, head: Bytes, text: nat, tail: Bytes): Bytes {
    if pos < |head| then Slice(head, pos, length)
    else if pos < |head| + text then TextChunk(pos - |head|, Min(length, text - (pos - |head|)))
    else Slice(tail, pos - |head| - text, length)
  }

  /** What one turn of the loop in `body` takes. */
  function Piece(offset: nat, length: nat, tokens: nat, events: nat): Bytes {
    var total := DeltasSize(tokens, events);
    if offset < total then DeltaChunk(offset, length, tokens)
    else TerminalChunk(offset - total, length, Head(events), TextLength(tokens, events), TAIL)
  }

  lemma DeltaPiece(offset: nat, length: nat, tokens: nat, events: nat)
    requires offset < RecordsSize(tokens, events) && length > 0
    ensures
      var p := Piece(offset, length, tokens, events);
      0 < |p| <= length && LiesAt(Records(tokens, events), offset, p)
  {
    hide Delta, Head, Full, Records, RecordSize, RecordsSize, TAIL, Divide;
    Layout(tokens, events);
    RecordAt(offset, tokens, events);
    var (index, pos) := Divide(offset, RecordSize(tokens));
    SliceLies(Records(tokens, events), offset - pos, Delta(index, tokens), pos, length);
  }

  /** The record an offset falls into: whole and in its place among those with five-digit numbers, or one with more digits. */
  lemma RecordAt(offset: nat, tokens: nat, events: nat)
    requires offset < DeltasSize(tokens, events)
    ensures
      var (index, pos) := Divide(offset, RecordSize(tokens));
      && pos < RecordSize(tokens) && pos <= offset
      && (|Delta(index, tokens)| == RecordSize(tokens) <==> offset < RecordsSize(tokens, events))
      && (offset < RecordsSize(tokens, events) ==> LiesAt(Records(tokens, events), offset - pos, Delta(index, tokens)))
  {
    hide Delta, RecordSize, Records;
    var size, n := RecordSize(tokens), Min(events, FIVE_DIGITS);
    var index := offset / size;
    Quotient(offset, size, events);
    DeltaSize(index, tokens);
    Monotone(size, n, index);
    Monotone(size, index + 1, n);
    if index < n {
      DeltaAt(index, tokens, events);
    }
  }

  lemma Quotient(offset: nat, size: nat, events: nat)
    requires size > 0 && offset < size * events
    ensures offset / size < events && offset == size * (offset / size) + offset % size && offset % size < size
  {
    Monotone(size, events, offset / size);
  }

  lemma Monotone(size: nat, a: nat, b: nat)
    ensures a <= b ==> size * a <= size * b
  {
    if a <= b {
      assert size * b == size * a + size * (b - a);
    }
  }

  /** Whole words and an offset into the first cover any run of text. */
  lemma TextPiece(n: nat, at: nat, take: nat)
    requires at + take <= n && take > 0
    ensures TextChunk(at, take) == TextRun(n)[at..at + take]
  {
    var run := TextRun(4 * ((take + 7) / 4));
    assert 4 * ((take + 7) / 4) >= take + 4 - 1;
    var chunk := TextChunk(at, take);
    assert |chunk| == take;
    forall i | 0 <= i < take ensures chunk[i] == TextRun(n)[at..at + take][i] {
      assert chunk[i] == run[at % 4 + i] == TEXT[(at % 4 + i) % 4];
      SameLetter(at, i);
    }
  }

  lemma SameLetter(at: nat, i: nat)
    ensures (at % 4 + i) % 4 == (at + i) % 4
  {}

  lemma PartLies(full: Bytes, at: nat, s: Bytes, pos: nat, take: nat)
    requires LiesAt(full, at, s) && pos + take <= |s|
    ensures at + pos + take <= |full| && full[at + pos..at + pos + take] == s[pos..pos + take]
    ensures LiesAt(full, at + pos, s[pos..pos + take])
  {
    SubSlice(full, at, |s|, pos, take);
  }

  /** Bytes lie in a part exactly when they are what the part has there. */
  lemma PartSame(full: Bytes, at: nat, s: Bytes, pos: nat, b: Bytes)
    requires LiesAt(full, at, s) && pos + |b| <= |s|
    ensures LiesAt(full, at + pos, b) <==> b == s[pos..pos + |b|]
  {
    PartLies(full, at, s, pos, |b|);
  }

  lemma TerminalChunkLies(head: Bytes, text: nat, tail: Bytes, pos: nat, length: nat)
    requires pos < |head| + text + |tail| && length > 0
    ensures var p := TerminalChunk(pos, length, head, text, tail);
      0 < |p| <= length && LiesAt(head + (TextRun(text) + tail), pos, p)
  {
    hide TextChunk, TextRun, LiesAt;
    Parts(head, TextRun(text), tail);
    var all := head + (TextRun(text) + tail);
    if pos < |head| {
      SliceLies(all, 0, head, pos, length);
    } else if pos < |head| + text {
      var take := Min(length, text - (pos - |head|));
      TextPiece(text, pos - |head|, take);
      PartLies(all, |head|, TextRun(text), pos - |head|, take);
    } else {
      SliceLies(all, |head| + text, tail, pos - |head| - text, length);
    }
  }

  lemma TerminalPiece(offset: nat, length: nat, tokens: nat, events: nat)
    requires DeltasSize(tokens, events) <= offset && length > 0
    ensures
      var p, pos := Piece(offset, length, tokens, events), offset - DeltasSize(tokens, events);
      if pos < TerminalSize(tokens, events) then 0 < |p| <= length && LiesAt(Terminal(tokens, events), pos, p) else p == []
  {
    hide Head, TextLength, TAIL, TextRun, DeltasSize, DeltaChunk;
    var pos := offset - DeltasSize(tokens, events);
    if pos < TerminalSize(tokens, events) {
      TerminalChunkLies(Head(events), TextLength(tokens, events), TAIL, pos, length);
    }
  }

  lemma PieceFits(offset: nat, length: nat, tokens: nat, events: nat)
    ensures |Piece(offset, length, tokens, events)| <= length
  {
    hide Delta, Head, DeltasSize, RecordSize, TextLength, TAIL, TextRun;
  }

  /** Each piece is the beginning of what is asked for; past the end there is none. */
  lemma PieceExact(offset: nat, length: nat, tokens: nat, events: nat)
    requires events <= FIVE_DIGITS && length > 0
    ensures
      var p, full := Piece(offset, length, tokens, events), Full(tokens, events);
      && |p| <= length && (p != [] <==> offset < |full|)
      && (offset < |full| ==> LiesAt(full, offset, p))
  {
    hide Piece, Full, Records, Terminal, DeltasSize, TerminalSize;
    Layout(tokens, events);
    var full, total := Full(tokens, events), DeltasSize(tokens, events);
    if offset < total {
      DeltaPiece(offset, length, tokens, events);
      LiesWithin(full, 0, Records(tokens, events), offset, Piece(offset, length, tokens, events));
    } else {
      TerminalPiece(offset, length, tokens, events);
      if offset < |full| {
        LiesWithin(full, total, Terminal(tokens, events), offset - total, Piece(offset, length, tokens, events));
      }
    }
  }

  // ---------------------------------------------------------------- the two programs

  /** Pieces until as much was read as asked for, unless one is missing. */
  function Reads(offset: nat, length: nat, tokens: nat, events: nat): Option<Bytes>
    decreases length
  {
    if length == 0 then Some([])
    else
      PieceFits(offset, length, tokens, events);
      var p := Piece(offset, length, tokens, events);
      if p == [] then None
      else
        match Reads(offset + |p|, length - |p|, tokens, events)
        case None => None
        case Some(rest) => Some(p + rest)
  }

  /** What `body` returns; no value is a failed assertion. */
  function BodyOf(start: nat, count: nat, tokens: nat, events: nat): Option<Bytes> {
    if count > WINDOW then None else Reads(start, count, tokens, events)
  }

  method Body(start: nat, count: nat, tokens: nat, events: nat) returns (r: Option<Bytes>)
    ensures r == BodyOf(start, count, tokens, events)
  {
    hide Piece;
    if count > WINDOW {
      return None;
    }
    var out: Bytes := [];
    var offset: nat, length: nat := start, count;
    ghost var rest := Reads(start, count, tokens, events);
    assert rest.Some? ==> [] + rest.value == rest.value;
    while length > 0
      invariant rest == Reads(offset, length, tokens, events)
      invariant Reads(start, count, tokens, events) == if rest.None? then None else Some(out + rest.value)
    {
      PieceFits(offset, length, tokens, events);
      var chunk := Piece(offset, length, tokens, events);
      if chunk == [] {
        return None;
      }
      rest := Reads(offset + |chunk|, length - |chunk|, tokens, events);
      if rest.Some? {
        Regroup(out, chunk, rest.value);
      }
      out := out + chunk;
      offset := offset + |chunk|;
      length := length - |chunk|;
    }
    assert out + [] == out;
    r := Some(out);
  }

  /** Reading where every piece lies in the response gives the slice asked for. */
  lemma {:induction false} ReadsLie(offset: nat, length: nat, tokens: nat, events: nat)
    requires events <= FIVE_DIGITS
    ensures var full := Full(tokens, events);
      Reads(offset, length, tokens, events) ==
      if length == 0 then Some([]) else if offset + length <= |full| then Some(full[offset..offset + length]) else None
    decreases length
  {
    hide Piece, Full;
    if length > 0 {
      PieceExact(offset, length, tokens, events);
      var p := Piece(offset, length, tokens, events);
      if p != [] {
        ReadsLie(offset + |p|, length - |p|, tokens, events);
        if offset + length <= |Full(tokens, events)| {
          Joined(Full(tokens, events), offset, |p|, length);
        }
      }
    }
  }

  lemma Joined(full: Bytes, at: nat, a: nat, length: nat)
    requires a <= length && at + length <= |full|
    ensures full[at..at + a] + full[at + a..at + length] == full[at..at + length]
    ensures full[at + length..at + length] == []
  {}

  /** Up to 100000 events, `body` returns exactly the slice of the response asked for, when it is no larger than a window and all there. */
  lemma BodyExact(start: nat, count: nat, tokens: nat, events: nat)
    requires events <= FIVE_DIGITS
    ensures var full := Full(tokens, events);
      BodyOf(start, count, tokens, events) ==
      if count > WINDOW then None
      else if count == 0 then Some([])
      else if start + count <= |full| then Some(full[start..start + count]) else None
  {
    ReadsLie(start, count, tokens, events);
  }

  lemma {:induction false} ReadsRecords(offset: nat, length: nat, tokens: nat, events: nat)
    requires offset + length <= RecordsSize(tokens, events)
    ensures RecordsSize(tokens, events) <= |Full(tokens, events)|
    ensures Reads(offset, length, tokens, events) == Some(Full(tokens, events)[offset..offset + length])
    decreases length
  {
    hide Piece, Full, Records, RecordsSize;
    Layout(tokens, events);
    var full := Full(tokens, events);
    Joined(full, offset, 0, 0);
    if length > 0 {
      DeltaPiece(offset, length, tokens, events);
      var p := Piece(offset, length, tokens, events);
      LiesWithin(full, 0, Records(tokens, events), offset, p);
      ReadsRecords(offset + |p|, length - |p|, tokens, events);
      Joined(full, offset, |p|, length);
    }
  }

  /**
   * For any number of events, slices among the first 100000 records are exact; past 100000 events
   * the last byte of the response cannot be read, since `body` takes the response to be shorter.
   */
  lemma BodyBeyond(start: nat, count: nat, tokens: nat, events: nat)
    ensures count <= WINDOW && start + count <= RecordsSize(tokens, events) ==>
      RecordsSize(tokens, events) <= |Full(tokens, events)|
      && BodyOf(start, count, tokens, events) == Some(Full(tokens, events)[start..start + count])
    ensures count > 0 && start >= DeltasSize(tokens, events) + TerminalSize(tokens, events) ==>
      BodyOf(start, count, tokens, events) == None
    ensures events > FIVE_DIGITS ==> |Full(tokens, events)| > 0 && BodyOf(|Full(tokens, events)| - 1, 1, tokens, events) == None
  {
    hide Piece, Full, Records, RecordsSize, DeltasSize, TerminalSize;
    if count <= WINDOW && start + count <= RecordsSize(tokens, events) {
      ReadsRecords(start, count, tokens, events);
    }
    DimensionsExact(tokens, events);
    if count > 0 {
      PastEnd(start, count, tokens, events);
    }
    if events > FIVE_DIGITS {
      PastEnd(|Full(tokens, events)| - 1, 1, tokens, events);
    }
  }

  lemma PastEnd(start: nat, count: nat, tokens: nat, events: nat)
    requires count > 0
    ensures start >= DeltasSize(tokens, events) + TerminalSize(tokens, events) ==> BodyOf(start, count, tokens, events) == None
  {
    hide Piece, DeltasSize, TerminalSize;
    if start >= DeltasSize(tokens, events) + TerminalSize(tokens, events) {
      TerminalPiece(start, count, tokens, events);
    }
  }

  /** What a server sends that reads chunks of these sizes one after another. */
  function Chunks(start: nat, sizes: seq<nat>, tokens: nat, events: nat): Option<Bytes>
    decreases |sizes|
  {
    if sizes == [] then Some([])
    else
      match BodyOf(start, sizes[0], tokens, events)
      case None => None
      case Some(first) =>
        match Chunks(start + sizes[0], sizes[1..], tokens, events)
        case None => None
        case Some(rest) => Some(first + rest)
  }

  function Sum(sizes: seq<nat>): nat
    decreases |sizes|
  {
    if sizes == [] then 0 else sizes[0] + Sum(sizes[1..])
  }

  /** However the response is cut into chunks of at most a window, what is sent is the response. */
  lemma {:induction false} ChunksConcatenate(start: nat, sizes: seq<nat>, tokens: nat, events: nat)
    requires events <= FIVE_DIGITS && start + Sum(sizes) <= |Full(tokens, events)|
    requires forall i :: 0 <= i < |sizes| ==> sizes[i] <= WINDOW
    ensures Chunks(start, sizes, tokens, events) == Some(Full(tokens, events)[start..start + Sum(sizes)])
    decreases |sizes|
  {
    hide BodyOf, Full;
    Joined(Full(tokens, events), start, 0, 0);
    if sizes != [] {
      BodyExact(start, sizes[0], tokens, events);
      ChunksConcatenate(start + sizes[0], sizes[1..], tokens, events);
      Joined(Full(tokens, events), start, sizes[0], Sum(sizes));
    }
  }

  // ---------------------------------------------------------------- the verifier

  /** What the verifier compares a chunk with that starts at an offset: the part of the response it can reach from there. */
  ghost function Reachable(start: nat, tokens: nat, events: nat): (nat, Bytes) {
    if events <= FIVE_DIGITS then (0, Full(tokens, events))
    else if start < RecordsSize(tokens, events) then (0, Records(tokens, events))
    else if start < DeltasSize(tokens, events) then (start, [])
    else (DeltasSize(tokens, events), Terminal(tokens, events))
  }

  /** The region lies at its base among what the verifier addresses, and ends where its comparison does. */
  ghost predicate Region(base: nat, region: Bytes, tokens: nat, events: nat) {
    || (events <= FIVE_DIGITS && base == 0 && region == Full(tokens, events))
    || (events > FIVE_DIGITS && base == 0 && region == Records(tokens, events))
    || (events > FIVE_DIGITS && region == [] && RecordsSize(tokens, events) <= base < DeltasSize(tokens, events))
    || (events > FIVE_DIGITS && base == DeltasSize(tokens, events) && region == Terminal(tokens, events))
  }

  /** The verifier's piece at an offset, and whether the bytes agree with it. */
  method VerifyPiece(bytes: Bytes, offset: nat, tokens: nat, events: nat, ghost base: nat, ghost region: Bytes)
      returns (take: nat, same: bool)
    requires bytes != [] && Region(base, region, tokens, events) && base <= offset <= base + |region|
    ensures same ==> 0 < take <= |bytes| && LiesAt(region, offset - base, bytes[..take])
    ensures !same ==> !LiesAt(region, offset - base, bytes)
  {
    hide Region, LiesAt, DeltasSize, RecordsSize, TerminalSize;
    TerminalReached(offset, tokens, events, base, region);
    var total := DeltasSize(tokens, events);
    if offset < total {
      take, same := VerifyDelta(bytes, offset, tokens, events);
      DeltaVerdict(bytes, offset, tokens, events, base, region, take, same);
    } else {
      take, same := VerifyTerminal(bytes, offset - total, tokens, events);
      TerminalVerdict(bytes, offset, tokens, events, base, region, take, same);
    }
  }

  /** An offset past the records is in a region that holds the terminal record; and one among them in one that holds those before it. */
  lemma TerminalReached(offset: nat, tokens: nat, events: nat, base: nat, region: Bytes)
    requires Region(base, region, tokens, events) && base <= offset <= base + |region|
    ensures
      var total := DeltasSize(tokens, events);
      offset >= total ==>
        && base <= total && LiesAt(region, total - base, Terminal(tokens, events))
        && base + |region| == total + TerminalSize(tokens, events)
    ensures offset < RecordsSize(tokens, events) ==> base == 0 && LiesAt(region, 0, Records(tokens, events))
    ensures RecordsSize(tokens, events) <= offset < DeltasSize(tokens, events) ==> offset == base + |region|
  {
    hide Full, DeltasSize, Records, RecordsSize, Terminal, TerminalSize;
    Layout(tokens, events);
    WholeLies(Records(tokens, events));
    WholeLies(Terminal(tokens, events));
    GapBetween(tokens, events);
  }

  lemma DeltaVerdict(bytes: Bytes, offset: nat, tokens: nat, events: nat, base: nat, region: Bytes, take: nat, same: bool)
    requires bytes != [] && Region(base, region, tokens, events) && base <= offset <= base + |region|
    requires offset < DeltasSize(tokens, events) && take <= |bytes|
    requires offset >= RecordsSize(tokens, events) ==> !same
    requires offset < RecordsSize(tokens, events) ==>
      && 0 < take && offset + take <= |Records(tokens, events)|
      && (same <==> LiesAt(Records(tokens, events), offset, bytes[..take]))
    ensures same ==> 0 < take && LiesAt(region, offset - base, bytes[..take])
    ensures !same ==> !LiesAt(region, offset - base, bytes)
  {
    hide Region, LiesAt, DeltasSize, Records, RecordsSize, TerminalSize;
    TerminalReached(offset, tokens, events, base, region);
    if offset < RecordsSize(tokens, events) {
      Elsewhere(region, base, Records(tokens, events), 0, offset, bytes, take);
    } else {
      NothingPast(region, bytes);
    }
  }

  lemma TerminalVerdict(bytes: Bytes, offset: nat, tokens: nat, events: nat, base: nat, region: Bytes, take: nat, same: bool)
    requires bytes != [] && Region(base, region, tokens, events) && base <= offset <= base + |region|
    requires DeltasSize(tokens, events) <= offset && take <= |bytes|
    requires offset - DeltasSize(tokens, events) + take <= |Terminal(tokens, events)|
    requires take == 0 <==> offset - DeltasSize(tokens, events) == TerminalSize(tokens, events)
    requires same <==> take > 0 && LiesAt(Terminal(tokens, events), offset - DeltasSize(tokens, events), bytes[..take])
    ensures same ==> 0 < take && LiesAt(region, offset - base, bytes[..take])
    ensures !same ==> !LiesAt(region, offset - base, bytes)
  {
    hide Region, LiesAt, DeltasSize, Terminal, TerminalSize;
    TerminalReached(offset, tokens, events, base, region);
    if take > 0 {
      Elsewhere(region, base, Terminal(tokens, events), DeltasSize(tokens, events), offset, bytes, take);
    } else {
      NothingPast(region, bytes);
    }
  }

  lemma NothingPast(region: Bytes, bytes: Bytes)
    requires bytes != []
    ensures !LiesAt(region, |region|, bytes)
  {}

  lemma WholeLies(s: Bytes)
    ensures LiesAt(s, 0, s)
  {}

  /** Past 100000 events some records cannot be verified at all. */
  lemma GapBetween(tokens: nat, events: nat)
    ensures events > FIVE_DIGITS ==> RecordsSize(tokens, events) < DeltasSize(tokens, events)
  {
    hide RecordSize;
    if events > FIVE_DIGITS {
      assert RecordSize(tokens) * events == RecordSize(tokens) * FIVE_DIGITS + RecordSize(tokens) * (events - FIVE_DIGITS);
    }
  }

  /** A record with more digits is not of the expected length, and is refused. */
  method VerifyDelta(bytes: Bytes, offset: nat, tokens: nat, events: nat) returns (take: nat, same: bool)
    requires bytes != [] && offset < DeltasSize(tokens, events)
    ensures take <= |bytes|
    ensures offset >= RecordsSize(tokens, events) ==> !same
    ensures offset < RecordsSize(tokens, events) ==>
      && 0 < take && offset + take <= |Records(tokens, events)|
      && (same <==> LiesAt(Records(tokens, events), offset, bytes[..take]))
  {
    hide Delta, Head, Full, TAIL, TextLength, TextRun, Records, RecordSize, RecordsSize, DeltasSize, Divide;
    Layout(tokens, events);
    RecordAt(offset, tokens, events);
    var size := RecordSize(tokens);
    var (index, pos) := Divide(offset, size);
    var record := Delta(index, tokens);
    if |record| != size {
      return 0, false;
    }
    take := Min(size - pos, |bytes|);
    PartLies(Records(tokens, events), offset - pos, record, pos, take);
    same := bytes[..take] == record[pos..pos + take];
  }

  method VerifyTerminal(bytes: Bytes, pos: nat, tokens: nat, events: nat) returns (take: nat, same: bool)
    requires bytes != [] && pos <= TerminalSize(tokens, events)
    ensures take <= |bytes| && pos + take <= |Terminal(tokens, events)| == TerminalSize(tokens, events)
    ensures take == 0 <==> pos == TerminalSize(tokens, events)
    ensures same <==> take > 0 && LiesAt(Terminal(tokens, events), pos, bytes[..take])
  {
    hide Head, TextLength, TAIL, TextRun, LiesAt;
    Parts(Head(events), TextRun(TextLength(tokens, events)), TAIL);
    ghost var all := Terminal(tokens, events);
    var head, text, length := Head(events), TextLength(tokens, events), |bytes|;
    if pos < |head| {
      take := Min(|head| - pos, length);
      same := bytes[..take] == head[pos..pos + take];
      PartSame(all, 0, head, pos, bytes[..take]);
    } else if pos < |head| + text {
      take := Min(|head| + text - pos, length);
      same := VerifyText(bytes, take, pos - |head|, text);
      PartSame(all, |head|, TextRun(text), pos - |head|, bytes[..take]);
    } else {
      var at := pos - |head| - text;
      take := Min(|TAIL| - at, length);
      same := take > 0 && bytes[..take] == TAIL[at..at + take];
      PartSame(all, |head| + text, TAIL, at, bytes[..take]);
    }
  }

  /** The verifier compares repeated text byte by byte. */
  method VerifyText(bytes: Bytes, take: nat, at: nat, text: nat) returns (same: bool)
    requires take <= |bytes| && at + take <= text
    ensures same <==> bytes[..take] == TextRun(text)[at..at + take]
  {
    ghost var run := TextRun(text)[at..at + take];
    for i := 0 to take
      invariant bytes[..i] == run[..i]
    {
      assert run[i] == TextRun(text)[at + i] == TEXT[(at + i) % 4];
      if bytes[i] != TEXT[(at + i) % 4] {
        assert bytes[..take][i] != run[i];
        return false;
      }
      assert bytes[..i + 1] == bytes[..i] + [bytes[i]] && run[..i + 1] == run[..i] + [run[i]];
    }
    assert run[..take] == run;
    same := true;
  }

  /**
   * `verify_fixture`: accepts a chunk at an offset exactly when the payload has the computed size and the chunk
   * is that slice of what can be reached from there, up to 100000 events the whole response.
   */
  method Verify(chunk: Bytes, start: nat, payload: nat, tokens: nat, events: nat) returns (ok: bool)
    requires start <= DeltasSize(tokens, events) + TerminalSize(tokens, events)
    ensures
      var (base, region) := Reachable(start, tokens, events);
      && base <= start
      && (ok <==> payload == DeltasSize(tokens, events) + TerminalSize(tokens, events) && LiesAt(region, start - base, chunk))
    ensures events <= FIVE_DIGITS ==> Reachable(start, tokens, events) == (0, Full(tokens, events))
  {
    hide Full, Reachable, Region, DeltasSize, TerminalSize;
    ReachableRegion(start, tokens, events);
    ghost var (base, region) := Reachable(start, tokens, events);
    if payload != DeltasSize(tokens, events) + TerminalSize(tokens, events) {
      return false;
    }
    var bytes, offset := chunk, start;
    while bytes != []
      invariant base <= offset <= base + |region|
      invariant LiesAt(region, start - base, chunk) <==> LiesAt(region, offset - base, bytes)
      decreases |bytes|
    {
      var take, same := VerifyPiece(bytes, offset, tokens, events, base, region);
      if !same {
        return false;
      }
      LiesRest(region, offset - base, bytes, take);
      bytes := bytes[take..];
      offset := offset + take;
    }
    ok := true;
  }

  lemma ReachableRegion(start: nat, tokens: nat, events: nat)
    requires start <= DeltasSize(tokens, events) + TerminalSize(tokens, events)
    ensures
      var (base, region) := Reachable(start, tokens, events);
      Region(base, region, tokens, events) && base <= start <= base + |region|
    ensures events <= FIVE_DIGITS ==> Reachable(start, tokens, events) == (0, Full(tokens, events))
  {
    hide Full, Records, Terminal, RecordsSize, DeltasSize, TerminalSize;
    Layout(tokens, events);
  }

  lemma LiesOn(full: Bytes, at: nat, a: Bytes, b: Bytes)
    requires LiesAt(full, at, a) && LiesAt(full, at + |a|, b)
    ensures LiesAt(full, at, a + b)
  {
    assert full[at..at + |a + b|] == full[at..at + |a|] + full[at + |a|..at + |a| + |b|];
  }

  lemma LiesRest(full: Bytes, at: nat, s: Bytes, take: nat)
    requires take <= |s| && LiesAt(full, at, s[..take])
    ensures LiesAt(full, at, s) <==> LiesAt(full, at + take, s[take..])
  {
    assert s == s[..take] + s[take..];
    if LiesAt(full, at + take, s[take..]) {
      LiesOn(full, at, s[..take], s[take..]);
    }
    if LiesAt(full, at, s) {
      SubSlice(full, at, |s|, take, |s| - take);
    }
  }

  /** A part that lies in the region, compared with bytes that may be longer. */
  lemma Elsewhere(region: Bytes, base: nat, part: Bytes, at: nat, offset: nat, bytes: Bytes, take: nat)
    requires base <= at <= offset && LiesAt(region, at - base, part) && take <= |bytes|
    ensures LiesAt(part, offset - at, bytes[..take]) ==> LiesAt(region, offset - base, bytes[..take])
    ensures offset - at + take <= |part| && LiesAt(region, offset - base, bytes) ==> LiesAt(part, offset - at, bytes[..take])
  {
    if LiesAt(part, offset - at, bytes[..take]) {
      LiesWithin(region, at - base, part, offset - at, bytes[..take]);
    }
    if offset - at + take <= |part| && LiesAt(region, offset - base, bytes) {
      SubSlice(region, offset - base, |bytes|, 0, take);
      SubSlice(region, at - base, |part|, offset - at, take);
    }
  }
}
