/**
 * What the two writers of a request must produce, said of the stored rows alone: which fact
 * is the settings, which items and tool results each record contributes and how they are
 * carried, and which failure comes first.
 */
module BuiltRequests {
  import opened Bytes
  import opened Json
  import opened JsonValue
  import opened History
  import opened Snapshots
  import opened Selection
  import opened Request
  import opened Refinement

  // ---------------------------------------------------------------- the settings

  ghost predicate VisibleSettings(f: Fact, cutoff: nat) {
    f.kind == Settings && f.pos < cutoff
  }

  /** The body of a settings fact before the cutoff that no other one before the cutoff follows. */
  ghost predicate LatestSettings(facts: seq<Fact>, cutoff: nat, body: nat) {
    exists i :: 0 <= i < |facts| && VisibleSettings(facts[i], cutoff) && facts[i].body == body
      && forall j :: 0 <= j < |facts| && VisibleSettings(facts[j], cutoff) ==> facts[j].pos <= facts[i].pos
  }

  ghost predicate NoSettings(facts: seq<Fact>, cutoff: nat) {
    forall i :: 0 <= i < |facts| ==> !VisibleSettings(facts[i], cutoff)
  }

  lemma {:induction false} LastInOrder(facts: seq<Fact>, cutoff: nat)
    requires forall i, j :: 0 <= i < j < |facts| ==> facts[i].pos < facts[j].pos
    ensures SettingsOf(facts, cutoff).None? ==> NoSettings(facts, cutoff)
    ensures SettingsOf(facts, cutoff).Some? ==> LatestSettings(facts, cutoff, SettingsOf(facts, cutoff).value)
  {
    if facts != [] {
      var n := |facts| - 1;
      var front := facts[..n];
      LastInOrder(front, cutoff);
      if VisibleSettings(facts[n], cutoff) {
        assert forall j :: 0 <= j < |facts| && VisibleSettings(facts[j], cutoff) ==> facts[j].pos <= facts[n].pos;
      } else {
        assert forall i :: 0 <= i < n ==> facts[i] == front[i];
      }
    }
  }

  /** On every store of a run: the settings are the latest visible ones, and missing only if there are none. */
  lemma SettingsExact(s: Store, cutoff: nat)
    requires Ordered(s)
    ensures forall body: nat :: SettingsOf(s.facts, cutoff) == Some(body) <==> LatestSettings(s.facts, cutoff, body)
    ensures SettingsOf(s.facts, cutoff) == None <==> NoSettings(s.facts, cutoff)
  {
    LastInOrder(s.facts, cutoff);
    forall body: nat | LatestSettings(s.facts, cutoff, body) ensures SettingsOf(s.facts, cutoff) == Some(body) {
      OnlyLatest(s, cutoff, body);
    }
  }

  lemma OnlyLatest(s: Store, cutoff: nat, body: nat)
    requires Ordered(s) && LatestSettings(s.facts, cutoff, body)
    ensures !NoSettings(s.facts, cutoff)
    ensures forall other: nat :: LatestSettings(s.facts, cutoff, other) ==> other == body
  {}

  // ---------------------------------------------------------------- one payload, one item, one answer

  /** The payload is small enough to decode, undamaged, and decodes to `v`. */
  ghost predicate Readable(s: Store, body: nat, v: Value) {
    && body < |s.payloads| && |s.payloads[body].body| <= 65536
    && s.payloads[body].body == s.payloads[body].digest
    && Loads(s.payloads[body].body) == Some(v)
  }

  ghost predicate ReadFails(s: Store, body: nat, e: Failure) {
    if body >= |s.payloads| then e == Unavailable
    else if |s.payloads[body].body| > 65536 then e == ResourceExceeded
    else if s.payloads[body].body != s.payloads[body].digest then e == Unavailable
    else Loads(s.payloads[body].body) == None && e == Rejected
  }

  lemma ReadExact(s: Store, body: nat)
    ensures forall v :: ReadValue(s, body) == Ok(v) <==> Readable(s, body, v)
    ensures forall e :: ReadValue(s, body) == Err(e) <==> ReadFails(s, body, e)
  {}

  ghost predicate Falsy(v: Value) {
    || v == Null || v == Boolean(false) || v == String([]) || v == List([]) || v == Dict(map[])
    || (v.Number? && IsZero(v.lexeme))
  }

  ghost predicate Typed(v: Value, name: Key) {
    v.Dict? && Ascii("type") in v.m && v.m[Ascii("type")] == String(name)
  }

  /** Reasoning or a compaction whose private continuation is missing. */
  ghost predicate LacksContinuation(v: Value) {
    && (Typed(v, Ascii("reasoning")) || Typed(v, Ascii("compaction")))
    && (Ascii("encrypted_content") in v.m ==> Falsy(v.m[Ascii("encrypted_content")]))
  }

  /** A provider item is carried whole, but for `created_by`. */
  ghost predicate Carried(v: Value, item: Value) {
    && v.Dict? && Ascii("type") in v.m && !LacksContinuation(v)
    && item.Dict? && Ascii("created_by") !in item.m
    && forall k :: k != Ascii("created_by") ==> ((k in item.m) == (k in v.m)) && (k in v.m ==> item.m[k] == v.m[k])
  }

  ghost predicate CarryFails(v: Value, e: Failure) {
    if v.Dict? && Ascii("type") in v.m then LacksContinuation(v) && e == Unavailable else e == Rejected
  }

  lemma TypeIsKept()
    ensures Ascii("type") != Ascii("created_by") && Ascii("encrypted_content") != Ascii("created_by")
  {
    assert |Ascii("created_by")| == 10;
  }

  lemma CarryExact(v: Value)
    ensures match ProviderItem(v) case Ok(item) => Carried(v, item) case Err(e) => CarryFails(v, e)
  {
    TypeIsKept();
  }

  ghost predicate ItemRead(s: Store, body: nat, item: Value) {
    exists v :: Readable(s, body, v) && Carried(v, item)
  }

  ghost predicate ItemFails(s: Store, body: nat, e: Failure) {
    ReadFails(s, body, e) || exists v :: Readable(s, body, v) && CarryFails(v, e)
  }

  /** The tool result of a call, visible before the cutoff. */
  ghost predicate AnswersCall(s: Store, cutoff: nat, call: Key, t: Tool) {
    t in s.tools && t.call == call && t.pos < cutoff
  }

  ghost predicate Unanswered(s: Store, cutoff: nat, call: Key) {
    forall i :: 0 <= i < |s.tools| && s.tools[i].call == call ==> s.tools[i].pos >= cutoff
  }

  /** A function call contributes its tool result's value, any other item nothing. */
  ghost predicate AnswerRead(s: Store, cutoff: nat, body: nat, part: seq<Value>) {
    exists v :: Readable(s, body, v) && v.Dict? && Ascii("type") in v.m && AnswerOf(s, cutoff, v, part)
  }

  ghost predicate AnswerOf(s: Store, cutoff: nat, v: Value, part: seq<Value>)
    requires v.Dict?
  {
    if !Typed(v, Ascii("function_call")) then part == []
    else
      && Ascii("call_id") in v.m && v.m[Ascii("call_id")].String? && |part| == 1
      && exists t :: AnswersCall(s, cutoff, v.m[Ascii("call_id")].units, t) && Readable(s, t.body, part[0])
  }

  ghost predicate AnswerFails(s: Store, cutoff: nat, body: nat, e: Failure) {
    ReadFails(s, body, e) || exists v :: Readable(s, body, v) && AnswerMissing(s, cutoff, v, e)
  }

  ghost predicate AnswerMissing(s: Store, cutoff: nat, v: Value, e: Failure) {
    if !v.Dict? || Ascii("type") !in v.m then e == Rejected
    else
      && Typed(v, Ascii("function_call"))
      && if Ascii("call_id") !in v.m || !v.m[Ascii("call_id")].String? then e == Rejected
         else
           || (Unanswered(s, cutoff, v.m[Ascii("call_id")].units) && e == Unavailable)
           || exists t :: AnswersCall(s, cutoff, v.m[Ascii("call_id")].units, t) && ReadFails(s, t.body, e)
  }

  lemma {:induction false} ToolExact(tools: seq<Tool>, cutoff: nat, call: Key)
    ensures ToolResult(tools, cutoff, call).Some? ==>
      exists t :: t in tools && t.call == call && t.pos < cutoff && ToolResult(tools, cutoff, call) == Some(t.body)
    ensures ToolResult(tools, cutoff, call).None? ==>
      forall i :: 0 <= i < |tools| && tools[i].call == call ==> tools[i].pos >= cutoff
  {
    if tools != [] {
      var n := |tools| - 1;
      ToolExact(tools[..n], cutoff, call);
      assert tools == tools[..n] + [tools[n]];
    }
  }

  lemma AnswerExact(s: Store, cutoff: nat, body: nat)
    ensures
      match CallAnswer(s, cutoff, body)
      case Ok(part) => AnswerRead(s, cutoff, body, part)
      case Err(e) => AnswerFails(s, cutoff, body, e)
  {
    hide ToolResult, Loads;
    if ReadValue(s, body).Ok? {
      var v := ReadValue(s, body).value;
      assert Readable(s, body, v);
      if Typed(v, Ascii("function_call")) && CALL_ID in v.m && v.m[CALL_ID].String? {
        ToolExact(s.tools, cutoff, v.m[CALL_ID].units);
      }
    }
  }

  // ---------------------------------------------------------------- the passes over a result, and the records

  function Concat<T>(parts: seq<seq<T>>): seq<T> {
    if parts == [] then [] else Concat(parts[..|parts| - 1]) + parts[|parts| - 1]
  }

  ghost predicate ItemsRead(s: Store, bodies: seq<nat>, items: seq<Value>) {
    |items| == |bodies| && forall i :: 0 <= i < |bodies| ==> ItemRead(s, bodies[i], items[i])
  }

  /** The first item that cannot be carried fails the pass. */
  ghost predicate ItemsFail(s: Store, bodies: seq<nat>, e: Failure) {
    exists n, items :: 0 <= n < |bodies| && ItemsRead(s, bodies[..n], items) && ItemFails(s, bodies[n], e)
  }

  lemma {:induction false} ItemsExact(s: Store, bodies: seq<nat>)
    ensures
      match ItemsPass(s, bodies)
      case Ok(items) => ItemsRead(s, bodies, items)
      case Err(e) => ItemsFail(s, bodies, e)
  {
    hide ReadValue, ProviderItem, Carried, CarryFails, Readable, ReadFails;
    if bodies != [] {
      var n := |bodies| - 1;
      ItemsExact(s, bodies[..n]);
      if ItemsPass(s, bodies[..n]).Ok? {
        ReadExact(s, bodies[n]);
        if ReadValue(s, bodies[n]).Ok? {
          CarryExact(ReadValue(s, bodies[n]).value);
        }
        if ItemsPass(s, bodies).Err? {
          assert ItemFails(s, bodies[n], ItemsPass(s, bodies).error);
        }
      } else {
        ItemsFailLater(s, bodies, n, ItemsPass(s, bodies[..n]).error);
      }
    }
  }

  lemma ItemsFailLater(s: Store, bodies: seq<nat>, n: nat, e: Failure)
    requires n <= |bodies| && ItemsFail(s, bodies[..n], e)
    ensures ItemsFail(s, bodies, e)
  {
    hide ItemsRead, ItemFails;
    var m, items :| 0 <= m < n && ItemsRead(s, bodies[..n][..m], items) && ItemFails(s, bodies[..n][m], e);
    assert bodies[..n][..m] == bodies[..m];
  }

  ghost predicate AnswersRead(s: Store, cutoff: nat, bodies: seq<nat>, parts: seq<seq<Value>>) {
    |parts| == |bodies| && forall i :: 0 <= i < |bodies| ==> AnswerRead(s, cutoff, bodies[i], parts[i])
  }

  ghost predicate AnswersFail(s: Store, cutoff: nat, bodies: seq<nat>, e: Failure) {
    exists n, parts :: 0 <= n < |bodies| && AnswersRead(s, cutoff, bodies[..n], parts) && AnswerFails(s, cutoff, bodies[n], e)
  }

  lemma {:induction false} AnswersExact(s: Store, cutoff: nat, bodies: seq<nat>)
    ensures
      match AnswersPass(s, cutoff, bodies)
      case Ok(answers) => exists parts :: AnswersRead(s, cutoff, bodies, parts) && answers == Concat(parts)
      case Err(e) => AnswersFail(s, cutoff, bodies, e)
  {
    hide CallAnswer, AnswerRead, AnswerFails;
    if bodies == [] {
      assert AnswersRead(s, cutoff, bodies, []) && Concat<Value>([]) == [];
    } else {
      var n := |bodies| - 1;
      AnswersExact(s, cutoff, bodies[..n]);
      AnswerExact(s, cutoff, bodies[n]);
      if AnswersPass(s, cutoff, bodies[..n]).Err? {
        AnswersFailLater(s, cutoff, bodies, n, AnswersPass(s, cutoff, bodies[..n]).error);
      } else {
        var front :| AnswersRead(s, cutoff, bodies[..n], front) && AnswersPass(s, cutoff, bodies[..n]).value == Concat(front);
        if CallAnswer(s, cutoff, bodies[n]).Ok? {
          var part := CallAnswer(s, cutoff, bodies[n]).value;
          ConcatMore(front, part);
          assert AnswersRead(s, cutoff, bodies, front + [part]);
        }
      }
    }
  }

  lemma AnswersFailLater(s: Store, cutoff: nat, bodies: seq<nat>, n: nat, e: Failure)
    requires n <= |bodies| && AnswersFail(s, cutoff, bodies[..n], e)
    ensures AnswersFail(s, cutoff, bodies, e)
  {
    hide AnswersRead, AnswerFails;
    var m, parts :| 0 <= m < n && AnswersRead(s, cutoff, bodies[..n][..m], parts) && AnswerFails(s, cutoff, bodies[..n][m], e);
    assert bodies[..n][..m] == bodies[..m];
  }

  lemma ConcatMore<T>(front: seq<seq<T>>, part: seq<T>)
    ensures Concat(front + [part]) == Concat(front) + part
  {
    assert (front + [part])[..|front|] == front;
  }

  /** The payloads of a visible result's items: all of them, or from the anchor of a compaction. */
  ghost predicate OutputRows(s: Store, cutoff: nat, c: Chosen, row: ResultRow, lo: nat) {
    && row in s.results && row.pos == c.entry.key < cutoff && lo <= |row.items|
    && if c.anchored then row.anchor == Some(lo) else lo == 0
  }

  /** What one record contributes: a host value, or a result's items and then the answers to its calls. */
  ghost predicate RecordRead(s: Store, cutoff: nat, c: Chosen, part: seq<Value>) {
    if c.entry.kind == UserEntry || c.entry.kind == InstructionEntry then |part| == 1 && Readable(s, c.entry.key, part[0])
    else exists row, lo: nat :: OutputRows(s, cutoff, c, row, lo) && OutputRead(s, cutoff, row.items[lo..], part)
  }

  ghost predicate OutputRead(s: Store, cutoff: nat, bodies: seq<nat>, part: seq<Value>) {
    exists items, parts :: ItemsRead(s, bodies, items) && AnswersRead(s, cutoff, bodies, parts) && part == items + Concat(parts)
  }

  ghost predicate RecordFails(s: Store, cutoff: nat, c: Chosen, e: Failure) {
    if c.entry.kind == UserEntry || c.entry.kind == InstructionEntry then ReadFails(s, c.entry.key, e)
    else exists row, lo: nat :: OutputRows(s, cutoff, c, row, lo) && OutputFails(s, cutoff, row.items[lo..], e)
  }

  /** Every item is carried before the first answer is looked for. */
  ghost predicate OutputFails(s: Store, cutoff: nat, bodies: seq<nat>, e: Failure) {
    || ItemsFail(s, bodies, e)
    || exists items :: ItemsRead(s, bodies, items) && AnswersFail(s, cutoff, bodies, e)
  }

  /** A selected result leads to its row, and to where its output starts. */
  lemma OutputRow(s: Store, cutoff: nat, c: Chosen) returns (row: ResultRow, lo: nat)
    requires Valid(s) && OkRecord(s, cutoff, c) && !IsHostInput(c.entry.kind)
    ensures OutputRows(s, cutoff, c, row, lo) && VisibleResult(s, cutoff, c.entry.key) == Some(row)
    ensures ModelOutput(s, cutoff, c.entry.key, c.anchored) == Ok(row.items[lo..])
    ensures ToolResults(s, cutoff, c.entry.key, c.anchored) == CallResults(s, cutoff, row, lo, |row.items|)
  {
    hide InStore, Ordered, CallResults;
    ResultOfEntry(s, cutoff, c.entry);
    row := VisibleResult(s, cutoff, c.entry.key).value;
    lo := if c.anchored then row.anchor.value else 0;
    FoundStored(s.results, c.entry.key);
    assert row.items[0..] == row.items;
  }

  lemma {:induction false} FoundStored(results: seq<ResultRow>, pos: nat)
    ensures FindResult(results, pos).Some? ==> FindResult(results, pos).value in results && FindResult(results, pos).value.pos == pos
  {
    if results != [] {
      FoundStored(results[..|results| - 1], pos);
    }
  }

  lemma RecordExact(s: Store, cutoff: nat, c: Chosen)
    requires Valid(s) && OkRecord(s, cutoff, c)
    ensures
      match RecordValues(s, cutoff, c)
      case Ok(part) => RecordRead(s, cutoff, c, part)
      case Err(e) => RecordFails(s, cutoff, c, e)
  {
    hide Valid, OkRecord, ReadValue, ItemsPass, AnswersPass, ItemsRead, ItemsFail, AnswersRead, AnswersFail, ReadFails, Readable;
    if IsHostInput(c.entry.kind) {
      ReadExact(s, c.entry.key);
    } else {
      var row, lo := OutputRow(s, cutoff, c);
      ItemsExact(s, row.items[lo..]);
      AnswersExact(s, cutoff, row.items[lo..]);
    }
  }

  ghost predicate InputRead(s: Store, cutoff: nat, records: seq<Chosen>, parts: seq<seq<Value>>) {
    |parts| == |records| && forall i :: 0 <= i < |records| ==> RecordRead(s, cutoff, records[i], parts[i])
  }

  ghost predicate InputStops(s: Store, cutoff: nat, records: seq<Chosen>, e: Failure) {
    exists n, parts :: 0 <= n < |records| && InputRead(s, cutoff, records[..n], parts) && RecordFails(s, cutoff, records[n], e)
  }

  lemma {:induction false} InputExact(s: Store, cutoff: nat, records: seq<Chosen>)
    requires Valid(s) && forall i :: 0 <= i < |records| ==> OkRecord(s, cutoff, records[i])
    ensures
      match InputValues(s, cutoff, records)
      case Ok(input) => exists parts :: InputRead(s, cutoff, records, parts) && input == Concat(parts)
      case Err(e) => InputStops(s, cutoff, records, e)
  {
    hide Valid, OkRecord, RecordValues, RecordRead, RecordFails;
    if records == [] {
      assert InputRead(s, cutoff, records, []) && Concat<Value>([]) == [];
    } else {
      var n := |records| - 1;
      InputExact(s, cutoff, records[..n]);
      RecordExact(s, cutoff, records[n]);
      if InputValues(s, cutoff, records[..n]).Err? {
        InputStopsLater(s, cutoff, records, n, InputValues(s, cutoff, records[..n]).error);
      } else {
        var front :| InputRead(s, cutoff, records[..n], front) && InputValues(s, cutoff, records[..n]).value == Concat(front);
        if RecordValues(s, cutoff, records[n]).Ok? {
          var part := RecordValues(s, cutoff, records[n]).value;
          ConcatMore(front, part);
          assert InputRead(s, cutoff, records, front + [part]);
        }
      }
    }
  }

  lemma InputStopsLater(s: Store, cutoff: nat, records: seq<Chosen>, n: nat, e: Failure)
    requires n <= |records| && InputStops(s, cutoff, records[..n], e)
    ensures InputStops(s, cutoff, records, e)
  {
    hide InputRead, RecordFails;
    var m, parts :| 0 <= m < n && InputRead(s, cutoff, records[..n][..m], parts) && RecordFails(s, cutoff, records[..n][m], e);
    assert records[..n][..m] == records[..m];
  }

  // ---------------------------------------------------------------- the built request

  /** The settings' value and, record by record, what the selection contributes. */
  ghost predicate Built(s: Store, cutoff: nat, r: SimpleRequest)
    requires Valid(s)
  {
    && (exists body: nat :: LatestSettings(s.facts, cutoff, body) && Readable(s, body, r.settings))
    && (exists parts :: InputRead(s, cutoff, Records(s, cutoff), parts) && r.input == Concat(parts))
  }

  ghost predicate BuildFails(s: Store, cutoff: nat, e: Failure)
    requires Valid(s)
  {
    || (NoSettings(s.facts, cutoff) && e == Unavailable)
    || (exists body: nat :: LatestSettings(s.facts, cutoff, body)
         && (ReadFails(s, body, e) || ((exists v :: Readable(s, body, v)) && InputStops(s, cutoff, Records(s, cutoff), e))))
  }

  /** What the builder builds or fails with, on every store of a run, from the stored rows. */
  lemma RequestExact(s: Store, cutoff: nat)
    requires Valid(s)
    ensures match RequestOf(s, cutoff) case Ok(r) => Built(s, cutoff, r) case Err(e) => BuildFails(s, cutoff, e)
  {
    hide Ordered, OkResult, InputRead, InputStops, ReadFails, Readable, OkRecord, LatestSettings, NoSettings, Selected;
    SettingsExact(s, cutoff);
    SelectedShape(s, cutoff);
    RecordsOk(s, cutoff);
    InputExact(s, cutoff, Records(s, cutoff));
    var key := SettingsOf(s.facts, cutoff);
    if key.Some? {
      assert LatestSettings(s.facts, cutoff, key.value);
      ReadExact(s, key.value);
    }
  }

  // ---------------------------------------------------------------- the streamed plan

  /** An undamaged payload that spells an object with these members. */
  ghost predicate ObjectAt(s: Store, body: nat, members: Members) {
    && body < |s.payloads| && s.payloads[body].body == s.payloads[body].digest
    && exists lead, open, trail :: Spells(lead, Object(open, members), trail, s.payloads[body].body)
  }

  ghost predicate HasObject(s: Store, body: nat) {
    exists members :: ObjectAt(s, body, members)
  }

  lemma ObjectExact(s: Store, body: nat)
    ensures Copyable(s, body) ==> ObjectAt(s, body, ObjectOf(s, body).value) && HasObject(s, body)
    ensures !Copyable(s, body) ==> !HasObject(s, body)
  {
    hide Spells;
    if body < |s.payloads| {
      var text := s.payloads[body].body;
      if Parse(text).Some? {
        ParseSound(text);
      }
      forall lead, open, members, trail | Spells(lead, Object(open, members), trail, text)
        ensures Parse(text) == Some((lead, Object(open, members), trail))
      {
        ParseExact(lead, Object(open, members), trail, text);
      }
    }
  }

  ghost predicate RowAnswer(s: Store, cutoff: nat, row: ResultRow, o: nat, part: seq<nat>) {
    if o in row.calls then exists t :: AnswersCall(s, cutoff, row.calls[o], t) && part == [t.body] else part == []
  }

  /** The tool results of the call rows from `lo`, in item order. */
  ghost predicate RowAnswers(s: Store, cutoff: nat, row: ResultRow, lo: nat, hi: nat, parts: seq<seq<nat>>) {
    && lo <= hi && |parts| == hi - lo
    && forall i :: 0 <= i < |parts| ==> RowAnswer(s, cutoff, row, lo + i, parts[i])
  }

  ghost predicate RowUnanswered(s: Store, cutoff: nat, row: ResultRow, lo: nat, hi: nat) {
    exists o :: lo <= o < hi && o in row.calls && Unanswered(s, cutoff, row.calls[o])
  }

  lemma {:induction false} CallResultsExact(s: Store, cutoff: nat, row: ResultRow, lo: nat, hi: nat)
    requires lo <= hi
    ensures
      match CallResults(s, cutoff, row, lo, hi)
      case Ok(answers) => exists parts: seq<seq<nat>> :: RowAnswers(s, cutoff, row, lo, hi, parts) && answers == Concat(parts)
      case Err(e) => RowUnanswered(s, cutoff, row, lo, hi)
    decreases hi
  {
    hide RowAnswer, Unanswered, ToolResult;
    if hi == lo {
      assert RowAnswers(s, cutoff, row, lo, hi, []) && Concat<nat>([]) == [];
    } else {
      CallResultsExact(s, cutoff, row, lo, hi - 1);
      if CallResults(s, cutoff, row, lo, hi - 1).Ok? {
        var part := RowExact(s, cutoff, row, hi - 1);
        if part.Some? {
          var found := CallResults(s, cutoff, row, lo, hi - 1).value;
          var front: seq<seq<nat>> :| RowAnswers(s, cutoff, row, lo, hi - 1, front) && found == Concat(front);
          ConcatMore(front, part.value);
          assert found + [] == found;
          assert RowAnswers(s, cutoff, row, lo, hi, front + [part.value]);
        }
      }
    }
  }

  /** One ordinal's tool results, or none when its call is unanswered. */
  lemma RowExact(s: Store, cutoff: nat, row: ResultRow, o: nat) returns (part: Option<seq<nat>>)
    ensures part.Some? ==> RowAnswer(s, cutoff, row, o, part.value)
    ensures part.None? ==> o in row.calls && Unanswered(s, cutoff, row.calls[o])
    ensures o !in row.calls ==> part == Some([])
    ensures o in row.calls ==> match ToolResult(s.tools, cutoff, row.calls[o]) case None => part == None case Some(body) => part == Some([body])
  {
    part := Some([]);
    if o in row.calls {
      ToolExact(s.tools, cutoff, row.calls[o]);
      var found := ToolResult(s.tools, cutoff, row.calls[o]);
      part := if found.Some? then Some([found.value]) else None;
    }
  }

  /** The payloads of one record: host input as it is, items without `created_by`, then tool results as they are. */
  ghost predicate RecordPlanned(s: Store, cutoff: nat, c: Chosen, part: seq<Emission>) {
    if c.entry.kind == UserEntry || c.entry.kind == InstructionEntry then part == [Emission(c.entry.key, false)]
    else exists row, lo: nat :: OutputRows(s, cutoff, c, row, lo) && OutputPlanned(s, cutoff, row, lo, part)
  }

  ghost predicate OutputPlanned(s: Store, cutoff: nat, row: ResultRow, lo: nat, part: seq<Emission>)
    requires lo <= |row.items|
  {
    exists parts: seq<seq<nat>> :: RowAnswers(s, cutoff, row, lo, |row.items|, parts) && InTurn(row.items[lo..], Concat(parts), part)
  }

  /** The items, each a provider's, and then the answers. */
  ghost predicate InTurn(items: seq<nat>, answers: seq<nat>, part: seq<Emission>) {
    && |part| == |items| + |answers|
    && (forall i :: 0 <= i < |items| ==> part[i] == Emission(items[i], true))
    && (forall i :: 0 <= i < |answers| ==> part[|items| + i] == Emission(answers[i], false))
  }

  ghost predicate RecordUnanswered(s: Store, cutoff: nat, c: Chosen) {
    && c.entry.kind != UserEntry && c.entry.kind != InstructionEntry
    && exists row, lo: nat :: OutputRows(s, cutoff, c, row, lo) && RowUnanswered(s, cutoff, row, lo, |row.items|)
  }

  lemma PlannedExact(s: Store, cutoff: nat, c: Chosen)
    requires Valid(s) && OkRecord(s, cutoff, c)
    ensures
      match RecordEmissions(s, cutoff, c)
      case Ok(part) => RecordPlanned(s, cutoff, c, part)
      case Err(e) => RecordUnanswered(s, cutoff, c)
  {
    hide Valid, OkRecord, CallResults, RowAnswers, RowUnanswered;
    if !IsHostInput(c.entry.kind) {
      var row, lo := OutputRow(s, cutoff, c);
      CallResultsExact(s, cutoff, row, lo, |row.items|);
      if RecordEmissions(s, cutoff, c).Ok? {
        var answers := CallResults(s, cutoff, row, lo, |row.items|).value;
        var parts: seq<seq<nat>> :| RowAnswers(s, cutoff, row, lo, |row.items|, parts) && answers == Concat(parts);
        assert InTurn(row.items[lo..], Concat(parts), RecordEmissions(s, cutoff, c).value);
        assert OutputPlanned(s, cutoff, row, lo, RecordEmissions(s, cutoff, c).value);
      }
    }
  }

  ghost predicate InputPlanned(s: Store, cutoff: nat, records: seq<Chosen>, parts: seq<seq<Emission>>) {
    |parts| == |records| && forall i :: 0 <= i < |records| ==> RecordPlanned(s, cutoff, records[i], parts[i])
  }

  lemma {:induction false} EmissionsExact(s: Store, cutoff: nat, records: seq<Chosen>)
    requires Valid(s) && forall i :: 0 <= i < |records| ==> OkRecord(s, cutoff, records[i])
    ensures
      match Emissions(s, cutoff, records)
      case Ok(ems) => exists parts :: InputPlanned(s, cutoff, records, parts) && ems == Concat(parts)
      case Err(e) => exists n :: 0 <= n < |records| && RecordUnanswered(s, cutoff, records[n])
  {
    hide Valid, OkRecord, RecordEmissions, RecordPlanned, RecordUnanswered;
    if records == [] {
      assert InputPlanned(s, cutoff, records, []) && Concat<Emission>([]) == [];
    } else {
      var n := |records| - 1;
      EmissionsExact(s, cutoff, records[..n]);
      PlannedExact(s, cutoff, records[n]);
      if Emissions(s, cutoff, records).Ok? {
        var front :| InputPlanned(s, cutoff, records[..n], front) && Emissions(s, cutoff, records[..n]).value == Concat(front);
        var part := RecordEmissions(s, cutoff, records[n]).value;
        ConcatMore(front, part);
        assert InputPlanned(s, cutoff, records, front + [part]);
      }
    }
  }

  /** The members of the latest settings and, record by record, the payloads to copy, all of them undamaged objects. */
  ghost predicate Planned(s: Store, cutoff: nat, plan: Plan)
    requires Valid(s)
  {
    && (exists body: nat :: LatestSettings(s.facts, cutoff, body) && ObjectAt(s, body, plan.settings))
    && (exists parts :: InputPlanned(s, cutoff, Records(s, cutoff), parts) && plan.ems == Concat(parts))
    && (forall i :: 0 <= i < |plan.ems| ==> HasObject(s, plan.ems[i].body))
  }

  ghost predicate SomeNoObject(s: Store, ems: seq<Emission>) {
    exists i :: 0 <= i < |ems| && !HasObject(s, ems[i].body)
  }

  /** There are no settings to copy, an answer is missing, or a payload that is due is not an undamaged object. */
  ghost predicate NotPlannable(s: Store, cutoff: nat)
    requires Valid(s)
  {
    || NoSettings(s.facts, cutoff)
    || (exists body: nat :: LatestSettings(s.facts, cutoff, body) && !HasObject(s, body))
    || (exists n :: 0 <= n < |Records(s, cutoff)| && RecordUnanswered(s, cutoff, Records(s, cutoff)[n]))
    || (exists parts :: InputPlanned(s, cutoff, Records(s, cutoff), parts) && SomeNoObject(s, Concat(parts)))
  }

  lemma PlanExact(s: Store, cutoff: nat)
    requires Valid(s)
    ensures match PlanOf(s, cutoff) case Ok(plan) => Planned(s, cutoff, plan) case Err(e) => NotPlannable(s, cutoff)
  {
    hide Ordered, OkResult, InputPlanned, OkRecord, LatestSettings, NoSettings, Selected, ObjectAt, HasObject, Copyable, RecordUnanswered;
    SettingsExact(s, cutoff);
    SelectedShape(s, cutoff);
    RecordsOk(s, cutoff);
    EmissionsExact(s, cutoff, Records(s, cutoff));
    var key := SettingsOf(s.facts, cutoff);
    if key.Some? {
      assert LatestSettings(s.facts, cutoff, key.value);
      ObjectExact(s, key.value);
    }
    var ems := Emissions(s, cutoff, Records(s, cutoff));
    if ems.Ok? {
      EmittedKnown(s, ems.value);
    }
  }

  lemma EmittedKnown(s: Store, ems: seq<Emission>)
    ensures AllCopyable(s, ems) ==> forall i :: 0 <= i < |ems| ==> HasObject(s, ems[i].body)
    ensures !AllCopyable(s, ems) ==> exists i :: 0 <= i < |ems| && !HasObject(s, ems[i].body)
  {
    hide ObjectAt, HasObject, Copyable;
    forall i | 0 <= i < |ems|
      ensures Copyable(s, ems[i].body) ==> HasObject(s, ems[i].body)
      ensures !Copyable(s, ems[i].body) ==> !HasObject(s, ems[i].body)
    {
      ObjectExact(s, ems[i].body);
    }
  }
}
