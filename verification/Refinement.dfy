/**
 * The streaming writer refines the simple builder: whenever the builder succeeds, the
 * streamed bytes decode to the same request exactly when the settings, every host payload
 * and every tool result found are objects, and every selected function call has a call row.
 */
module Refinement {
  import opened Bytes
  import opened JsonValue
  import opened JsonCopy
  import opened History
  import opened Snapshots
  import opened Selection
  import opened Request
  import opened Streaming

  /** A stored item that decodes to a function call. */
  predicate IsCallBody(s: Store, body: nat) {
    body < |s.payloads| && var v := Loads(s.payloads[body].body); v.Some? && IsCall(v.value)
  }

  /** Every function call among the items from `lo` to `hi` was recorded when the result was accepted. */
  ghost predicate CallsRecorded(s: Store, row: ResultRow, lo: nat, hi: nat) {
    forall o :: lo <= o < hi <= |row.items| && o !in row.calls ==> !IsCallBody(s, row.items[o])
  }

  lemma ReadObject(s: Store, body: nat)
    requires ReadValue(s, body).Ok?
    ensures Intact(s, body) && (ReadValue(s, body).value.Dict? <==> Copyable(s, body))
    ensures Copyable(s, body) ==> ReadValue(s, body).value == EmissionValue(s, Emission(body, false))
    ensures ProviderItem(ReadValue(s, body).value).Ok? ==>
      Copyable(s, body) && ProviderItem(ReadValue(s, body).value).value == EmissionValue(s, Emission(body, true))
  {
    if Copyable(s, body) {
      ObjectOfOk(s, body);
    }
  }

  lemma {:induction false} ItemsRead(s: Store, bodies: seq<nat>)
    requires ItemsPass(s, bodies).Ok?
    ensures |ItemsPass(s, bodies).value| == |bodies|
    ensures forall i :: 0 <= i < |bodies| ==>
      Copyable(s, bodies[i]) && ItemsPass(s, bodies).value[i] == EmissionValue(s, Emission(bodies[i], true))
  {
    hide Loads, Copyable, ObjectOf, EmissionValue, ProviderItem, ReadValue;
    if bodies != [] {
      var n := |bodies| - 1;
      ItemsRead(s, bodies[..n]);
      ReadObject(s, bodies[n]);
    }
  }

  /** The answers of the call table, read, against the answers found by decoding each item. */
  lemma {:induction false} CallsAgree(s: Store, cutoff: nat, row: ResultRow, lo: nat, hi: nat)
    requires OkResult(s, row) && lo <= hi <= |row.items|
    requires AnswersPass(s, cutoff, row.items[lo..hi]).Ok?
    ensures CallResults(s, cutoff, row, lo, hi).Ok?
    ensures AnswersMatch(s, CallResults(s, cutoff, row, lo, hi).value, AnswersPass(s, cutoff, row.items[lo..hi]).value,
      CallsRecorded(s, row, lo, hi))
    decreases hi
  {
    hide CallAnswer, AnswersMatch, OkResult, IsCallBody, ReadValue;
    if hi > lo {
      var front, body := row.items[lo..hi - 1], row.items[hi - 1];
      assert row.items[lo..hi][..hi - 1 - lo] == front;
      CallsAgree(s, cutoff, row, lo, hi - 1);
      OneCallAgrees(s, cutoff, row, hi - 1);
      var found, read := CallResults(s, cutoff, row, lo, hi - 1).value, AnswersPass(s, cutoff, front).value;
      var recorded := CallsRecorded(s, row, lo, hi - 1);
      assert CallsRecorded(s, row, lo, hi) <==> recorded && (hi - 1 in row.calls || !IsCallBody(s, body));
      if hi - 1 in row.calls {
        var answer := ToolResult(s.tools, cutoff, row.calls[hi - 1]).value;
        AnsweredMore(s, found, read, recorded, [answer], CallAnswer(s, cutoff, body).value, true);
      } else {
        AnsweredMore(s, found, read, recorded, [], CallAnswer(s, cutoff, body).value, !IsCallBody(s, body));
        assert found + [] == found;
      }
    } else {
      assert row.items[lo..hi] == [];
      AnsweredNone(s);
    }
  }

  /** The answers found against those read: as many, and the same, exactly when all calls were recorded. */
  ghost predicate AnswersMatch(s: Store, found: seq<nat>, read: seq<Value>, recorded: bool) {
    && |found| <= |read|
    && (recorded <==> |found| == |read|)
    && (recorded ==> forall i :: 0 <= i < |found| ==> ReadValue(s, found[i]) == Ok(read[i]))
  }

  lemma AnsweredNone(s: Store)
    ensures AnswersMatch(s, [], [], true)
  {}

  lemma AnsweredMore(s: Store, a: seq<nat>, ra: seq<Value>, oa: bool, b: seq<nat>, rb: seq<Value>, ob: bool)
    requires AnswersMatch(s, a, ra, oa) && AnswersMatch(s, b, rb, ob)
    ensures AnswersMatch(s, a + b, ra + rb, oa && ob)
  {
    hide ReadValue;
    if oa && ob {
      forall i | 0 <= i < |a + b| ensures ReadValue(s, (a + b)[i]) == Ok((ra + rb)[i]) {
        if i >= |a| {
          assert (a + b)[i] == b[i - |a|] && (ra + rb)[i] == rb[i - |a|];
        }
      }
    }
  }

  /** One item: its call row, if it has one, leads to the answer its decoded call id leads to. */
  lemma OneCallAgrees(s: Store, cutoff: nat, row: ResultRow, o: nat)
    requires OkResult(s, row) && o < |row.items| && CallAnswer(s, cutoff, row.items[o]).Ok?
    ensures o in row.calls ==>
      var answer := ToolResult(s.tools, cutoff, row.calls[o]);
      answer.Some? && AnswersMatch(s, [answer.value], CallAnswer(s, cutoff, row.items[o]).value, true)
    ensures o !in row.calls ==>
      AnswersMatch(s, [], CallAnswer(s, cutoff, row.items[o]).value, !IsCallBody(s, row.items[o]))
  {
    hide ToolResult, Loads, Copyable;
    var body := row.items[o];
    if o in row.calls {
      assert NamesCall(s.payloads[body], row.calls[o]);
    }
  }

  /** Where the output of a selected result starts. */
  function StartOf(row: ResultRow, anchored: bool): nat {
    if anchored && row.anchor.Some? then row.anchor.value else 0
  }

  ghost predicate AllObjects(s: Store, bodies: seq<nat>) {
    forall i :: 0 <= i < |bodies| ==> ObjectOf(s, bodies[i]).Some?
  }

  /** What a record must satisfy for the streaming writer to write what the builder builds. */
  ghost predicate RecordStreams(s: Store, cutoff: nat, c: Chosen) {
    if IsHostInput(c.entry.kind) then ObjectOf(s, c.entry.key).Some?
    else
      match VisibleResult(s, cutoff, c.entry.key)
      case None => false
      case Some(row) =>
        && CallsRecorded(s, row, StartOf(row, c.anchored), |row.items|)
        && (match ToolResults(s, cutoff, c.entry.key, c.anchored) case Err(_) => true case Ok(found) => AllObjects(s, found))
  }

  /** A record as the selection yields it. */
  ghost predicate OkRecord(s: Store, cutoff: nat, c: Chosen) {
    && InStore(s, c.entry) && c.entry.pos < cutoff
    && (c.anchored ==> c.entry.kind == CompactionEntry)
  }

  /** Never more is streamed than built; as much, and the same, exactly when the record streams. */
  ghost predicate Agrees(s: Store, ems: seq<Emission>, values: seq<Value>, streams: bool) {
    && |ems| <= |values|
    && (streams ==> AllCopyable(s, ems) && EmissionValues(s, ems) == values)
    && (!streams ==> !AllCopyable(s, ems) || |ems| < |values|)
  }

  lemma HostAgrees(s: Store, cutoff: nat, c: Chosen)
    requires IsHostInput(c.entry.kind) && RecordValues(s, cutoff, c).Ok?
    ensures RecordEmissions(s, cutoff, c).Ok?
    ensures Agrees(s, RecordEmissions(s, cutoff, c).value, RecordValues(s, cutoff, c).value, RecordStreams(s, cutoff, c))
  {
    ReadObject(s, c.entry.key);
    var ems := RecordEmissions(s, cutoff, c).value;
    assert ems[0] == Emission(c.entry.key, false);
    if Copyable(s, c.entry.key) {
      assert EmissionValues(s, ems) == RecordValues(s, cutoff, c).value;
    }
  }

  /** The emissions of a result, given its items and the answers found for it. */
  lemma OutputAgrees(s: Store, bodies: seq<nat>, found: seq<nat>, items: seq<Value>, answers: seq<Value>, recorded: bool)
    requires |items| == |bodies| && AnswersMatch(s, found, answers, recorded)
    requires forall i :: 0 <= i < |bodies| ==>
      Copyable(s, bodies[i]) && items[i] == EmissionValue(s, Emission(bodies[i], true))
    ensures Agrees(s, Emitted(bodies, true) + Emitted(found, false), items + answers, recorded && AllObjects(s, found))
  {
    hide Agrees, AnswersMatch, Copyable, EmissionValue;
    ItemsAgree(s, bodies, items);
    AnswersAgree(s, found, answers, recorded);
    AgreesAppend(s, Emitted(bodies, true), items, true, Emitted(found, false), answers, recorded && AllObjects(s, found));
  }

  lemma ItemsAgree(s: Store, bodies: seq<nat>, items: seq<Value>)
    requires |items| == |bodies|
    requires forall i :: 0 <= i < |bodies| ==>
      Copyable(s, bodies[i]) && items[i] == EmissionValue(s, Emission(bodies[i], true))
    ensures Agrees(s, Emitted(bodies, true), items, true)
  {
    hide Copyable, EmissionValue;
  }

  lemma AnswersAgree(s: Store, found: seq<nat>, answers: seq<Value>, recorded: bool)
    requires AnswersMatch(s, found, answers, recorded)
    ensures Agrees(s, Emitted(found, false), answers, recorded && AllObjects(s, found))
  {
    hide ReadValue, EmissionValue, ObjectOf, Intact;
    var ems := Emitted(found, false);
    if recorded {
      forall i | 0 <= i < |found|
        ensures Copyable(s, found[i]) <==> ObjectOf(s, found[i]).Some?
        ensures Copyable(s, found[i]) ==> answers[i] == EmissionValue(s, Emission(found[i], false))
      {
        ReadObject(s, found[i]);
      }
      if !AllObjects(s, found) {
        var i :| 0 <= i < |found| && ObjectOf(s, found[i]).None?;
        assert !Copyable(s, ems[i].body);
      }
    }
  }

  lemma ResultAgrees(s: Store, cutoff: nat, c: Chosen)
    requires Valid(s) && OkRecord(s, cutoff, c) && !IsHostInput(c.entry.kind) && RecordValues(s, cutoff, c).Ok?
    ensures RecordEmissions(s, cutoff, c).Ok?
    ensures Agrees(s, RecordEmissions(s, cutoff, c).value, RecordValues(s, cutoff, c).value, RecordStreams(s, cutoff, c))
  {
    ResultOfEntry(s, cutoff, c.entry);
    var row := VisibleResult(s, cutoff, c.entry.key).value;
    var lo, hi := StartOf(row, c.anchored), |row.items|;
    assert row.items[0..] == row.items;
    assert row.items[lo..hi] == row.items[lo..];
    var bodies := ModelOutput(s, cutoff, c.entry.key, c.anchored).value;
    assert bodies == row.items[lo..hi];
    ItemsRead(s, bodies);
    CallsAgree(s, cutoff, row, lo, hi);
    OutputAgrees(s, bodies, CallResults(s, cutoff, row, lo, hi).value, ItemsPass(s, bodies).value,
      AnswersPass(s, cutoff, bodies).value, CallsRecorded(s, row, lo, hi));
  }

  lemma {:induction false} RecordsAgree(s: Store, cutoff: nat, records: seq<Chosen>)
    requires Valid(s) && InputValues(s, cutoff, records).Ok?
    requires forall i :: 0 <= i < |records| ==> OkRecord(s, cutoff, records[i])
    ensures Emissions(s, cutoff, records).Ok?
    ensures Agrees(s, Emissions(s, cutoff, records).value, InputValues(s, cutoff, records).value,
      forall i :: 0 <= i < |records| ==> RecordStreams(s, cutoff, records[i]))
  {
    hide Agrees, RecordStreams, RecordEmissions, RecordValues, OkRecord, Valid;
    if records == [] {
      AgreesNone(s);
    } else {
      var n := |records| - 1;
      var c := records[n];
      RecordsAgree(s, cutoff, records[..n]);
      if IsHostInput(c.entry.kind) {
        HostAgrees(s, cutoff, c);
      } else {
        ResultAgrees(s, cutoff, c);
      }
      AgreesAppend(s, Emissions(s, cutoff, records[..n]).value, InputValues(s, cutoff, records[..n]).value,
        forall i :: 0 <= i < n ==> RecordStreams(s, cutoff, records[i]),
        RecordEmissions(s, cutoff, c).value, RecordValues(s, cutoff, c).value, RecordStreams(s, cutoff, c));
      assert forall i :: 0 <= i < n ==> records[..n][i] == records[i];
    }
  }

  lemma AgreesNone(s: Store)
    ensures Agrees(s, [], [], true)
  {}

  lemma AgreesAppend(s: Store, a: seq<Emission>, va: seq<Value>, sa: bool, b: seq<Emission>, vb: seq<Value>, sb: bool)
    requires Agrees(s, a, va, sa) && Agrees(s, b, vb, sb)
    ensures Agrees(s, a + b, va + vb, sa && sb)
  {
    if AllCopyable(s, a + b) {
      forall i | 0 <= i < |a| ensures Copyable(s, a[i].body) {
        assert (a + b)[i] == a[i];
      }
      forall i | 0 <= i < |b| ensures Copyable(s, b[i].body) {
        assert (a + b)[|a| + i] == b[i];
      }
      assert EmissionValues(s, a + b) == EmissionValues(s, a) + EmissionValues(s, b);
    }
  }

  /** The condition under which streaming writes the request the builder builds: objects throughout, and call rows for the calls. */
  ghost predicate Streamable(s: Store, cutoff: nat)
    requires Valid(s)
  {
    && SettingsOf(s.facts, cutoff).Some? && ObjectOf(s, SettingsOf(s.facts, cutoff).value).Some?
    && forall i :: 0 <= i < |Records(s, cutoff)| ==> RecordStreams(s, cutoff, Records(s, cutoff)[i])
  }

  /** The streamed request exists and decodes to the builder's settings, the fixed members and the builder's input. */
  ghost predicate StreamsTo(s: Store, cutoff: nat, r: SimpleRequest) {
    && PlanOf(s, cutoff).Ok? && r.settings.Dict?
    && Loads(RequestText(s, PlanOf(s, cutoff).value)) == Some(Envelope(r.settings.m, r.input))
  }

  lemma RecordsOk(s: Store, cutoff: nat)
    requires Valid(s)
    ensures forall i :: 0 <= i < |Records(s, cutoff)| ==> OkRecord(s, cutoff, Records(s, cutoff)[i])
  {
    hide Valid, InStore, OkResult, Ordered;
    forall i | 0 <= i < |Records(s, cutoff)| ensures OkRecord(s, cutoff, Records(s, cutoff)[i]) {
      var c := Records(s, cutoff)[i];
      if c.anchored {
        SelectedShape(s, cutoff);
        ValidOrdered(s);
        EntriesExact(s, 0, cutoff);
        LastCompactionExact(Entries(s, 0, cutoff));
      } else {
        assert c == Chosen(c.entry, false);
        SelectionExact(s, cutoff, c.entry);
      }
    }
  }

  lemma EnvelopeInput(m: map<Key, Value>, a: seq<Value>, b: seq<Value>)
    requires Envelope(m, a) == Envelope(m, b)
    ensures a == b
  {
    assert Envelope(m, a).m[INPUT] == List(a) && Envelope(m, b).m[INPUT] == List(b);
  }

  /** For every store and cutoff where the builder succeeds, streaming agrees with it exactly on streamable views. */
  lemma StreamingRefines(s: Store, cutoff: nat)
    requires Valid(s) && RequestOf(s, cutoff).Ok?
    ensures StreamsTo(s, cutoff, RequestOf(s, cutoff).value) <==> Streamable(s, cutoff)
  {
    hide Valid, OkRecord, RecordStreams, Envelope, RequestText, AllCopyable;
    var r := RequestOf(s, cutoff).value;
    var body := SettingsOf(s.facts, cutoff).value;
    var records := Records(s, cutoff);
    ReadObject(s, body);
    RecordsOk(s, cutoff);
    RecordsAgree(s, cutoff, records);
    var ems := Emissions(s, cutoff, records).value;
    if Copyable(s, body) && AllCopyable(s, ems) {
      var plan := PlanOf(s, cutoff).value;
      ObjectOfOk(s, body);
      RequestTextLoads(s, plan);
      if Envelope(r.settings.m, EmissionValues(s, ems)) == Envelope(r.settings.m, r.input) {
        EnvelopeInput(r.settings.m, EmissionValues(s, ems), r.input);
      }
    }
  }
}
