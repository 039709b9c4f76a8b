/**
 * Which runs of the store the streaming writer serves as well as the builder does, and
 * one run and one payload on which the two forms come apart.
 */
module DecodedRuns {
  import opened Bytes
  import opened Json
  import opened JsonValue
  import opened JsonCopy
  import opened History
  import opened Snapshots
  import opened Selection
  import opened Request
  import opened Streaming
  import opened Refinement

  ghost predicate IsObjectText(text: Bytes) {
    Parse(text).Some? && Parse(text).value.1.Object?
  }

  /** An operation that stores decoded objects only: no raw bytes, and no other JSON. */
  ghost predicate StoresObjects(op: Op) {
    match op
    case DoFact(_, text) => IsObjectText(text)
    case DoAdmit => true
    case DoAccept(_, items, _, _) => forall i :: 0 <= i < |items| ==> items[i].Json? && IsObjectText(items[i].text)
    case DoTool(_, text) => IsObjectText(text)
  }

  /** What such operations keep: every payload is an object, and every stored function call has its call row. */
  ghost predicate Decoded(s: Store) {
    && (forall i :: 0 <= i < |s.payloads| ==> IsObjectText(s.payloads[i].body))
    && (forall i :: 0 <= i < |s.results| ==> CallsRecorded(s, s.results[i], 0, |s.results[i].items|))
  }

  lemma RecordedKept(s: Store, t: Store, row: ResultRow)
    requires OkResult(s, row) && s.payloads <= t.payloads && CallsRecorded(s, row, 0, |row.items|)
    ensures CallsRecorded(t, row, 0, |row.items|)
  {
    hide NamesCall;
  }

  lemma AcceptRecords(s: Store, operation: nat, items: seq<Input>, kind: ResultKind, anchor: Option<nat>)
    requires AcceptAllowed(s, operation, items, kind, anchor)
    requires forall i :: 0 <= i < |items| ==> items[i].Json?
    ensures
      var t := AfterAccept(s, operation, items, kind, anchor);
      CallsRecorded(t, t.results[|s.results|], 0, |items|)
  {
    hide CallRows, CallName, IsCallBody, Answered;
    var t := AfterAccept(s, operation, items, kind, anchor);
    var row := t.results[|s.results|];
    CallRowsSpec(items);
    forall o | 0 <= o < |items| && o !in row.calls ensures !IsCallBody(t, row.items[o]) {
      assert t.payloads[|s.payloads| + o] == Payload(items[o].text, items[o].text);
      NotCalled(t, row.items[o], items[o]);
    }
  }

  lemma NotCalled(t: Store, body: nat, item: Input)
    requires item.Json? && CallName(item) == Ok(None) && body < |t.payloads| && t.payloads[body].body == item.text
    ensures !IsCallBody(t, body)
  {
    hide Loads;
  }

  lemma ApplyKeepsDecoded(s: Store, op: Op)
    requires Valid(s) && Decoded(s) && StoresObjects(op)
    ensures Decoded(Apply(s, op))
  {
    hide CallsRecorded, OkResult, CallRows, Ordered, IsObjectText;
    var t := Apply(s, op);
    forall i | 0 <= i < |t.results| ensures CallsRecorded(t, t.results[i], 0, |t.results[i].items|) {
      if i < |s.results| {
        RecordedKept(s, t, s.results[i]);
      } else {
        AcceptRecords(s, op.operation, op.items, op.resultKind, op.anchor);
      }
    }
  }

  lemma {:induction false} RunKeepsDecoded(s: Store, ops: seq<Op>)
    requires Valid(s) && Decoded(s) && forall i :: 0 <= i < |ops| ==> StoresObjects(ops[i])
    ensures Valid(Run(s, ops)) && Decoded(Run(s, ops))
    decreases |ops|
  {
    hide Valid, Decoded;
    if ops != [] {
      ApplyKeepsValid(s, ops[0]);
      ApplyKeepsDecoded(s, ops[0]);
      RunKeepsDecoded(Apply(s, ops[0]), ops[1..]);
    }
  }

  lemma DecodedStreams(s: Store, cutoff: nat)
    requires Valid(s) && Decoded(s) && RequestOf(s, cutoff).Ok?
    ensures Streamable(s, cutoff)
  {
    hide Ordered, OkResult, InputValues, AnswersPass, ItemsPass, Loads, ProviderItem;
    ReadObject(s, SettingsOf(s.facts, cutoff).value);
    RecordsOk(s, cutoff);
    var records := Records(s, cutoff);
    forall i | 0 <= i < |records| ensures RecordStreams(s, cutoff, records[i]) {
      RecordOfDecoded(s, cutoff, records[i]);
    }
  }

  lemma StoredObject(s: Store, body: nat)
    requires Decoded(s) && body < |s.payloads|
    ensures ObjectOf(s, body).Some?
  {}

  lemma {:induction false} ToolStored(tools: seq<Tool>, cutoff: nat, call: Key, bound: nat)
    requires forall i :: 0 <= i < |tools| ==> tools[i].body < bound
    ensures ToolResult(tools, cutoff, call).Some? ==> ToolResult(tools, cutoff, call).value < bound
  {
    if tools != [] {
      ToolStored(tools[..|tools| - 1], cutoff, call, bound);
    }
  }

  lemma {:induction false} AnswersStored(s: Store, cutoff: nat, row: ResultRow, lo: nat, hi: nat)
    requires Valid(s) && CallResults(s, cutoff, row, lo, hi).Ok?
    ensures forall i :: 0 <= i < |CallResults(s, cutoff, row, lo, hi).value| ==>
      CallResults(s, cutoff, row, lo, hi).value[i] < |s.payloads|
    decreases hi
  {
    hide OkResult, Ordered, ToolResult;
    if hi > lo {
      AnswersStored(s, cutoff, row, lo, hi - 1);
      if hi - 1 in row.calls {
        ToolStored(s.tools, cutoff, row.calls[hi - 1], |s.payloads|);
      }
    }
  }

  lemma RecordOfDecoded(s: Store, cutoff: nat, c: Chosen)
    requires Valid(s) && Decoded(s) && OkRecord(s, cutoff, c)
    ensures RecordStreams(s, cutoff, c)
  {
    hide ObjectOf, CallResults, FindResult, Decoded, OkResult, Ordered, CallsRecorded;
    if IsHostInput(c.entry.kind) {
      HostStored(s, c.entry);
      StoredObject(s, c.entry.key);
    } else {
      ResultOfEntry(s, cutoff, c.entry);
      var row := VisibleResult(s, cutoff, c.entry.key).value;
      RowRecorded(s, cutoff, c.entry);
      RecordedFrom(s, row, StartOf(row, c.anchored));
      var found := ToolResults(s, cutoff, c.entry.key, c.anchored);
      if found.Ok? {
        AnswersStored(s, cutoff, row, StartOf(row, c.anchored), |row.items|);
        forall i | 0 <= i < |found.value| ensures ObjectOf(s, found.value[i]).Some? {
          StoredObject(s, found.value[i]);
        }
      }
    }
  }

  lemma HostStored(s: Store, e: Entry)
    requires Valid(s) && InStore(s, e) && IsHostInput(e.kind)
    ensures e.key < |s.payloads|
  {
    hide OkResult, Ordered;
  }

  lemma RowRecorded(s: Store, cutoff: nat, e: Entry)
    requires Valid(s) && Decoded(s) && InStore(s, e) && e.pos < cutoff && !IsHostInput(e.kind)
    ensures
      var row := VisibleResult(s, cutoff, e.key);
      row.Some? && CallsRecorded(s, row.value, 0, |row.value.items|)
  {
    hide CallsRecorded, OkResult, IsObjectText;
    var i :| 0 <= i < |s.results| && LineOfResult(s.results[i], e);
    FindResultExact(s.results, i);
  }

  lemma RecordedFrom(s: Store, row: ResultRow, lo: nat)
    requires CallsRecorded(s, row, 0, |row.items|)
    ensures CallsRecorded(s, row, lo, |row.items|)
  {
    hide IsCallBody;
  }

  lemma EmptyDecoded()
    ensures Decoded(EMPTY)
  {}

  /** Whatever run of decoded objects produced the store, each request the builder builds is the one that is streamed. */
  lemma DecodedRunsStream(ops: seq<Op>, cutoff: nat)
    requires forall i :: 0 <= i < |ops| ==> StoresObjects(ops[i])
    requires RequestOf(Run(EMPTY, ops), cutoff).Ok?
    ensures StreamsTo(Run(EMPTY, ops), cutoff, RequestOf(Run(EMPTY, ops), cutoff).value)
  {
    hide Valid, Decoded, RequestOf, StreamsTo, Streamable, Run, StoresObjects;
    EmptyValid();
    EmptyDecoded();
    RunKeepsDecoded(EMPTY, ops);
    var s := Run(EMPTY, ops);
    DecodedStreams(s, cutoff);
    StreamingRefines(s, cutoff);
  }

  // ---------------------------------------------------------------- where the two forms come apart

  const EMPTY_OBJECT: Doc := Object([], NoMember)

  /** `{"type":"function_call","call_id":"a"}` */
  const CALL_OBJECT: Doc :=
    Object([], PlainMember(TYPE, Text(PlainChars(Ascii("function_call"))), PlainMember(CALL_ID, Text(PlainChars([97])), NoMember)))

  lemma ConcreteLoads()
    ensures Loads(DocText(EMPTY_OBJECT)) == Some(Dict(map[]))
    ensures Loads(DocText(CALL_OBJECT)) == Some(Dict(map[TYPE := FUNCTION_CALL, CALL_ID := String([97])]))
  {
    hide DocText;
    var name := Text(PlainChars(Ascii("function_call")));
    var second := PlainMember(CALL_ID, Text(PlainChars([97])), NoMember);
    assert Ascii7(TYPE) && Ascii7(CALL_ID) && Ascii7(Ascii("function_call")) && Ascii7([97]);
    PlainMemberOk(CALL_ID, Text(PlainChars([97])), NoMember);
    PlainMemberOk(TYPE, name, second);
    PlainUnits(Ascii("function_call"));
    PlainUnits([97]);
    PlainMemberValue(map[], TYPE, name, second);
    PlainMemberValue(map[TYPE := FUNCTION_CALL], CALL_ID, Text(PlainChars([97])), NoMember);
    Trimmed(DocText(EMPTY_OBJECT));
    Trimmed(DocText(CALL_OBJECT));
    LoadsSpelled([], EMPTY_OBJECT, [], DocText(EMPTY_OBJECT));
    LoadsSpelled([], CALL_OBJECT, [], DocText(CALL_OBJECT));
  }

  /** A function call accepted as raw bytes: the store reads it as opaque, and records no call row. */
  const RAW_CALL: seq<Op> := [
    DoFact(Settings, DocText(EMPTY_OBJECT)), DoAdmit,
    DoAccept(2, [Raw(DocText(CALL_OBJECT))], Response, None),
    DoTool([97], DocText(EMPTY_OBJECT))]

  function RawCallStore(settings: Bytes, item: Bytes, answer: Bytes): Store {
    Store(4, [Payload(settings, settings), Payload(item, item), Payload(answer, answer)],
      [Fact(1, Settings, 0)], [2], [ResultRow(3, 2, Response, None, [1], map[])], [Tool(4, [97], 2)])
  }

  lemma RawCallRun()
    ensures Run(EMPTY, RAW_CALL) == RawCallStore(DocText(EMPTY_OBJECT), DocText(CALL_OBJECT), DocText(EMPTY_OBJECT))
    ensures Valid(Run(EMPTY, RAW_CALL))
  {
    hide DocText, Valid, Loads;
    var a, c := DocText(EMPTY_OBJECT), DocText(CALL_OBJECT);
    var s1 := AfterFact(EMPTY, Settings, a);
    var s2 := AfterAdmit(s1);
    RawAccepted(s2, c);
    var s3 := Apply(s2, RAW_CALL[2]);
    assert s3.tools == [];
    assert Run(EMPTY, RAW_CALL) == Apply(s3, RAW_CALL[3]) by {
      assert RAW_CALL[1..][1..][1..][1..] == [];
      RunFour(EMPTY, RAW_CALL);
    }
    EmptyValid();
    RunKeepsValid(EMPTY, RAW_CALL);
  }

  lemma RunFour(s: Store, ops: seq<Op>)
    requires |ops| == 4
    ensures Run(s, ops) == Apply(Apply(Apply(Apply(s, ops[0]), ops[1]), ops[2]), ops[3])
  {
    hide Apply;
    var s1 := Apply(s, ops[0]);
    var s2 := Apply(s1, ops[1]);
    assert ops[1..][1..] == ops[2..] && ops[2..][1..] == ops[3..] && ops[3..][1..] == [];
    assert Run(s, ops) == Run(s1, ops[1..]) == Run(s2, ops[2..]) == Run(Apply(s2, ops[2]), ops[3..]);
    var s3 := Apply(s2, ops[2]);
    assert Run(s3, ops[3..]) == Run(Apply(s3, ops[3]), []);
  }

  lemma RawAccepted(s: Store, c: Bytes)
    requires s.operations == [2] && s.results == []
    ensures Apply(s, DoAccept(2, [Raw(c)], Response, None))
      == s.(clock := s.clock + 1, payloads := s.payloads + [Payload(c, c)],
            results := [ResultRow(s.clock + 1, 2, Response, None, [|s.payloads|], map[])])
  {
    var items := [Raw(c)];
    assert items[..0] == [] && CallRows(items[..0]) == Ok(map[]) && CallName(items[0]) == Ok(None);
    assert CallRows(items) == Ok(map[]);
    assert Texts(items) == [Payload(c, c)] && Keys(|s.payloads|, 1) == [|s.payloads|];
  }

  lemma RawCallSelected(a: Bytes, c: Bytes)
    ensures Selected(RawCallStore(a, c, a), 5) == Ok([Chosen(Entry(3, ResponseEntry, 3), false)])
  {
    var s := RawCallStore(a, c, a);
    assert s.facts[..0] == [] && s.results[..0] == [];
    assert NextEntry(s, 0, 5) == Some(Entry(3, ResponseEntry, 3));
    assert NextEntry(s, 3, 5) == None;
    assert Entries(s, 3, 5) == [];
    var all := Entries(s, 0, 5);
    assert all == [Entry(3, ResponseEntry, 3)];
    assert LastCompaction(all) == None;
    assert Plainly(all) == [Chosen(Entry(3, ResponseEntry, 3), false)];
  }

  lemma RawCallBuilt(a: Bytes, c: Bytes)
    requires Loads(a) == Some(Dict(map[])) && |a| <= DECODER_LIMIT && |c| <= DECODER_LIMIT
    requires Loads(c) == Some(Dict(map[TYPE := FUNCTION_CALL, CALL_ID := String([97])]))
    ensures RequestOf(RawCallStore(a, c, a), 5).Ok?
  {
    hide Loads, Selected;
    var s := RawCallStore(a, c, a);
    var chosen := Chosen(Entry(3, ResponseEntry, 3), false);
    RawCallSelected(a, c);
    assert SettingsOf(s.facts, 5) == Some(0);
    assert [chosen][..0] == [];
    RawCallOutput(s, a, c);
    assert InputValues(s, 5, [chosen]).Ok?;
  }

  lemma RawCallOutput(s: Store, a: Bytes, c: Bytes)
    requires s == RawCallStore(a, c, a)
    requires Loads(a) == Some(Dict(map[])) && |a| <= DECODER_LIMIT && |c| <= DECODER_LIMIT
    requires Loads(c) == Some(Dict(map[TYPE := FUNCTION_CALL, CALL_ID := String([97])]))
    ensures RecordValues(s, 5, Chosen(Entry(3, ResponseEntry, 3), false)).Ok?
  {
    hide Loads;
    assert |TYPE| == 4 && |CALL_ID| == 7 && |CREATED_BY| == 10;
    assert |FUNCTION_CALL.units| == 13 && |REASONING.units| == 9 && |COMPACTION.units| == 10;
    assert VisibleResult(s, 5, 3) == Some(s.results[0]);
    assert ModelOutput(s, 5, 3, false) == Ok([1]);
    assert [1 as nat][..0] == [];
    assert ReadValue(s, 1) == Ok(Loads(c).value);
    assert ProviderItem(Loads(c).value).Ok?;
    assert ItemsPass(s, [1]).Ok?;
    assert ToolResult(s.tools, 5, [97]) == Some(2);
    assert CallAnswer(s, 5, 1).Ok?;
    assert AnswersPass(s, 5, [1]).Ok?;
  }

  lemma ConcreteSizes()
    ensures |DocText(EMPTY_OBJECT)| <= DECODER_LIMIT && |DocText(CALL_OBJECT)| <= DECODER_LIMIT
  {
    hide DocText, MembersText;
    var name := Text(PlainChars(Ascii("function_call")));
    var second := PlainMember(CALL_ID, Text(PlainChars([97])), NoMember);
    CopiedSize(NoMember);
    NoMembers();
    CopiedSize(PlainMember(TYPE, name, second));
    PlainMemberText(TYPE, name, second);
    PlainMemberText(CALL_ID, Text(PlainChars([97])), NoMember);
    TextSize(Ascii("function_call"));
    TextSize([97]);
    assert |Keyed(TYPE)| <= 20 && |Keyed(CALL_ID)| <= 20;
  }

  lemma CopiedSize(m: Members)
    ensures |DocText(Object([], m))| == |MembersText(m)| + 2
  {}

  lemma TextSize(s: Bytes)
    ensures |DocText(Text(PlainChars(s)))| == |s| + 2
  {
    PlainText(s);
  }

  /** The builder looks the call up by its decoded id; the streaming writer, by its missing call row. */
  lemma RawCallApart()
    ensures Valid(Run(EMPTY, RAW_CALL)) && RequestOf(Run(EMPTY, RAW_CALL), 5).Ok?
    ensures !StreamsTo(Run(EMPTY, RAW_CALL), 5, RequestOf(Run(EMPTY, RAW_CALL), 5).value)
  {
    hide DocText, Valid, Loads, RequestOf, StreamsTo, Selected, ToolResults;
    var a, c := DocText(EMPTY_OBJECT), DocText(CALL_OBJECT);
    var s := Run(EMPTY, RAW_CALL);
    RawCallRun();
    ConcreteLoads();
    ConcreteSizes();
    RawCallBuilt(a, c);
    RawCallSelected(a, c);
    StreamingRefines(s, 5);
    var row := s.results[0];
    assert VisibleResult(s, 5, 3) == Some(row);
    assert IsCallBody(s, row.items[0]) && 0 !in row.calls;
    assert !RecordStreams(s, 5, Records(s, 5)[0]);
  }

  /** `{"created_by":null}`: as copied, it is two bytes. */
  const DROPPED: Members := PlainMember(CREATED_BY, Literal(NULL_TEXT), NoMember)

  /** A dropped member needs room until it is rewound over: output that fits an allowance may still exceed it on the way. */
  lemma DroppedNeedsRoom()
    ensures |CopiedText(DROPPED, Target(Some(CREATED_BY)), true)| == 2
    ensures ObjectPeak(0, DROPPED, Target(Some(CREATED_BY)), true) > 2
  {
    PlainUnits(CREATED_BY);
    assert Kept(DROPPED, Target(Some(CREATED_BY))) == NoMember;
  }
}
