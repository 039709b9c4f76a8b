/**
 * The append-only store of core.py: one logical clock, tables of facts, operations,
 * results and tool results, and reads cut off at an operation's position.
 */
module History {
  import opened Bytes
  import opened JsonValue

  datatype FactKind = Settings | User | Instruction

  datatype ResultKind = Response | Compaction

  /** A stored body and the bytes its digest was taken from; they agree unless the row was damaged. */
  datatype Payload = Payload(body: Bytes, digest: Bytes)

  datatype Fact = Fact(pos: nat, kind: FactKind, body: nat)

  /** A result with its items in ordinal order, and the call rows keyed by ordinal. */
  datatype ResultRow = ResultRow(pos: nat, operation: nat, kind: ResultKind, anchor: Option<nat>, items: seq<nat>, calls: map<nat, Key>)

  datatype Tool = Tool(pos: nat, call: Key, body: nat)

  datatype Store = Store(
    clock: nat, payloads: seq<Payload>, facts: seq<Fact>, operations: seq<nat>, results: seq<ResultRow>, tools: seq<Tool>)

  const EMPTY: Store := Store(0, [], [], [], [], [])

  /** An item of a result: a decoded value, stored as the text it serializes to, or raw bytes. */
  datatype Input = Json(text: Bytes) | Raw(text: Bytes)

  const TYPE: Key := Ascii("type")
  const CALL_ID: Key := Ascii("call_id")
  const FUNCTION_CALL: Value := String(Ascii("function_call"))

  predicate IsCall(v: Value) {
    v.Dict? && TYPE in v.m && v.m[TYPE] == FUNCTION_CALL
  }

  /** The call row an accepted item adds, if any. Raw bytes are not looked into. */
  function CallName(item: Input): Result<Option<Key>> {
    match item
    case Raw(_) => Ok(None)
    case Json(text) =>
      match Loads(text)
      case None => Ok(None)
      case Some(v) =>
        if !IsCall(v) then Ok(None)
        else if CALL_ID in v.m && v.m[CALL_ID].String? then Ok(Some(v.m[CALL_ID].units))
        else Err(Rejected)
  }

  ghost predicate Call(v: Value) {
    v.Dict? && Ascii("type") in v.m && v.m[Ascii("type")] == String(Ascii("function_call"))
  }

  /** A decoded item that is a function call with this call id. */
  ghost predicate CallItem(item: Input, name: Key) {
    exists v :: DecodesTo(item, v) && Call(v) && Ascii("call_id") in v.m && v.m[Ascii("call_id")] == String(name)
  }

  /** A decoded function call without the call id its row needs. */
  ghost predicate BadCall(item: Input) {
    exists v :: DecodesTo(item, v) && Call(v) && !(Ascii("call_id") in v.m && v.m[Ascii("call_id")].String?)
  }

  ghost predicate DecodesTo(item: Input, v: Value) {
    item.Json? && Loads(item.text) == Some(v)
  }

  /** One row for each function call, and no other. */
  ghost predicate RowsOfCalls(items: seq<Input>, calls: map<nat, Key>) {
    && (forall o :: o in calls ==> o < |items| && CallItem(items[o], calls[o]))
    && (forall o :: 0 <= o < |items| && o !in calls ==> forall name :: !CallItem(items[o], name))
  }

  lemma {:induction false} CallRowsExact(items: seq<Input>)
    ensures CallRows(items).Ok? <==> forall i :: 0 <= i < |items| ==> !BadCall(items[i])
    ensures CallRows(items).Ok? ==> RowsOfCalls(items, CallRows(items).value)
  {
    hide CallName, CallItem, BadCall;
    if items != [] {
      var n := |items| - 1;
      CallRowsExact(items[..n]);
      CallNameExact(items[n]);
      assert items == items[..n] + [items[n]];
    }
  }

  lemma CallNameExact(item: Input)
    ensures CallName(item).Err? <==> BadCall(item)
    ensures forall name :: CallName(item) == Ok(Some(name)) <==> CallItem(item, name)
  {
    hide Loads;
    if item.Json? && Loads(item.text).Some? {
      assert DecodesTo(item, Loads(item.text).value);
    }
  }

  // ---------------------------------------------------------------- the effect of each operation

  function AddPayload(s: Store, text: Bytes): Store {
    s.(payloads := s.payloads + [Payload(text, text)])
  }

  function AfterFact(s: Store, kind: FactKind, text: Bytes): Store {
    AddPayload(s, text).(clock := s.clock + 1, facts := s.facts + [Fact(s.clock + 1, kind, |s.payloads|)])
  }

  function AfterAdmit(s: Store): Store {
    s.(clock := s.clock + 1, operations := s.operations + [s.clock + 1])
  }

  function AfterTool(s: Store, call: Key, text: Bytes): Store {
    AddPayload(s, text).(clock := s.clock + 1, tools := s.tools + [Tool(s.clock + 1, call, |s.payloads|)])
  }

  /** The call rows of a list of items, or the failure of the first item that has none to give. */
  function CallRows(items: seq<Input>): Result<map<nat, Key>> {
    if items == [] then Ok(map[])
    else
      var last := |items| - 1;
      match CallRows(items[..last])
      case Err(e) => Err(e)
      case Ok(calls) =>
        match CallName(items[last])
        case Err(e) => Err(e)
        case Ok(None) => Ok(calls)
        case Ok(Some(name)) => Ok(calls[last := name])
  }

  function Texts(items: seq<Input>): seq<Payload> {
    seq(|items|, i requires 0 <= i < |items| => Payload(items[i].text, items[i].text))
  }

  function Keys(first: nat, count: nat): seq<nat> {
    seq(count, i requires 0 <= i < count => first + i)
  }

  predicate Answered(results: seq<ResultRow>, operation: nat) {
    exists i :: 0 <= i < |results| && results[i].operation == operation
  }

  predicate CalledBack(tools: seq<Tool>, call: Key) {
    exists i :: 0 <= i < |tools| && tools[i].call == call
  }

  predicate AcceptAllowed(s: Store, operation: nat, items: seq<Input>, kind: ResultKind, anchor: Option<nat>) {
    && (kind == Compaction <==> anchor.Some?)
    && (anchor.Some? ==> anchor.value < |items|)
    && operation in s.operations
    && !Answered(s.results, operation)
    && CallRows(items).Ok?
  }

  function AfterAccept(s: Store, operation: nat, items: seq<Input>, kind: ResultKind, anchor: Option<nat>): Store
    requires AcceptAllowed(s, operation, items, kind, anchor)
  {
    var row := ResultRow(s.clock + 1, operation, kind, anchor, Keys(|s.payloads|, |items|), CallRows(items).value);
    s.(clock := s.clock + 1, payloads := s.payloads + Texts(items), results := s.results + [row])
  }

  // ---------------------------------------------------------------- the store as an object

  class Core {
    var clock: nat
    var payloads: seq<Payload>
    var facts: seq<Fact>
    var operations: seq<nat>
    var results: seq<ResultRow>
    var tools: seq<Tool>

    function Tables(): Store
      reads this
    {
      Store(clock, payloads, facts, operations, results, tools)
    }

    constructor ()
      ensures Tables() == EMPTY
    {
      clock, payloads, facts, operations, results, tools := 0, [], [], [], [], [];
    }

    method Tick() returns (n: nat)
      modifies this`clock
      ensures n == clock == old(clock) + 1
    {
      clock := clock + 1;
      n := clock;
    }

    method StorePayload(text: Bytes) returns (id: nat)
      modifies this`payloads
      ensures id == |old(payloads)| && payloads == old(payloads) + [Payload(text, text)]
    {
      id := |payloads|;
      payloads := payloads + [Payload(text, text)];
    }

    method AddFact(kind: FactKind, text: Bytes) returns (pos: nat)
      modifies this
      ensures Tables() == AfterFact(old(Tables()), kind, text) && pos == clock == old(clock) + 1
      ensures facts == old(facts) + [Fact(pos, kind, |old(payloads)|)] && payloads == old(payloads) + [Payload(text, text)]
      ensures operations == old(operations) && results == old(results) && tools == old(tools)
    {
      pos := Tick();
      var body := StorePayload(text);
      facts := facts + [Fact(pos, kind, body)];
    }

    method Admit() returns (pos: nat)
      modifies this
      ensures Tables() == AfterAdmit(old(Tables())) && pos == clock == old(clock) + 1
      ensures operations == old(operations) + [pos] && payloads == old(payloads)
      ensures facts == old(facts) && results == old(results) && tools == old(tools)
    {
      pos := Tick();
      operations := operations + [pos];
    }

    /** One transaction: an item without the call id it needs, or a second result, leaves no trace. */
    method Accept(operation: nat, items: seq<Input>, kind: ResultKind, anchor: Option<nat>) returns (r: Result<nat>)
      modifies this
      ensures r.Ok? <==> AcceptAllowed(old(Tables()), operation, items, kind, anchor)
      ensures r.Ok? ==> Tables() == AfterAccept(old(Tables()), operation, items, kind, anchor) && r.value == clock
      ensures r.Err? ==> Tables() == old(Tables())
      ensures r.Ok? <==>
        && (kind == Compaction <==> anchor.Some?) && (anchor.Some? ==> anchor.value < |items|)
        && operation in old(operations) && (forall i :: 0 <= i < |old(results)| ==> old(results)[i].operation != operation)
        && (forall i :: 0 <= i < |items| ==> !BadCall(items[i]))
      ensures r.Ok? ==> r.value == clock == old(clock) + 1 && |payloads| == |old(payloads)| + |items| && old(payloads) <= payloads
      ensures r.Ok? ==> forall i :: 0 <= i < |items| ==> payloads[|old(payloads)| + i] == Payload(items[i].text, items[i].text)
      ensures r.Ok? ==>
        && |results| == |old(results)| + 1 && old(results) <= results
        && var row := results[|old(results)|];
          && row.pos == r.value && row.operation == operation && row.kind == kind && row.anchor == anchor
          && RowsOfCalls(items, row.calls) && |row.items| == |items| && forall i :: 0 <= i < |items| ==> row.items[i] == |old(payloads)| + i
      ensures facts == old(facts) && operations == old(operations) && tools == old(tools)
    {
      hide CallRows, Texts, Keys, BadCall, RowsOfCalls;
      CallRowsExact(items);
      if (kind == Compaction) != anchor.Some? || (anchor.Some? && anchor.value >= |items|) || operation !in operations {
        return Err(Rejected);
      }
      if Answered(results, operation) {
        return Err(Rejected);
      }
      var saved, savedClock := payloads, clock;
      var pos := Tick();
      var rows := AcceptItems(items);
      if rows.None? {
        payloads, clock := saved, savedClock;
        return Err(Rejected);
      }
      results := results + [ResultRow(pos, operation, kind, anchor, rows.value.0, rows.value.1)];
      r := Ok(pos);
      ItemsStored(items, |saved|);
    }

    /** Stores the items in order, and collects their keys and call rows, up to one that has no call row to give. */
    method AcceptItems(items: seq<Input>) returns (rows: Option<(seq<nat>, map<nat, Key>)>)
      modifies this`payloads
      ensures rows.Some? <==> CallRows(items).Ok?
      ensures rows.Some? ==>
        rows.value == (Keys(|old(payloads)|, |items|), CallRows(items).value) && payloads == old(payloads) + Texts(items)
    {
      hide CallRows, Texts, Keys;
      ghost var first := |payloads|;
      var keys: seq<nat>, calls: map<nat, Key> := [], map[];
      NoItems(first);
      assert items[..0] == [] && old(payloads) + [] == payloads;
      for ordinal := 0 to |items|
        invariant keys == Keys(first, ordinal) && payloads == old(payloads) + Texts(items[..ordinal])
        invariant CallRows(items[..ordinal]) == Ok(calls)
      {
        OneItem(items, ordinal, first);
        var body := StorePayload(items[ordinal].text);
        keys := keys + [body];
        match CallName(items[ordinal])
        case Err(_) =>
          CallRowsFail(items, ordinal + 1);
          return None;
        case Ok(None) =>
        case Ok(Some(name)) =>
          calls := calls[ordinal := name];
      }
      assert items[..|items|] == items;
      rows := Some((keys, calls));
    }

    method AddTool(call: Key, text: Bytes) returns (r: Result<nat>)
      modifies this
      ensures r.Ok? <==> !CalledBack(old(tools), call)
      ensures r.Ok? <==> forall i :: 0 <= i < |old(tools)| ==> old(tools)[i].call != call
      ensures r.Ok? ==> Tables() == AfterTool(old(Tables()), call, text) && r.value == clock == old(clock) + 1
      ensures r.Ok? ==>
        tools == old(tools) + [Tool(r.value, call, |old(payloads)|)] && payloads == old(payloads) + [Payload(text, text)]
      ensures r.Err? ==> Tables() == old(Tables())
      ensures facts == old(facts) && operations == old(operations) && results == old(results)
    {
      if CalledBack(tools, call) {
        return Err(Rejected);
      }
      var pos := Tick();
      var body := StorePayload(text);
      tools := tools + [Tool(pos, call, body)];
      r := Ok(pos);
    }
  }

  lemma ItemsStored(items: seq<Input>, first: nat)
    ensures |Texts(items)| == |Keys(first, |items|)| == |items|
    ensures forall i :: 0 <= i < |items| ==>
      Texts(items)[i] == Payload(items[i].text, items[i].text) && Keys(first, |items|)[i] == first + i
  {}

  lemma NoItems(first: nat)
    ensures Texts([]) == [] && Keys(first, 0) == [] && CallRows([]) == Ok(map[])
  {}

  /** What one more item adds. */
  lemma OneItem(items: seq<Input>, n: nat, first: nat)
    requires n < |items|
    ensures |Texts(items[..n])| == n && Keys(first, n + 1) == Keys(first, n) + [first + n]
    ensures forall p: seq<Payload> :: p + Texts(items[..n + 1]) == p + Texts(items[..n]) + [Payload(items[n].text, items[n].text)]
    ensures CallRows(items[..n]).Ok? ==>
      CallRows(items[..n + 1]) ==
      match CallName(items[n])
      case Err(e) => Err(e)
      case Ok(None) => CallRows(items[..n])
      case Ok(Some(name)) => Ok(CallRows(items[..n]).value[n := name])
  {
    hide CallName;
    assert items[..n + 1][..n] == items[..n];
    assert Texts(items[..n + 1]) == Texts(items[..n]) + [Payload(items[n].text, items[n].text)];
  }

  lemma {:induction false} CallRowsFail(items: seq<Input>, n: nat)
    requires n <= |items| && CallRows(items[..n]).Err?
    ensures CallRows(items).Err?
    decreases |items| - n
  {
    if n < |items| {
      assert items[..n + 1][..n] == items[..n];
      CallRowsFail(items, n + 1);
    } else {
      assert items[..n] == items;
    }
  }

  // ---------------------------------------------------------------- reads cut off at a position

  /** One line of history: a user or instruction fact, or a result. */
  datatype EntryKind = UserEntry | InstructionEntry | ResponseEntry | CompactionEntry

  datatype Entry = Entry(pos: nat, kind: EntryKind, key: nat)

  predicate IsHostInput(kind: EntryKind) {
    kind == UserEntry || kind == InstructionEntry
  }

  function FactEntry(f: Fact): Entry {
    Entry(f.pos, if f.kind == Instruction then InstructionEntry else UserEntry, f.body)
  }

  function ResultEntry(r: ResultRow): Entry {
    Entry(r.pos, if r.kind == Compaction then CompactionEntry else ResponseEntry, r.pos)
  }

  /** The body of the latest settings fact before the cutoff. */
  function SettingsOf(facts: seq<Fact>, cutoff: nat): Option<nat> {
    if facts == [] then None
    else
      var last := facts[|facts| - 1];
      if last.kind == Settings && last.pos < cutoff then Some(last.body) else SettingsOf(facts[..|facts| - 1], cutoff)
  }

  function Earlier(a: Option<Entry>, b: Option<Entry>): Option<Entry> {
    if a.None? then b else if b.None? || a.value.pos <= b.value.pos then a else b
  }

  predicate Between(lo: nat, pos: nat, hi: nat) {
    lo < pos < hi
  }

  /** The first entry strictly between two positions, from each table. */
  function NextFact(facts: seq<Fact>, lo: nat, hi: nat): Option<Entry> {
    if facts == [] then None
    else
      var last := facts[|facts| - 1];
      var rest := NextFact(facts[..|facts| - 1], lo, hi);
      if last.kind != Settings && Between(lo, last.pos, hi) then Earlier(rest, Some(FactEntry(last))) else rest
  }

  function NextResult(results: seq<ResultRow>, lo: nat, hi: nat): Option<Entry> {
    if results == [] then None
    else
      var last := results[|results| - 1];
      var rest := NextResult(results[..|results| - 1], lo, hi);
      if Between(lo, last.pos, hi) then Earlier(rest, Some(ResultEntry(last))) else rest
  }

  function NextEntry(s: Store, lo: nat, hi: nat): Option<Entry> {
    Earlier(NextFact(s.facts, lo, hi), NextResult(s.results, lo, hi))
  }

  /** The line of a stored user or instruction fact, which leads to its payload. */
  ghost predicate LineOfFact(f: Fact, e: Entry) {
    && e.pos == f.pos && e.key == f.body
    && ((f.kind == User && e.kind == UserEntry) || (f.kind == Instruction && e.kind == InstructionEntry))
  }

  /** The line of a stored result, which leads to its row. */
  ghost predicate LineOfResult(r: ResultRow, e: Entry) {
    && e.pos == r.pos && e.key == r.pos
    && ((r.kind == Response && e.kind == ResponseEntry) || (r.kind == Compaction && e.kind == CompactionEntry))
  }

  /** An entry of the store, wherever it is. */
  ghost predicate InStore(s: Store, e: Entry) {
    || (exists i :: 0 <= i < |s.facts| && LineOfFact(s.facts[i], e))
    || (exists i :: 0 <= i < |s.results| && LineOfResult(s.results[i], e))
  }

  lemma {:induction false} NextFactLeast(facts: seq<Fact>, lo: nat, hi: nat)
    ensures
      var n := NextFact(facts, lo, hi);
      && (n.Some? ==> Between(lo, n.value.pos, hi) && exists i :: 0 <= i < |facts| && LineOfFact(facts[i], n.value))
      && (forall i :: 0 <= i < |facts| && facts[i].kind != Settings && Between(lo, facts[i].pos, hi) ==> n.Some? && n.value.pos <= facts[i].pos)
  {
    if facts != [] {
      var front := facts[..|facts| - 1];
      NextFactLeast(front, lo, hi);
      assert facts == front + [facts[|facts| - 1]];
    }
  }

  lemma {:induction false} NextResultLeast(results: seq<ResultRow>, lo: nat, hi: nat)
    ensures
      var n := NextResult(results, lo, hi);
      && (n.Some? ==> Between(lo, n.value.pos, hi) && exists i :: 0 <= i < |results| && LineOfResult(results[i], n.value))
      && (forall i :: 0 <= i < |results| && Between(lo, results[i].pos, hi) ==> n.Some? && n.value.pos <= results[i].pos)
  {
    if results != [] {
      var front := results[..|results| - 1];
      NextResultLeast(front, lo, hi);
      assert results == front + [results[|results| - 1]];
    }
  }

  lemma NextLeast(s: Store, lo: nat, hi: nat)
    ensures
      var n := NextEntry(s, lo, hi);
      && (n.Some? ==> Between(lo, n.value.pos, hi) && InStore(s, n.value))
      && (forall e :: InStore(s, e) && Between(lo, e.pos, hi) ==> n.Some? && n.value.pos <= e.pos)
  {
    NextFactLeast(s.facts, lo, hi);
    NextResultLeast(s.results, lo, hi);
  }

  /** Every entry strictly between two positions, in position order. */
  function Entries(s: Store, lo: nat, hi: nat): seq<Entry>
    decreases hi - lo
  {
    NextLeast(s, lo, hi);
    match NextEntry(s, lo, hi)
    case None => []
    case Some(e) => [e] + Entries(s, e.pos, hi)
  }

  function FindResult(results: seq<ResultRow>, pos: nat): Option<ResultRow> {
    if results == [] then None
    else if results[|results| - 1].pos == pos then Some(results[|results| - 1])
    else FindResult(results[..|results| - 1], pos)
  }

  /** A result row that is visible at the cutoff. */
  function VisibleResult(s: Store, cutoff: nat, pos: nat): Option<ResultRow> {
    if pos < cutoff then FindResult(s.results, pos) else None
  }

  /** The payloads of a result's items, all of them or from the compaction's anchor. */
  function ModelOutput(s: Store, cutoff: nat, pos: nat, anchored: bool): Result<seq<nat>> {
    match VisibleResult(s, cutoff, pos)
    case None => Err(Unavailable)
    case Some(row) =>
      if !anchored then Ok(row.items)
      else if row.anchor.None? then Err(Rejected)
      else if row.anchor.value <= |row.items| then Ok(row.items[row.anchor.value..])
      else Ok([])
  }

  function ToolResult(tools: seq<Tool>, cutoff: nat, call: Key): Option<nat> {
    if tools == [] then None
    else
      var last := tools[|tools| - 1];
      if last.call == call && last.pos < cutoff then Some(last.body)
      else ToolResult(tools[..|tools| - 1], cutoff, call)
  }

  /** The tool results of the calls at ordinals `lo` to `hi`, in ordinal order; every one must be visible. */
  function CallResults(s: Store, cutoff: nat, row: ResultRow, lo: nat, hi: nat): Result<seq<nat>>
    decreases hi
  {
    if hi <= lo then Ok([])
    else
      match CallResults(s, cutoff, row, lo, hi - 1)
      case Err(e) => Err(e)
      case Ok(front) =>
        if hi - 1 !in row.calls then Ok(front)
        else
          match ToolResult(s.tools, cutoff, row.calls[hi - 1])
          case None => Err(Unavailable)
          case Some(body) => Ok(front + [body])
  }

  function ToolResults(s: Store, cutoff: nat, pos: nat, anchored: bool): Result<seq<nat>> {
    match VisibleResult(s, cutoff, pos)
    case None => Err(Unavailable)
    case Some(row) =>
      if !anchored then CallResults(s, cutoff, row, 0, |row.items|)
      else if row.anchor.None? then Err(Rejected)
      else CallResults(s, cutoff, row, row.anchor.value, |row.items|)
  }
}
