/**
 * What every run of the store keeps, and what an operation's view therefore never loses:
 * whatever is recorded later, each of its reads returns what it returned at admission.
 */
module Snapshots {
  import opened Bytes
  import opened JsonValue
  import opened History

  datatype Op =
    | DoFact(kind: FactKind, text: Bytes)
    | DoAdmit
    | DoAccept(operation: nat, items: seq<Input>, resultKind: ResultKind, anchor: Option<nat>)
    | DoTool(call: Key, text: Bytes)

  /** One call on the store; a rejected call leaves it as it was. */
  function Apply(s: Store, op: Op): Store {
    match op
    case DoFact(kind, text) => AfterFact(s, kind, text)
    case DoAdmit => AfterAdmit(s)
    case DoAccept(operation, items, kind, anchor) =>
      if AcceptAllowed(s, operation, items, kind, anchor) then AfterAccept(s, operation, items, kind, anchor) else s
    case DoTool(call, text) => if CalledBack(s.tools, call) then s else AfterTool(s, call, text)
  }

  function Run(s: Store, ops: seq<Op>): Store
    decreases |ops|
  {
    if ops == [] then s else Run(Apply(s, ops[0]), ops[1..])
  }

  // ---------------------------------------------------------------- the invariant of every run

  /** Positions are drawn once each from the clock, so every table is in position order. */
  ghost predicate Ordered(s: Store) {
    && (forall i :: 0 <= i < |s.facts| ==> 0 < s.facts[i].pos <= s.clock)
    && (forall i :: 0 <= i < |s.operations| ==> 0 < s.operations[i] <= s.clock)
    && (forall i :: 0 <= i < |s.results| ==> 0 < s.results[i].pos <= s.clock)
    && (forall i :: 0 <= i < |s.tools| ==> 0 < s.tools[i].pos <= s.clock)
    && (forall i, j :: 0 <= i < j < |s.facts| ==> s.facts[i].pos < s.facts[j].pos)
    && (forall i, j :: 0 <= i < j < |s.results| ==> s.results[i].pos < s.results[j].pos)
    && (forall i, j :: 0 <= i < |s.facts| && 0 <= j < |s.results| ==> s.facts[i].pos != s.results[j].pos)
    && (forall i, j :: 0 <= i < |s.facts| && 0 <= j < |s.operations| ==> s.facts[i].pos != s.operations[j])
    && (forall i, j :: 0 <= i < |s.results| && 0 <= j < |s.operations| ==> s.results[i].pos != s.operations[j])
  }

  /** A result answers an earlier operation, holds stored items, and names an anchor exactly when it is a compaction. */
  ghost predicate OkResult(s: Store, row: ResultRow) {
    && row.operation in s.operations && row.operation < row.pos
    && (row.kind == Compaction <==> row.anchor.Some?)
    && (row.anchor.Some? ==> row.anchor.value < |row.items|)
    && (forall i :: 0 <= i < |row.items| ==> row.items[i] < |s.payloads|)
    && (forall ordinal :: ordinal in row.calls ==> ordinal < |row.items|)
    && (forall ordinal :: ordinal in row.calls ==> NamesCall(s.payloads[row.items[ordinal]], row.calls[ordinal]))
  }

  /** The call row agrees with what the stored item said when it was accepted. */
  ghost predicate NamesCall(p: Payload, name: Key) {
    var v := Loads(p.digest);
    v.Some? && IsCall(v.value) && CALL_ID in v.value.m && v.value.m[CALL_ID] == String(name)
  }

  ghost predicate Valid(s: Store) {
    && Ordered(s)
    && (forall i :: 0 <= i < |s.results| ==> OkResult(s, s.results[i]))
    && (forall i :: 0 <= i < |s.facts| ==> s.facts[i].body < |s.payloads|)
    && (forall i :: 0 <= i < |s.tools| ==> s.tools[i].body < |s.payloads|)
    && (forall i, j :: 0 <= i < j < |s.tools| ==> s.tools[i].call != s.tools[j].call)
  }

  lemma {:induction false} CallRowsSpec(items: seq<Input>)
    requires CallRows(items).Ok?
    ensures forall o :: o in CallRows(items).value ==> o < |items| && CallName(items[o]) == Ok(Some(CallRows(items).value[o]))
    ensures forall o :: 0 <= o < |items| && o !in CallRows(items).value ==> CallName(items[o]) == Ok(None)
  {
    if items != [] {
      var last := |items| - 1;
      CallRowsSpec(items[..last]);
    }
  }

  /** A call row names the call its item's text decodes to. */
  lemma CallNamed(item: Input, name: Key)
    requires CallName(item) == Ok(Some(name))
    ensures NamesCall(Payload(item.text, item.text), name)
  {}

  lemma AcceptKeepsResult(s: Store, operation: nat, items: seq<Input>, kind: ResultKind, anchor: Option<nat>)
    requires Valid(s) && AcceptAllowed(s, operation, items, kind, anchor)
    ensures var t := AfterAccept(s, operation, items, kind, anchor); OkResult(t, t.results[|s.results|])
  {
    hide NamesCall, CallRows, CallName, OkResult;
    var t := AfterAccept(s, operation, items, kind, anchor);
    var row := t.results[|s.results|];
    CallRowsSpec(items);
    forall o | o in row.calls ensures o < |row.items| && NamesCall(t.payloads[row.items[o]], row.calls[o]) {
      CallNamed(items[o], row.calls[o]);
      assert t.payloads[|s.payloads| + o] == Payload(items[o].text, items[o].text);
    }
    NewResult(s, t, row);
  }

  lemma NewResult(s: Store, t: Store, row: ResultRow)
    requires Ordered(s) && row.operation in s.operations && s.operations <= t.operations && row.pos == s.clock + 1
    requires row.kind == Compaction <==> row.anchor.Some?
    requires row.anchor.Some? ==> row.anchor.value < |row.items|
    requires forall i :: 0 <= i < |row.items| ==> row.items[i] < |t.payloads|
    requires forall o :: o in row.calls ==> o < |row.items| && NamesCall(t.payloads[row.items[o]], row.calls[o])
    ensures OkResult(t, row)
  {}

  lemma OkResultKept(s: Store, t: Store, row: ResultRow)
    requires OkResult(s, row) && s.payloads <= t.payloads && s.operations <= t.operations
    ensures OkResult(t, row)
  {}

  lemma ApplyKeepsOrdered(s: Store, op: Op)
    requires Ordered(s)
    ensures Ordered(Apply(s, op))
  {
    hide CallRows, CallName;
  }

  lemma ApplyKeepsValid(s: Store, op: Op)
    requires Valid(s)
    ensures Valid(Apply(s, op))
  {
    hide OkResult, Ordered, NamesCall, CallRows, CallName;
    ApplyKeepsOrdered(s, op);
    var t := Apply(s, op);
    forall i | 0 <= i < |t.results| ensures OkResult(t, t.results[i]) {
      if i < |s.results| {
        OkResultKept(s, t, s.results[i]);
      } else {
        AcceptKeepsResult(s, op.operation, op.items, op.resultKind, op.anchor);
      }
    }
  }

  lemma {:induction false} RunKeepsValid(s: Store, ops: seq<Op>)
    requires Valid(s)
    ensures Valid(Run(s, ops))
    decreases |ops|
  {
    if ops != [] {
      ApplyKeepsValid(s, ops[0]);
      RunKeepsValid(Apply(s, ops[0]), ops[1..]);
    }
  }

  lemma EmptyValid()
    ensures Valid(EMPTY)
  {}

  // ---------------------------------------------------------------- growth

  /** `t` is `s` with rows added at positions after `bound`, and nothing else changed. */
  ghost predicate Grown(s: Store, t: Store, bound: nat) {
    && s.payloads <= t.payloads
    && s.operations <= t.operations
    && s.facts <= t.facts && (forall i :: |s.facts| <= i < |t.facts| ==> t.facts[i].pos > bound)
    && s.results <= t.results && (forall i :: |s.results| <= i < |t.results| ==> t.results[i].pos > bound)
    && s.tools <= t.tools && (forall i :: |s.tools| <= i < |t.tools| ==> t.tools[i].pos > bound)
  }

  lemma {:induction false} RunGrows(s: Store, ops: seq<Op>, bound: nat)
    requires s.clock >= bound
    ensures Grown(s, Run(s, ops), bound)
    decreases |ops|
  {
    if ops != [] {
      var t := Apply(s, ops[0]);
      assert Grown(s, t, bound) && t.clock >= bound;
      RunGrows(t, ops[1..], bound);
    }
  }

  lemma {:induction false} NextFactStable(facts: seq<Fact>, more: seq<Fact>, lo: nat, hi: nat)
    requires facts <= more && forall i :: |facts| <= i < |more| ==> more[i].pos >= hi
    ensures NextFact(more, lo, hi) == NextFact(facts, lo, hi)
    decreases |more|
  {
    if |more| > |facts| {
      NextFactStable(facts, more[..|more| - 1], lo, hi);
    } else {
      assert facts == more;
    }
  }

  lemma {:induction false} NextResultStable(results: seq<ResultRow>, more: seq<ResultRow>, lo: nat, hi: nat)
    requires results <= more && forall i :: |results| <= i < |more| ==> more[i].pos >= hi
    ensures NextResult(more, lo, hi) == NextResult(results, lo, hi)
    decreases |more|
  {
    if |more| > |results| {
      NextResultStable(results, more[..|more| - 1], lo, hi);
    } else {
      assert results == more;
    }
  }

  lemma {:induction false} EntriesStable(s: Store, t: Store, lo: nat, hi: nat)
    requires Grown(s, t, hi)
    ensures Entries(t, lo, hi) == Entries(s, lo, hi)
    decreases hi - lo
  {
    NextFactStable(s.facts, t.facts, lo, hi);
    NextResultStable(s.results, t.results, lo, hi);
    NextLeast(s, lo, hi);
    if NextEntry(s, lo, hi).Some? {
      EntriesStable(s, t, NextEntry(s, lo, hi).value.pos, hi);
    }
  }

  lemma {:induction false} SettingsStable(facts: seq<Fact>, more: seq<Fact>, cutoff: nat)
    requires facts <= more && forall i :: |facts| <= i < |more| ==> more[i].pos >= cutoff
    ensures SettingsOf(more, cutoff) == SettingsOf(facts, cutoff)
    decreases |more|
  {
    if |more| > |facts| {
      SettingsStable(facts, more[..|more| - 1], cutoff);
    } else {
      assert facts == more;
    }
  }

  lemma {:induction false} FindResultStable(results: seq<ResultRow>, more: seq<ResultRow>, pos: nat)
    requires results <= more && forall i :: |results| <= i < |more| ==> more[i].pos > pos
    ensures FindResult(more, pos) == FindResult(results, pos)
    decreases |more|
  {
    if |more| > |results| {
      FindResultStable(results, more[..|more| - 1], pos);
    } else {
      assert results == more;
    }
  }

  lemma {:induction false} ToolResultStable(tools: seq<Tool>, more: seq<Tool>, cutoff: nat, call: Key)
    requires tools <= more && forall i :: |tools| <= i < |more| ==> more[i].pos >= cutoff
    ensures ToolResult(more, cutoff, call) == ToolResult(tools, cutoff, call)
    decreases |more|
  {
    if |more| > |tools| {
      ToolResultStable(tools, more[..|more| - 1], cutoff, call);
    } else {
      assert tools == more;
    }
  }

  lemma {:induction false} CallResultsStable(s: Store, t: Store, cutoff: nat, row: ResultRow, lo: nat, hi: nat)
    requires Grown(s, t, cutoff)
    ensures CallResults(t, cutoff, row, lo, hi) == CallResults(s, cutoff, row, lo, hi)
    decreases hi
  {
    if hi > lo {
      CallResultsStable(s, t, cutoff, row, lo, hi - 1);
      if hi - 1 in row.calls {
        ToolResultStable(s.tools, t.tools, cutoff, row.calls[hi - 1]);
      }
    }
  }

  /** Every read of a view is the same on two stores. */
  ghost predicate SameReads(s: Store, t: Store, cutoff: nat) {
    && SettingsOf(t.facts, cutoff) == SettingsOf(s.facts, cutoff)
    && (forall lo: nat, hi: nat :: hi <= cutoff ==> Entries(t, lo, hi) == Entries(s, lo, hi))
    && (forall pos: nat :: VisibleResult(t, cutoff, pos) == VisibleResult(s, cutoff, pos))
    && (forall pos: nat, anchored :: ModelOutput(t, cutoff, pos, anchored) == ModelOutput(s, cutoff, pos, anchored))
    && (forall call :: ToolResult(t.tools, cutoff, call) == ToolResult(s.tools, cutoff, call))
    && (forall pos: nat, anchored :: ToolResults(t, cutoff, pos, anchored) == ToolResults(s, cutoff, pos, anchored))
    && s.payloads <= t.payloads
  }

  lemma GrownSameReads(s: Store, t: Store, cutoff: nat)
    requires Grown(s, t, cutoff)
    ensures SameReads(s, t, cutoff)
  {
    SettingsStable(s.facts, t.facts, cutoff);
    forall lo: nat, hi: nat | hi <= cutoff ensures Entries(t, lo, hi) == Entries(s, lo, hi) {
      EntriesStable(s, t, lo, hi);
    }
    forall pos: nat ensures VisibleResult(t, cutoff, pos) == VisibleResult(s, cutoff, pos) {
      if pos < cutoff {
        FindResultStable(s.results, t.results, pos);
      }
    }
    forall call ensures ToolResult(t.tools, cutoff, call) == ToolResult(s.tools, cutoff, call) {
      ToolResultStable(s.tools, t.tools, cutoff, call);
    }
    forall pos: nat, anchored ensures ToolResults(t, cutoff, pos, anchored) == ToolResults(s, cutoff, pos, anchored) {
      var row := VisibleResult(s, cutoff, pos);
      assert VisibleResult(t, cutoff, pos) == row;
      if row.Some? {
        CallResultsStable(s, t, cutoff, row.value, 0, |row.value.items|);
        if row.value.anchor.Some? {
          CallResultsStable(s, t, cutoff, row.value, row.value.anchor.value, |row.value.items|);
        }
      }
    }
  }

  /** Snapshot stability: nothing recorded after an operation was admitted changes what its view reads. */
  lemma SnapshotStable(s: Store, ops: seq<Op>, operation: nat)
    requires Valid(s) && operation in s.operations
    ensures SameReads(s, Run(s, ops), operation)
  {
    RunGrows(s, ops, operation);
    GrownSameReads(s, Run(s, ops), operation);
  }
}
