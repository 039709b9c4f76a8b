/**
 * The compaction-aware selection of adapter.py, and the view it reads through:
 * which history a request carries, and in what order.
 */
module Selection {
  import opened Bytes
  import opened JsonValue
  import opened History
  import opened Snapshots

  /** A selected entry; `anchored` output starts at the compaction's anchor. */
  datatype Chosen = Chosen(entry: Entry, anchored: bool)

  /** `history` of a view: everything, or what lies on one side of a compaction's admission. */
  function HistoryRows(s: Store, cutoff: nat, compaction: Option<nat>, suffix: bool): Result<seq<Entry>> {
    match compaction
    case None => Ok(Entries(s, 0, cutoff))
    case Some(pos) =>
      var row := VisibleResult(s, cutoff, pos);
      if row.None? || row.value.kind != Compaction then Err(Unavailable)
      else if suffix then Ok(Entries(s, row.value.operation, cutoff))
      else Ok(Entries(s, 0, row.value.operation))
  }

  function LastCompaction(es: seq<Entry>): Option<Entry> {
    if es == [] then None
    else
      var last := es[|es| - 1];
      if last.kind == CompactionEntry then Some(last) else LastCompaction(es[..|es| - 1])
  }

  function Plainly(es: seq<Entry>): (r: seq<Chosen>)
    ensures |r| == |es| && forall i :: 0 <= i < |es| ==> r[i] == Chosen(es[i], false)
  {
    seq(|es|, i requires 0 <= i < |es| => Chosen(es[i], false))
  }

  function HostInputs(es: seq<Entry>): seq<Entry> {
    if es == [] then []
    else
      var front := HostInputs(es[..|es| - 1]);
      var last := es[|es| - 1];
      if IsHostInput(last.kind) then front + [last] else front
  }

  function AllBut(es: seq<Entry>, base: Entry): seq<Entry> {
    if es == [] then []
    else
      var front := AllBut(es[..|es| - 1], base);
      var last := es[|es| - 1];
      if last != base then front + [last] else front
  }

  function Selected(s: Store, cutoff: nat): Result<seq<Chosen>> {
    var all := Entries(s, 0, cutoff);
    match LastCompaction(all)
    case None => Ok(Plainly(all))
    case Some(base) =>
      match HistoryRows(s, cutoff, Some(base.key), false)
      case Err(e) => Err(e)
      case Ok(before) =>
        match HistoryRows(s, cutoff, Some(base.key), true)
        case Err(e) => Err(e)
        case Ok(since) =>
          Ok(Plainly(HostInputs(before)) + [Chosen(base, true)] + Plainly(AllBut(since, base)))
  }

  /** One operation's view of the store. */
  class View {
    const core: Core
    const cutoff: nat
    var closed: bool

    constructor (core: Core, cutoff: nat)
      ensures this.core == core && this.cutoff == cutoff && !closed
    {
      this.core, this.cutoff, closed := core, cutoff, false;
    }

    method Close()
      modifies this
      ensures closed
    {
      closed := true;
    }

    /** One row at a time, each query starting after the row before it. */
    method History(compaction: Option<nat>, suffix: bool) returns (r: Result<seq<Entry>>)
      requires !closed
      ensures r == HistoryRows(core.Tables(), cutoff, compaction, suffix)
    {
      hide InStore, NextEntry, FindResult;
      var s := core.Tables();
      var previous, limit := 0, cutoff;
      if compaction.Some? {
        var row := VisibleResult(s, cutoff, compaction.value);
        if row.None? || row.value.kind != Compaction {
          return Err(Unavailable);
        }
        if suffix {
          previous := row.value.operation;
        } else {
          limit := row.value.operation;
        }
      }
      var rows: seq<Entry>, from := [], previous;
      while true
        invariant rows + Entries(s, previous, limit) == Entries(s, from, limit)
        decreases if limit > previous then limit - previous else 0
      {
        NextLeast(s, previous, limit);
        var row := NextEntry(s, previous, limit);
        if row.None? {
          break;
        }
        assert rows + [row.value] + Entries(s, row.value.pos, limit) == rows + Entries(s, previous, limit);
        previous := row.value.pos;
        rows := rows + [row.value];
      }
      assert rows + [] == rows;
      r := Ok(rows);
    }

    method SelectedRecords() returns (r: Result<seq<Chosen>>)
      requires !closed
      ensures r == Selected(core.Tables(), cutoff)
    {
      var all := History(None, false);
      var base: Option<Entry> := None;
      for i := 0 to |all.value|
        invariant base == LastCompaction(all.value[..i])
      {
        assert all.value[..i + 1][..i] == all.value[..i];
        if all.value[i].kind == CompactionEntry {
          base := Some(all.value[i]);
        }
      }
      assert all.value[..|all.value|] == all.value;
      if base.None? {
        return Ok(Plainly(all.value));
      }
      var before := History(Some(base.value.key), false);
      var since := History(Some(base.value.key), true);
      if before.Err? || since.Err? {
        return Err(Unavailable);
      }
      var out: seq<Chosen> := [];
      for i := 0 to |before.value|
        invariant out == Plainly(HostInputs(before.value[..i]))
      {
        assert before.value[..i + 1][..i] == before.value[..i];
        if IsHostInput(before.value[i].kind) {
          out := out + [Chosen(before.value[i], false)];
        }
      }
      assert before.value[..|before.value|] == before.value;
      var head := out + [Chosen(base.value, true)];
      var tail: seq<Chosen> := [];
      for i := 0 to |since.value|
        invariant tail == Plainly(AllBut(since.value[..i], base.value))
      {
        assert since.value[..i + 1][..i] == since.value[..i];
        if since.value[i] != base.value {
          tail := tail + [Chosen(since.value[i], false)];
        }
      }
      assert since.value[..|since.value|] == since.value;
      r := Ok(head + tail);
    }
  }

  // ---------------------------------------------------------------- history in order

  ghost predicate InOrder(es: seq<Entry>) {
    forall i, j :: 0 <= i < j < |es| ==> es[i].pos < es[j].pos
  }

  lemma SamePosition(s: Store, a: Entry, b: Entry)
    requires Ordered(s) && InStore(s, a) && InStore(s, b) && a.pos == b.pos
    ensures a == b
  {}

  /** History is exactly the stored entries in range, once each, in position order. */
  lemma {:induction false} EntriesExact(s: Store, lo: nat, hi: nat)
    requires Ordered(s)
    ensures InOrder(Entries(s, lo, hi))
    ensures forall e :: e in Entries(s, lo, hi) <==> InStore(s, e) && Between(lo, e.pos, hi)
    decreases hi - lo
  {
    hide InStore, Ordered;
    NextLeast(s, lo, hi);
    var next := NextEntry(s, lo, hi);
    if next.Some? {
      EntriesExact(s, next.value.pos, hi);
      var es, rest := Entries(s, lo, hi), Entries(s, next.value.pos, hi);
      assert es == [next.value] + rest;
      forall e | InStore(s, e) && Between(lo, e.pos, hi) ensures e in es {
        if e.pos == next.value.pos {
          SamePosition(s, e, next.value);
        } else {
          assert e in rest;
        }
      }
      forall i, j | 0 <= i < j < |es| ensures es[i].pos < es[j].pos {
        if i == 0 {
          assert es[j] == rest[j - 1] && rest[j - 1] in rest;
        } else {
          assert es[i] == rest[i - 1] && es[j] == rest[j - 1];
        }
      }
    }
  }

  lemma {:induction false} HostInputsExact(es: seq<Entry>)
    requires InOrder(es)
    ensures InOrder(HostInputs(es)) && forall e :: e in HostInputs(es) <==> e in es && IsHostInput(e.kind)
  {
    if es != [] {
      var front := es[..|es| - 1];
      HostInputsExact(front);
      assert es == front + [es[|es| - 1]];
      InOrderAppend(HostInputs(front), front, es);
    }
  }

  lemma {:induction false} AllButExact(es: seq<Entry>, base: Entry)
    requires InOrder(es)
    ensures InOrder(AllBut(es, base)) && forall e :: e in AllBut(es, base) <==> e in es && e != base
  {
    if es != [] {
      var front := es[..|es| - 1];
      AllButExact(front, base);
      assert es == front + [es[|es| - 1]];
      InOrderAppend(AllBut(front, base), front, es);
    }
  }

  lemma InOrderAppend(picked: seq<Entry>, front: seq<Entry>, es: seq<Entry>)
    requires es != [] && front == es[..|es| - 1] && InOrder(es) && InOrder(picked)
    requires forall e :: e in picked ==> e in front
    ensures InOrder(picked + [es[|es| - 1]])
  {
    forall i | 0 <= i < |picked| ensures picked[i].pos < es[|es| - 1].pos {
      assert picked[i] in front;
    }
  }

  lemma {:induction false} LastCompactionExact(es: seq<Entry>)
    requires InOrder(es)
    ensures
      var c := LastCompaction(es);
      && (c.Some? ==> c.value in es && c.value.kind == CompactionEntry)
      && (forall e :: e in es && e.kind == CompactionEntry ==> c.Some? && e.pos <= c.value.pos)
  {
    if es != [] {
      var front := es[..|es| - 1];
      LastCompactionExact(front);
      assert es == front + [es[|es| - 1]];
    }
  }

  lemma {:induction false} FindResultExact(results: seq<ResultRow>, i: nat)
    requires i < |results| && forall j, k :: 0 <= j < k < |results| ==> results[j].pos < results[k].pos
    ensures FindResult(results, results[i].pos) == Some(results[i])
  {
    if i < |results| - 1 {
      FindResultExact(results[..|results| - 1], i);
    }
  }

  /** A result entry leads back to its row. */
  lemma ResultOfEntry(s: Store, cutoff: nat, e: Entry)
    requires Valid(s) && InStore(s, e) && e.pos < cutoff && !IsHostInput(e.kind)
    ensures
      var row := VisibleResult(s, cutoff, e.key);
      row.Some? && LineOfResult(row.value, e) && OkResult(s, row.value)
  {
    var i :| 0 <= i < |s.results| && LineOfResult(s.results[i], e);
    FindResultExact(s.results, i);
  }

  /** The admission position that splits history: that of the latest visible compaction, or 0. */
  ghost function Split(s: Store, cutoff: nat): nat {
    match LastCompaction(Entries(s, 0, cutoff))
    case None => 0
    case Some(base) => match VisibleResult(s, cutoff, base.key) case None => 0 case Some(row) => row.operation
  }

  /** What the selection takes besides the base: host input of any age, and everything since the split but the base. */
  ghost predicate Wanted(s: Store, cutoff: nat, e: Entry) {
    && InStore(s, e) && Between(0, e.pos, cutoff)
    && (IsHostInput(e.kind) || e.pos > Split(s, cutoff))
    && LastCompaction(Entries(s, 0, cutoff)) != Some(e)
  }

  lemma BaseRow(s: Store, cutoff: nat)
    requires Valid(s) && LastCompaction(Entries(s, 0, cutoff)).Some?
    ensures
      var base := LastCompaction(Entries(s, 0, cutoff)).value;
      var row := VisibleResult(s, cutoff, base.key);
      && InStore(s, base) && Between(0, base.pos, cutoff)
      && row.Some? && row.value.kind == Compaction && Split(s, cutoff) == row.value.operation
      && Split(s, cutoff) in s.operations && Split(s, cutoff) < base.pos
  {
    EntriesExact(s, 0, cutoff);
    LastCompactionExact(Entries(s, 0, cutoff));
    ResultOfEntry(s, cutoff, LastCompaction(Entries(s, 0, cutoff)).value);
  }

  lemma OffTheSplit(s: Store, cutoff: nat, e: Entry)
    requires Valid(s) && InStore(s, e) && Split(s, cutoff) in s.operations
    ensures e.pos != Split(s, cutoff)
  {}

  /** A visible selection always exists, and is the two halves around the anchored base. */
  lemma SelectedShape(s: Store, cutoff: nat)
    requires Valid(s)
    ensures Selected(s, cutoff).Ok?
    ensures
      var base := LastCompaction(Entries(s, 0, cutoff));
      base.Some? ==>
        var before, since := Entries(s, 0, Split(s, cutoff)), Entries(s, Split(s, cutoff), cutoff);
        Selected(s, cutoff).value == Plainly(HostInputs(before)) + [Chosen(base.value, true)] + Plainly(AllBut(since, base.value))
  {
    if LastCompaction(Entries(s, 0, cutoff)).Some? {
      BaseRow(s, cutoff);
    }
  }

  /** The selection of a store that some run produced. */
  ghost function Records(s: Store, cutoff: nat): seq<Chosen>
    requires Valid(s)
  {
    SelectedShape(s, cutoff);
    Selected(s, cutoff).value
  }

  /** Host input before `split`, the anchored base once, then everything after `split` but the base. */
  ghost predicate SplitAt(out: seq<Chosen>, at: nat, base: Entry, split: nat) {
    && at < |out| && out[at] == Chosen(base, true)
    && (forall i :: 0 <= i < |out| && i != at ==> !out[i].anchored && out[i].entry != base)
    && (forall i :: 0 <= i < at ==> IsHostInput(out[i].entry.kind) && out[i].entry.pos < split)
    && (forall i :: at < i < |out| ==> out[i].entry.pos > split)
    && (forall i, j :: 0 <= i < j < at ==> out[i].entry.pos < out[j].entry.pos)
    && (forall i, j :: at < i < j < |out| ==> out[i].entry.pos < out[j].entry.pos)
  }

  lemma Joined(left: seq<Entry>, right: seq<Entry>, base: Entry, split: nat)
    requires InOrder(left) && InOrder(right) && base.kind == CompactionEntry
    requires forall i :: 0 <= i < |left| ==> IsHostInput(left[i].kind) && left[i].pos < split
    requires forall i :: 0 <= i < |right| ==> right[i] != base && right[i].pos > split
    ensures SplitAt(Plainly(left) + [Chosen(base, true)] + Plainly(right), |left|, base, split)
  {
    var out := Plainly(left) + [Chosen(base, true)] + Plainly(right);
    assert forall i :: 0 <= i < |left| ==> out[i] == Chosen(left[i], false);
    assert forall i :: |left| < i < |out| ==> out[i] == Chosen(right[i - |left| - 1], false);
  }

  lemma HostSide(s: Store, hi: nat)
    requires Ordered(s)
    ensures
      var left := HostInputs(Entries(s, 0, hi));
      InOrder(left) && forall i :: 0 <= i < |left| ==> IsHostInput(left[i].kind) && left[i].pos < hi
  {
    hide Ordered, InStore, InOrder;
    EntriesExact(s, 0, hi);
    HostInputsExact(Entries(s, 0, hi));
    var left := HostInputs(Entries(s, 0, hi));
    forall i | 0 <= i < |left| ensures IsHostInput(left[i].kind) && left[i].pos < hi {
      assert left[i] in left && left[i] in Entries(s, 0, hi);
    }
  }

  lemma SinceSide(s: Store, lo: nat, hi: nat, base: Entry)
    requires Ordered(s)
    ensures
      var right := AllBut(Entries(s, lo, hi), base);
      InOrder(right) && forall i :: 0 <= i < |right| ==> right[i] != base && right[i].pos > lo
  {
    hide Ordered, InStore, InOrder;
    EntriesExact(s, lo, hi);
    AllButExact(Entries(s, lo, hi), base);
    var right := AllBut(Entries(s, lo, hi), base);
    forall i | 0 <= i < |right| ensures right[i] != base && right[i].pos > lo {
      assert right[i] in right && right[i] in Entries(s, lo, hi);
    }
  }

  /** With a compaction, the selection is split around it at its operation's admission, in order on both sides. */
  lemma SelectionAroundBase(s: Store, cutoff: nat)
    requires Valid(s) && LastCompaction(Entries(s, 0, cutoff)).Some?
    ensures exists at :: SplitAt(Records(s, cutoff), at, LastCompaction(Entries(s, 0, cutoff)).value, Split(s, cutoff))
  {
    hide Valid, InStore, OkResult, Ordered, SplitAt, InOrder;
    var split, base := Split(s, cutoff), LastCompaction(Entries(s, 0, cutoff)).value;
    SelectedShape(s, cutoff);
    ValidOrdered(s);
    EntriesExact(s, 0, cutoff);
    LastCompactionExact(Entries(s, 0, cutoff));
    HostSide(s, split);
    SinceSide(s, split, cutoff, base);
    var left, right := HostInputs(Entries(s, 0, split)), AllBut(Entries(s, split, cutoff), base);
    Joined(left, right, base, split);
    assert SplitAt(Records(s, cutoff), |left|, base, split);
  }

  lemma ValidOrdered(s: Store)
    requires Valid(s)
    ensures Ordered(s)
  {}

  /** Every wanted entry is selected, and nothing else is; none of them is anchored. */
  lemma SelectionExact(s: Store, cutoff: nat, e: Entry)
    requires Valid(s)
    ensures Chosen(e, false) in Records(s, cutoff) <==> Wanted(s, cutoff, e)
  {
    hide Valid, InStore, OkResult;
    ValidOrdered(s);
    SelectedShape(s, cutoff);
    EntriesExact(s, 0, cutoff);
    var base := LastCompaction(Entries(s, 0, cutoff));
    if base.None? {
      PlainlyIn(Entries(s, 0, cutoff), e);
    } else {
      var split := Split(s, cutoff);
      var before, since := Entries(s, 0, split), Entries(s, split, cutoff);
      BaseRow(s, cutoff);
      EntriesExact(s, 0, split);
      EntriesExact(s, split, cutoff);
      HostInputsExact(before);
      AllButExact(since, base.value);
      PlainlyIn(HostInputs(before), e);
      PlainlyIn(AllBut(since, base.value), e);
      if InStore(s, e) {
        OffTheSplit(s, cutoff, e);
      }
      LastCompactionExact(Entries(s, 0, cutoff));
    }
  }

  lemma PlainlyIn(es: seq<Entry>, e: Entry)
    ensures Chosen(e, false) in Plainly(es) <==> e in es
  {
    if e in es {
      var i :| 0 <= i < |es| && es[i] == e;
      assert Plainly(es)[i] == Chosen(e, false);
    }
  }

  /** Without a compaction, the selection is in position order. */
  lemma SelectionInOrder(s: Store, cutoff: nat, i: nat, j: nat)
    requires Valid(s) && LastCompaction(Entries(s, 0, cutoff)).None? && i < j < |Records(s, cutoff)|
    ensures Records(s, cutoff)[i].entry.pos < Records(s, cutoff)[j].entry.pos
  {
    ValidOrdered(s);
    EntriesExact(s, 0, cutoff);
  }

  /** Nothing is selected twice. */
  lemma SelectionOnce(s: Store, cutoff: nat, i: nat, j: nat)
    requires Valid(s) && i < j < |Records(s, cutoff)|
    ensures Records(s, cutoff)[i].entry != Records(s, cutoff)[j].entry
  {
    SelectedShape(s, cutoff);
    EntriesExact(s, 0, cutoff);
    if LastCompaction(Entries(s, 0, cutoff)).Some? {
      SelectionAroundBase(s, cutoff);
    }
  }
}
