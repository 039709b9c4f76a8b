/**
 * What a settlement of integrated_capacity.c says about the run that led to it: which steps
 * raised each flag, which bytes were delivered, and hence which class the attempt completes with.
 */
module Settlements {
  import opened Bytes
  import opened Custody
  import E = Escalation
  import S = Spools

  /** What a run has marked a cell with: its four flags, and the bytes delivered to it. */
  datatype Marks = Marks(prep: bool, storage: bool, limit: bool, transport: bool, gotA: Bytes, gotB: Bytes)

  const UNMARKED := Marks(false, false, false, false, [], [])

  function MarksOf(c: Cell): Marks {
    Marks(c.prepFailed, c.storageFailed, c.overLimit, c.transportFailed, c.gotA, c.gotB)
  }

  /** The cell's preparation fails, or the patch of its file does. */
  ghost predicate FailsPreparation(s: State, step: Step, i: nat) {
    || (step.Prepare? && !step.ok && s.reactor == Preparing(i))
    || (step.SealPatch? && !step.ok && step.i == i)
  }

  /** Bytes for the cell would pass the quota as it was loaded, or cannot be written. */
  ghost predicate FailsStorage(cfg: Config, s: State, step: Step, i: nat) {
    || (step.Charge? && s.reactor.Loaded? && s.reactor.i == i && s.reactor.current + |s.reactor.data| > cfg.quota)
    || (step.Store? && s.reactor.Charged? && s.reactor.i == i && !step.stored)
  }

  /** Bytes for the cell, not refused already, would pass its limit. */
  ghost predicate PassesLimit(cfg: Config, s: State, step: Step, i: nat) {
    && step.Deliver? && step.i == i < |s.cells|
    && !s.cells[i].storageFailed && !s.cells[i].overLimit
    && s.cells[i].bytesA + s.cells[i].bytesB + |step.data| > cfg.limit
  }

  ghost predicate FailsTransport(step: Step, i: nat) {
    step.Done? && !step.ok && step.i == i
  }

  ghost predicate Frees(s: State, step: Step, i: nat) {
    step.Release? && s.owner.Releasing? && s.owner.i == i
  }

  function DataFor(step: Step, i: nat, first: bool): Bytes {
    if step.Deliver? && step.i == i && step.first == first then step.data else []
  }

  /** The marks after a step, from the step alone: freeing the cell removes them all. */
  ghost function Marking(cfg: Config, s: State, step: Step, i: nat, m: Marks): Marks {
    if Frees(s, step, i) then UNMARKED
    else Marks(m.prep || FailsPreparation(s, step, i), m.storage || FailsStorage(cfg, s, step, i),
      m.limit || PassesLimit(cfg, s, step, i), m.transport || FailsTransport(step, i),
      m.gotA + DataFor(step, i, true), m.gotB + DataFor(step, i, false))
  }

  // ---------------------------------------------------------------- one step

  ghost predicate Marked(cfg: Config, s: State, step: Step, i: nat) {
    && i < |s.cells| && Enabled(cfg, s, step) && |Apply(cfg, s, step).cells| == |s.cells|
    && MarksOf(Apply(cfg, s, step).cells[i]) == Marking(cfg, s, step, i, MarksOf(s.cells[i]))
  }

  lemma StepMarks(cfg: Config, s: State, step: Step, i: nat)
    requires Valid(cfg, s) && Enabled(cfg, s, step) && i < |s.cells|
    ensures Marked(cfg, s, step, i)
  {
    hide Valid, Enabled, Apply, Touched, Marking, MarksOf, Marked;
    if i != Touched(s, step) {
      UntouchedMarks(cfg, s, step, i);
    } else if step.ClaimPatch? || step.SealPatch? {
      PatchMarks(cfg, s, step, i);
    } else if LaneOf(step) == OwnerLane {
      OwnerMarks(cfg, s, step, i);
    } else if MovesBytes(step) {
      BytesMarks(cfg, s, step, i);
    } else {
      WorkMarks(cfg, s, step, i);
    }
  }

  lemma UntouchedMarks(cfg: Config, s: State, step: Step, i: nat)
    requires Valid(cfg, s) && Enabled(cfg, s, step) && i < |s.cells| && i != Touched(s, step)
    ensures Marked(cfg, s, step, i)
  {
    hide Valid, Apply, S.Occurs, E.Enabled;
    ValidReactor(cfg, s);
    OneCell(cfg, s, step);
    NoData(s.cells[i]);
  }

  lemma ValidReactor(cfg: Config, s: State)
    requires Valid(cfg, s)
    ensures OkReactor(s)
  {}

  lemma NoData(c: Cell)
    ensures c.gotA + [] == c.gotA && c.gotB + [] == c.gotB
  {}

  lemma PatchMarks(cfg: Config, s: State, step: Step, i: nat)
    requires Valid(cfg, s) && Enabled(cfg, s, step) && (step.ClaimPatch? || step.SealPatch?) && i == Touched(s, step) < |s.cells|
    ensures Marked(cfg, s, step, i)
  {
    hide Valid;
    NoData(s.cells[i]);
    if step.SealPatch? {
      PatchClean(cfg, s, i);
    }
  }

  lemma PatchClean(cfg: Config, s: State, i: nat)
    requires Valid(cfg, s) && IsCell(s, i, Active) && s.cells[i].kind == Patch
    ensures !s.cells[i].prepFailed
  {
    CellOk(cfg, s, i);
  }

  lemma OwnerMarks(cfg: Config, s: State, step: Step, i: nat)
    requires Enabled(cfg, s, step) && LaneOf(step) == OwnerLane && i == Touched(s, step) < |s.cells|
    ensures Marked(cfg, s, step, i)
  {
    NoData(s.cells[i]);
    match step
    case Reserve(_, _) =>
    case Admit(ok) =>
    case Settle(_, unread, ok) => hide AfterSettle; SettleSame(s, i, unread, ok);
    case Uncharge => hide Minus, CellBytes;
    case Release =>
  }

  lemma SettleSame(s: State, i: nat, unread: bool, ok: bool)
    requires i < |s.cells|
    ensures AfterSettle(s, i, unread, ok).cells == s.cells
  {
    hide S.Occurs, Rows, ClassOf, Seen;
  }

  lemma BytesMarks(cfg: Config, s: State, step: Step, i: nat)
    requires Valid(cfg, s) && Enabled(cfg, s, step) && MovesBytes(step) && i == Touched(s, step) < |s.cells|
    ensures Marked(cfg, s, step, i)
  {
    hide Valid;
    NoData(s.cells[i]);
    match step
    case Deliver(_, first, data) => DeliverMarks(cfg, s, i, first, data);
    case Charge => ChargeMarks(cfg, s, i);
    case Store(stored, part) => StoreMarks(cfg, s, i, stored, part);
    case Discard => hide Minus, CellBytes;
    case Clear(at) => ClearMarks(cfg, s, i, at);
  }

  lemma StoreMarks(cfg: Config, s: State, i: nat, stored: bool, part: nat)
    requires Enabled(cfg, s, Store(stored, part)) && i == s.reactor.i
    ensures Marked(cfg, s, Store(stored, part), i)
  {
    hide Plus, Minus, Spooled, Counted;
    NoData(s.cells[i]);
    StoredMarks(s.cells[i], s.reactor.first, s.reactor.data);
    StoredMarks(s.cells[i], s.reactor.first, s.reactor.data[..if part < |s.reactor.data| then part else |s.reactor.data|]);
  }

  lemma StoredMarks(c: Cell, first: bool, data: Bytes)
    ensures MarksOf(Spooled(c, first, data)) == MarksOf(c)
    ensures forall more: Bytes :: MarksOf(Counted(Spooled(c, first, data), first, more)) == MarksOf(c)
  {
    hide Plus;
  }

  lemma ClearMarks(cfg: Config, s: State, i: nat, at: nat)
    requires Enabled(cfg, s, Clear(at)) && i == s.reactor.i
    ensures Marked(cfg, s, Clear(at), i)
  {
    hide E.AfterFailure;
    NoData(s.cells[i]);
  }

  lemma DeliverMarks(cfg: Config, s: State, i: nat, first: bool, data: Bytes)
    requires Valid(cfg, s) && Enabled(cfg, s, Deliver(i, first, data))
    ensures Marked(cfg, s, Deliver(i, first, data), i)
  {
    hide Valid, CellBytes;
    Room(cfg, s, i);
    NoData(s.cells[i]);
  }

  /** What the limit leaves a cell that nothing has spoiled. */
  lemma Room(cfg: Config, s: State, i: nat)
    requires Valid(cfg, s) && i < |s.cells|
    ensures Minus(cfg.limit, CellBytes(s.cells[i])) == cfg.limit - s.cells[i].bytesA - s.cells[i].bytesB
    ensures forall first, data: Bytes :: CellBytes(Received(s.cells[i], first, data)) == CellBytes(s.cells[i])
  {
    Amounts(cfg, s);
    NoWrap(cfg.limit, CellBytes(s.cells[i]));
  }

  lemma ChargeMarks(cfg: Config, s: State, i: nat)
    requires Valid(cfg, s) && Enabled(cfg, s, Charge) && i == s.reactor.i
    ensures Marked(cfg, s, Charge, i)
  {
    hide OkDb, OkHolding, OkCells, OkReactor, OkOwner, Plus, Sum;
    NoWrap(cfg.quota, s.reactor.current);
    NoData(s.cells[i]);
  }

  lemma WorkMarks(cfg: Config, s: State, step: Step, i: nat)
    requires Valid(cfg, s) && Enabled(cfg, s, step) && LaneOf(step) == ReactorLane && !MovesBytes(step)
    requires i == Touched(s, step) < |s.cells|
    ensures Marked(cfg, s, step, i)
  {
    hide Valid, E.AfterTick, E.Apply, E.Spawned, E.Enabled;
    NoData(s.cells[i]);
    if step.Prepare? {
      PreparingClean(cfg, s);
    }
  }

  lemma PreparingClean(cfg: Config, s: State)
    requires Valid(cfg, s) && s.reactor.Preparing?
    ensures s.reactor.i < |s.cells| && MarksOf(s.cells[s.reactor.i]) == UNMARKED
  {}

  // ---------------------------------------------------------------- whole runs

  /** The marks that the steps of a run leave, from `m` at its start. */
  ghost function RunMarks(cfg: Config, s: State, steps: seq<Step>, i: nat, m: Marks): Marks
    requires Follows(cfg, s, steps)
    decreases |steps|
  {
    if steps == [] then m else RunMarks(cfg, Apply(cfg, s, steps[0]), steps[1..], i, Marking(cfg, s, steps[0], i, m))
  }

  lemma {:induction false} RunMarked(cfg: Config, s: State, steps: seq<Step>, i: nat)
    requires Valid(cfg, s) && Follows(cfg, s, steps) && i < |s.cells|
    ensures |Run(cfg, s, steps).cells| == |s.cells|
    ensures MarksOf(Run(cfg, s, steps).cells[i]) == RunMarks(cfg, s, steps, i, MarksOf(s.cells[i]))
    decreases |steps|
  {
    hide Valid, Enabled, Apply, Marking, MarksOf;
    if steps != [] {
      StepKeepsValid(cfg, s, steps[0]);
      StepMarks(cfg, s, steps[0], i);
      RunMarked(cfg, Apply(cfg, s, steps[0]), steps[1..], i);
    }
  }

  /** Over every run: a flag is up exactly when a step since the cell was last freed raised it, and its bytes are those delivered. */
  lemma FaultsExact(cfg: Config, s: State, steps: seq<Step>, i: nat)
    requires Initial(s) && cfg.limit < WORD && cfg.quota < WORD && Follows(cfg, s, steps) && i < |s.cells|
    ensures |Run(cfg, s, steps).cells| == |s.cells|
    ensures MarksOf(Run(cfg, s, steps).cells[i]) == RunMarks(cfg, s, steps, i, UNMARKED)
  {
    InitialValid(cfg, s);
    RunMarked(cfg, s, steps, i);
  }

  /** A sealed cell can be settled, and its attempt's rows are what its run amounts to. */
  lemma SettlementExact(cfg: Config, s: State, steps: seq<Step>, i: nat, unread: bool)
    requires Initial(s) && cfg.limit < WORD && cfg.quota < WORD && Follows(cfg, s, steps) && i < |s.cells|
    requires Enabled(cfg, Run(cfg, s, steps), Settle(i, unread, true))
    ensures
      var e := Run(cfg, s, steps);
      var t := Apply(cfg, e, Settle(i, unread, true));
      && |e.cells| == |s.cells| && t.owner == Settled(i)
      && OkRecord(t.db, Evidence(e.cells[i], unread), e.cells[i].attempt)
      && (e.cells[i].kind == ModelCall ==> ModelSettled(t.db, e.cells[i].attempt, RunMarks(cfg, s, steps, i, UNMARKED), unread))
  {
    hide Valid, OkRecord, MarksOf, Apply, Marking, ModelSettled;
    InitialValid(cfg, s);
    RunKeepsValid(cfg, s, steps);
    FaultsExact(cfg, s, steps, i);
    var e := Run(cfg, s, steps);
    Settling(cfg, e, i, unread);
    if e.cells[i].kind == ModelCall {
      ModelChild(cfg, e, i);
      ModelClass(Apply(cfg, e, Settle(i, unread, true)).db, Evidence(e.cells[i], unread), e.cells[i].attempt);
    }
  }

  lemma ModelChild(cfg: Config, s: State, i: nat)
    requires Valid(cfg, s) && i < |s.cells| && s.cells[i].kind == ModelCall
    ensures !s.cells[i].child.cancelled
  {
    CellOk(cfg, s, i);
  }

  /** A model call's class from what the run did, and its one artifact: everything delivered, kept only on success. */
  ghost predicate ModelSettled(db: Db, a: nat, m: Marks, unread: bool) {
    && a in db.completions
    && db.completions[a] ==
      (if m.prep then PreparationFailure
       else if m.storage then LocalResourceFailure
       else if m.limit then OutputLimit
       else if m.transport then TransportFailure
       else if !unread && S.Occurs(m.gotA, S.NEEDLE) then Success
       else ProtocolError)
    && ((a, 0) in db.artifacts <==> db.completions[a] == Success) && (a, 1) !in db.artifacts
    && ((a, 0) in db.artifacts ==> db.artifacts[(a, 0)] == m.gotA)
  }

  lemma ModelClass(db: Db, ev: Evidence, a: nat)
    requires OkRecord(db, ev, a) && ev.cell.kind == ModelCall && !ev.cell.child.cancelled
    ensures ModelSettled(db, a, MarksOf(ev.cell), ev.unread)
  {
    hide S.Occurs;
  }

  lemma Settling(cfg: Config, s: State, i: nat, unread: bool)
    requires Valid(cfg, s) && Enabled(cfg, s, Settle(i, unread, true))
    ensures var t := Apply(cfg, s, Settle(i, unread, true));
      t.owner == Settled(i) && OkRecord(t.db, Evidence(s.cells[i], unread), s.cells[i].attempt)
  {
    hide Valid, OkRecord, Rows, ClassOf, Seen;
    CountsFit(cfg, s, i);
    SettlementDue(cfg, s, i);
    SettledRecord(cfg, s, i, unread, true);
  }

  // ---------------------------------------------------------------- the life of a cell

  /** The step ends the cell's work. */
  ghost predicate Seals(s: State, step: Step, i: nat, sealed: bool) {
    || (step.Prepare? && s.reactor == Preparing(i) && !step.ok)
    || (step.Done? && step.i == i) || (step.SealPatch? && step.i == i)
    || (step.Look? && step.i == i && sealed)
  }

  /** Every change of a cell's state: who makes it, and when. */
  lemma LifeCycle(cfg: Config, s: State, step: Step, i: nat)
    requires Valid(cfg, s) && Enabled(cfg, s, step) && i < |s.cells|
    ensures
      var s' := Apply(cfg, s, step);
      && |s'.cells| == |s.cells|
      && s'.cells[i].kind == s.cells[i].kind
      && s'.cells[i].state ==
        if (step.Claim? || step.ClaimPatch?) && step.i == i then Active
        else if Seals(s, step, i, s'.cells[i].child.sealed) then Sealed
        else if step.Reserve? && step.i == i && s.cells[i].state == Free then Reserved
        else if step.Admit? && s.owner.i == i then (if step.ok && s.owner.id !in s.db.attempts then Dispatchable else Free)
        else if Frees(s, step, i) then Free
        else s.cells[i].state
    ensures
      var admitted := step.Admit? && step.ok && s.owner.id !in s.db.attempts;
      && Apply(cfg, s, step).db.attempts == s.db.attempts + (if admitted then {s.owner.id} else {})
      && (admitted && s.owner.i == i ==> Apply(cfg, s, step).cells[i].attempt == s.owner.id)
  {
    hide Valid, Enabled, Apply, Touched;
    ValidReactor(cfg, s);
    OneCell(cfg, s, step);
    LanesApart(cfg, s, step);
    if LaneOf(step) != ReactorLane {
      OthersLife(cfg, s, step, i);
    } else if MovesBytes(step) {
      BytesLife(cfg, s, step, i);
    } else {
      WorkLife(cfg, s, step, i);
    }
  }

  lemma OthersLife(cfg: Config, s: State, step: Step, i: nat)
    requires Enabled(cfg, s, step) && i < |s.cells| && LaneOf(step) != ReactorLane
    ensures
      var s' := Apply(cfg, s, step);
      var admitted := step.Admit? && step.ok && s.owner.id !in s.db.attempts;
      && |s'.cells| == |s.cells|
      && s'.cells[i].kind == s.cells[i].kind
      && s'.cells[i].state ==
        (if step.ClaimPatch? && step.i == i then Active
        else if step.SealPatch? && step.i == i then Sealed
        else if step.Reserve? && step.i == i && s.cells[i].state == Free then Reserved
        else if step.Admit? && s.owner.i == i then (if admitted then Dispatchable else Free)
        else if Frees(s, step, i) then Free
        else s.cells[i].state)
      && s'.db.attempts == s.db.attempts + (if admitted then {s.owner.id} else {})
      && (admitted && s.owner.i == i ==> s'.cells[i].attempt == s.owner.id)
  {
    hide S.Occurs, Rows, ClassOf, Seen, CellBytes, Minus;
  }

  lemma BytesLife(cfg: Config, s: State, step: Step, i: nat)
    requires Enabled(cfg, s, step) && OkReactor(s) && i < |s.cells| && MovesBytes(step)
    ensures
      var s' := Apply(cfg, s, step);
      && |s'.cells| == |s.cells|
      && s'.cells[i].kind == s.cells[i].kind && s'.cells[i].state == s.cells[i].state
      && LaneOf(step) == ReactorLane
  {
    match step
    case Deliver(k, first, data) => hide AfterDeliver; DeliverLife(cfg, s, k, first, data);
    case Charge => hide Minus, Plus;
    case Store(stored, part) => hide Minus, Plus;
    case Discard => hide Minus, CellBytes;
    case Clear(at) => hide E.AfterFailure;
  }

  lemma DeliverLife(cfg: Config, s: State, k: nat, first: bool, data: Bytes)
    requires k < |s.cells|
    ensures var cells := AfterDeliver(cfg, s, k, first, data).cells;
      && |cells| == |s.cells| && cells == s.cells[k := cells[k]]
      && cells[k].kind == s.cells[k].kind && cells[k].state == s.cells[k].state
  {
    hide Minus, CellBytes;
  }

  lemma WorkLife(cfg: Config, s: State, step: Step, i: nat)
    requires Enabled(cfg, s, step) && OkReactor(s) && i < |s.cells| && LaneOf(step) == ReactorLane && !MovesBytes(step)
    ensures
      var s' := Apply(cfg, s, step);
      && |s'.cells| == |s.cells|
      && s'.cells[i].kind == s.cells[i].kind
      && s'.cells[i].state ==
        (if step.Claim? && step.i == i then Active
        else if Seals(s, step, i, s'.cells[i].child.sealed) then Sealed
        else s.cells[i].state)
  {
    hide S.Occurs, E.AfterTick, E.Apply, E.Spawned;
  }

  // ---------------------------------------------------------------- the child of a cell

  /** What a step does to a cell's child: the event of its life that the step is, if any. */
  ghost function ChildEvent(s: State, step: Step, i: nat): Option<E.Event> {
    if i >= |s.cells| || s.cells[i].kind != Shell then None
    else
      match step
      case Look(k, at, exited) => if k == i then Some(E.Tick(at, exited)) else None
      case EndOfFile(k, first) => if k == i then Some(E.EndOfFile(first)) else None
      case Clear(at) => if s.reactor.Discarding? && s.reactor.i == i then Some(E.Failure(at)) else None
      case _ => None
  }

  /** A shell's child starts when its preparation succeeds, lives by the events of its escalation, and goes with its cell. */
  lemma ChildLives(cfg: Config, s: State, step: Step, i: nat)
    requires Valid(cfg, s) && Enabled(cfg, s, step) && i < |s.cells|
    ensures
      var s', event := Apply(cfg, s, step), ChildEvent(s, step, i);
      && |s'.cells| == |s.cells|
      && s'.cells[i].child ==
        (if event.Some? then E.Apply(s.cells[i].child, event.value, cfg.grace)
         else if step.Prepare? && step.ok && s.reactor == Preparing(i) && s.cells[i].kind == Shell
         then E.Spawned(step.at, cfg.cancelAfter)
         else if Frees(s, step, i) then NO_CHILD
         else s.cells[i].child)
      && s'.cells[i].status ==
        (if step.SealPatch? && step.i == i then step.status else if Frees(s, step, i) then 0 else s.cells[i].status)
  {
    hide Valid, Enabled, Apply, Touched;
    ValidReactor(cfg, s);
    OneCell(cfg, s, step);
    if LaneOf(step) != ReactorLane {
      OthersChild(cfg, s, step, i);
    } else if MovesBytes(step) {
      BytesChild(cfg, s, step, i);
    } else {
      WorkChild(cfg, s, step, i);
    }
  }

  lemma OthersChild(cfg: Config, s: State, step: Step, i: nat)
    requires Enabled(cfg, s, step) && i < |s.cells| && LaneOf(step) != ReactorLane
    ensures
      var s' := Apply(cfg, s, step);
      && |s'.cells| == |s.cells| && ChildEvent(s, step, i).None?
      && s'.cells[i].child == (if Frees(s, step, i) then NO_CHILD else s.cells[i].child)
      && s'.cells[i].status ==
        (if step.SealPatch? && step.i == i then step.status else if Frees(s, step, i) then 0 else s.cells[i].status)
  {
    hide AfterSettle, CellBytes, Minus;
    if step.Settle? {
      SettleSame(s, step.i, step.unread, step.ok);
    }
  }

  lemma BytesChild(cfg: Config, s: State, step: Step, i: nat)
    requires Enabled(cfg, s, step) && OkReactor(s) && i < |s.cells| && MovesBytes(step)
    ensures
      var s', event := Apply(cfg, s, step), ChildEvent(s, step, i);
      && |s'.cells| == |s.cells| && s'.cells[i].status == s.cells[i].status && (event.Some? ==> step.Clear?)
      && s'.cells[i].child == (if event.Some? then E.Apply(s.cells[i].child, event.value, cfg.grace) else s.cells[i].child)
  {
    match step
    case Deliver(k, first, data) =>
      hide AfterDeliver;
      DeliverChild(cfg, s, k, first, data);
    case Charge => hide Minus, Plus;
    case Store(stored, part) => hide Minus, Plus;
    case Discard => hide Minus, CellBytes;
    case Clear(at) => hide E.AfterFailure;
  }

  lemma DeliverChild(cfg: Config, s: State, k: nat, first: bool, data: Bytes)
    requires k < |s.cells|
    ensures var cells := AfterDeliver(cfg, s, k, first, data).cells;
      && |cells| == |s.cells| && cells == s.cells[k := cells[k]]
      && cells[k].child == s.cells[k].child && cells[k].status == s.cells[k].status
  {
    hide Minus, CellBytes;
  }

  lemma WorkChild(cfg: Config, s: State, step: Step, i: nat)
    requires Enabled(cfg, s, step) && OkReactor(s) && i < |s.cells| && LaneOf(step) == ReactorLane && !MovesBytes(step)
    ensures
      var s', event := Apply(cfg, s, step), ChildEvent(s, step, i);
      && |s'.cells| == |s.cells| && s'.cells[i].status == s.cells[i].status
      && s'.cells[i].child ==
        (if event.Some? then E.Apply(s.cells[i].child, event.value, cfg.grace)
         else if step.Prepare? && step.ok && s.reactor == Preparing(i) && s.cells[i].kind == Shell
         then E.Spawned(step.at, cfg.cancelAfter)
         else s.cells[i].child)
  {
    hide S.Occurs, E.AfterTick, E.Spawned;
  }

  // ---------------------------------------------------------------- nothing waits in vain

  /** A reactor that is at work on a cell can go on, however the work turns out. */
  lemma ReactorGoesOn(cfg: Config, s: State, ok: bool, part: nat, at: nat)
    requires Valid(cfg, s) && at > 0
    ensures s.reactor.Preparing? ==> Enabled(cfg, s, Prepare(ok, ok, at))
    ensures s.reactor.Loaded? ==> Enabled(cfg, s, Charge)
    ensures s.reactor.Charged? ==> Enabled(cfg, s, Store(ok, part))
    ensures s.reactor.Failing? ==> Enabled(cfg, s, Discard)
    ensures s.reactor.Discarding? && at >= s.cells[s.reactor.i].child.clock ==> Enabled(cfg, s, Clear(at))
  {}

  /**
   * While the reactor polls, each of its cells can be claimed, can be given bytes and can come to its end, and so
   * can the patch lane's at any time: a model call fails, or ends well unless its output was refused; a shell's pipes
   * end one by one, and it is looked at at any later time.
   */
  lemma CellGoesOn(cfg: Config, s: State, i: nat, first: bool, data: Bytes, ok: bool, at: nat)
    requires Valid(cfg, s) && i < |s.cells| && |data| < WORD
    ensures
      var c := s.cells[i];
      && (c.state == Dispatchable && c.kind == Patch ==> Enabled(cfg, s, ClaimPatch(i)))
      && (c.state == Active && c.kind == Patch ==> Enabled(cfg, s, SealPatch(i, ok, at)))
      && (s.reactor.Polling? && c.state == Dispatchable && c.kind != Patch ==> Enabled(cfg, s, Claim(i)))
      && (s.reactor.Polling? && c.state == Active && c.kind == ModelCall ==>
            && Enabled(cfg, s, Done(i, false))
            && (!c.storageFailed && !c.overLimit ==> Enabled(cfg, s, Done(i, true)) && Enabled(cfg, s, Deliver(i, true, data))))
      && (s.reactor.Polling? && c.state == Active && c.kind == Shell ==>
            && (at >= c.child.clock ==> Enabled(cfg, s, Look(i, at, ok)))
            && ((if first then c.child.pipeA else c.child.pipeB) ==>
                 Enabled(cfg, s, EndOfFile(i, first)) && Enabled(cfg, s, Deliver(i, first, data))))
  {
    hide OkDb, OkHolding, Conserved, OkOwner;
    CellOk(cfg, s, i);
  }

  /** The owner can go on wherever it is, and when it waits it can settle any sealed cell and admit to any free one. */
  lemma OwnerGoesOn(cfg: Config, s: State, i: nat, id: nat, ok: bool)
    requires Valid(cfg, s) && i < |s.cells|
    ensures s.owner.Admitting? ==> Enabled(cfg, s, Admit(ok))
    ensures s.owner.Settled? ==> Enabled(cfg, s, Uncharge)
    ensures s.owner.Releasing? ==> Enabled(cfg, s, Release)
    ensures s.owner.Waiting? && s.cells[i].state == Sealed ==>
      Enabled(cfg, s, Settle(i, false, true)) && Apply(cfg, s, Settle(i, false, true)).owner == Settled(i)
    ensures s.owner.Waiting? && s.cells[i].state == Free ==>
      Enabled(cfg, s, Reserve(i, id)) && Apply(cfg, s, Reserve(i, id)).owner == Admitting(i, id)
  {
    hide OkDb, OkHolding, Conserved, OkRecord;
    if s.owner.Waiting? && s.cells[i].state == Sealed {
      Settling(cfg, s, i, false);
    }
  }
}
