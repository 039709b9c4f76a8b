/**
 * The physical custody of integrated_capacity.c: fixed cells shared by an owner lane, a reactor
 * lane and a patch lane, one scratch counter both of the first two change, and a settlement
 * transaction for each admitted attempt.
 *
 * A step is what one lane does between two atomic operations on shared state. What curl, pipes,
 * children, files and SQLite do is the environment's choice; a transport whose bytes were refused
 * delivers no more. The fatal teardown is not part of this model.
 */
module Custody {
  import opened Bytes
  import E = Escalation
  import S = Spools

  const WORD := 0x1_0000_0000_0000_0000

  /** Unsigned 64-bit arithmetic. */
  function Plus(a: nat, b: nat): nat { (a + b) % WORD }
  function Minus(a: nat, b: nat): nat { (a - b) % WORD }

  datatype CellState = Free | Reserved | Dispatchable | Active | Sealed

  datatype Kind = ModelCall | Shell | Patch

  /** `gotA` and `gotB` are all the bytes the transport or the pipes delivered to the cell. */
  datatype Cell = Cell(state: CellState, kind: Kind, prepFailed: bool, transportFailed: bool, storageFailed: bool,
    overLimit: bool, attempt: nat, bytesA: nat, bytesB: nat, spoolA: Option<Bytes>, spoolB: Option<Bytes>,
    gotA: Bytes, gotB: Bytes, easy: bool, child: E.Bash, status: nat)

  const NO_CHILD: E.Bash := E.Bash(0, 0, 0, false, false, false, false, false, false, false, false, [])

  function Cleared(kind: Kind): Cell {
    Cell(Free, kind, false, false, false, false, 0, 0, 0, None, None, [], [], false, NO_CHILD, 0)
  }

  datatype Class =
    | PreparationFailure | LocalResourceFailure | OutputLimit | TransportFailure | BashCancelled
    | PatchConflict | PatchIndeterminate | Success | ProtocolError

  /** The durable tables. An operation has its attempt's number; artifacts are keyed by attempt and part. */
  datatype Db = Db(attempts: set<nat>, completions: map<nat, Class>, resolutions: map<nat, nat>, artifacts: map<(nat, nat), Bytes>)

  /** Where the reactor is. */
  datatype Reactor =
    | Polling
    | Preparing(i: nat)
    | Loaded(i: nat, first: bool, data: Bytes, current: nat)
    | Charged(i: nat, first: bool, data: Bytes)
    | Failing(i: nat)
    | Discarding(i: nat, charge: nat)

  /** Where the owner is. */
  datatype Owner = Waiting | Admitting(i: nat, id: nat) | Settled(i: nat) | Releasing(i: nat, charge: nat) | Stopped

  datatype Config = Config(limit: nat, quota: nat, cancelAfter: nat, grace: E.Grace)

  /** The sealed cell an attempt was settled from, and whether the search of its spool was cut short by a failed read. */
  datatype Evidence = Evidence(cell: Cell, unread: bool)

  datatype State = State(cells: seq<Cell>, scratch: nat, reactor: Reactor, owner: Owner, db: Db, evidence: map<nat, Evidence>)

  datatype Step =
    // the reactor
    | Claim(i: nat)
    | Prepare(ok: bool, spools: bool, at: nat)
    | Deliver(i: nat, first: bool, data: Bytes)
    | Charge
    | Store(stored: bool, part: nat)
    | Discard
    | Clear(at: nat)
    | EndOfFile(i: nat, first: bool)
    | Done(i: nat, ok: bool)
    | Look(i: nat, at: nat, exited: bool)
    // the patch lane
    | ClaimPatch(i: nat)
    | SealPatch(i: nat, ok: bool, status: nat)
    // the owner
    | Reserve(i: nat, id: nat)
    | Admit(ok: bool)
    | Settle(i: nat, unread: bool, ok: bool)
    | Uncharge
    | Release

  // ---------------------------------------------------------------- one cell

  predicate Flagged(c: Cell) {
    c.storageFailed || c.overLimit
  }

  function Text(spool: Option<Bytes>): Bytes {
    if spool.Some? then spool.value else []
  }

  function Truncated(spool: Option<Bytes>): Option<Bytes> {
    if spool.Some? then Some([]) else None
  }

  function Received(c: Cell, first: bool, data: Bytes): Cell {
    if first then c.(gotA := c.gotA + data) else c.(gotB := c.gotB + data)
  }

  function Spooled(c: Cell, first: bool, data: Bytes): Cell {
    if first then c.(spoolA := Some(Text(c.spoolA) + data)) else c.(spoolB := Some(Text(c.spoolB) + data))
  }

  function Counted(c: Cell, first: bool, data: Bytes): Cell {
    if first then c.(bytesA := Plus(c.bytesA, |data|)) else c.(bytesB := Plus(c.bytesB, |data|))
  }

  function Emptied(c: Cell): Cell {
    c.(spoolA := Truncated(c.spoolA), spoolB := Truncated(c.spoolB), bytesA := 0, bytesB := 0)
  }

  function CellBytes(c: Cell): nat {
    Plus(c.bytesA, c.bytesB)
  }

  /** The search for the terminal event finds it, unless a read fails. */
  ghost predicate Seen(c: Cell, unread: bool) {
    !unread && S.Occurs(Text(c.spoolA), S.NEEDLE)
  }

  /** `seen`: the search for the terminal event found it. */
  predicate ValidResult(c: Cell, seen: bool) {
    !c.prepFailed && !Flagged(c) && !c.transportFailed && (c.kind == ModelCall ==> seen)
  }

  predicate Imports(c: Cell, seen: bool) {
    ValidResult(c, seen) || (c.kind == Shell && c.child.cancelled && !Flagged(c))
  }

  function ClassOf(c: Cell, seen: bool): Class {
    if c.prepFailed then PreparationFailure
    else if c.storageFailed then LocalResourceFailure
    else if c.overLimit then OutputLimit
    else if c.transportFailed then TransportFailure
    else if c.child.cancelled then BashCancelled
    else if c.kind == Patch && c.status == 2 then PatchConflict
    else if c.kind == Patch && c.status != 1 then PatchIndeterminate
    else if ValidResult(c, seen) then Success
    else ProtocolError
  }

  /** The artifacts the transaction inserts: as many bytes of each spool as were counted. */
  function Rows(c: Cell, seen: bool): map<(nat, nat), Bytes>
    requires c.bytesA <= |Text(c.spoolA)| && c.bytesB <= |Text(c.spoolB)|
  {
    if !Imports(c, seen) then map[]
    else
      (if c.spoolA.Some? then map[(c.attempt, 0) := c.spoolA.value[..c.bytesA]] else map[])
      + (if c.spoolB.Some? then map[(c.attempt, 1) := c.spoolB.value[..c.bytesB]] else map[])
  }

  // ---------------------------------------------------------------- the steps

  predicate IsCell(s: State, i: nat, state: CellState) {
    i < |s.cells| && s.cells[i].state == state
  }

  ghost predicate Enabled(cfg: Config, s: State, step: Step) {
    match step
    case Claim(i) => s.reactor.Polling? && IsCell(s, i, Dispatchable) && s.cells[i].kind != Patch
    case Prepare(_, _, at) => s.reactor.Preparing? && s.reactor.i < |s.cells| && at > 0
    case Deliver(i, first, data) =>
      && s.reactor.Polling? && IsCell(s, i, Active) && |data| < WORD
      && var c := s.cells[i];
         (c.kind == ModelCall ==> first && c.easy && !Flagged(c))
         && (c.kind == Shell ==> if first then c.child.pipeA else c.child.pipeB)
         && c.kind != Patch
    case Charge => s.reactor.Loaded? && s.reactor.i < |s.cells|
    case Store(_, _) => s.reactor.Charged? && s.reactor.i < |s.cells|
    case Discard => s.reactor.Failing? && s.reactor.i < |s.cells|
    case Clear(at) =>
      && s.reactor.Discarding? && s.reactor.i < |s.cells|
      && (s.cells[s.reactor.i].kind == Shell ==> at >= s.cells[s.reactor.i].child.clock)
    case EndOfFile(i, first) =>
      && s.reactor.Polling? && IsCell(s, i, Active) && s.cells[i].kind == Shell
      && E.Enabled(s.cells[i].child, E.EndOfFile(first))
    case Done(i, ok) =>
      && s.reactor.Polling? && IsCell(s, i, Active) && s.cells[i].kind == ModelCall && s.cells[i].easy
      && (ok ==> !Flagged(s.cells[i]))
    case Look(i, at, exited) =>
      && s.reactor.Polling? && IsCell(s, i, Active) && s.cells[i].kind == Shell
      && E.Enabled(s.cells[i].child, E.Tick(at, exited))
    case ClaimPatch(i) => IsCell(s, i, Dispatchable) && s.cells[i].kind == Patch
    case SealPatch(i, _, _) => IsCell(s, i, Active) && s.cells[i].kind == Patch
    case Reserve(i, _) => s.owner.Waiting? && i < |s.cells|
    case Admit(_) => s.owner.Admitting? && s.owner.i < |s.cells|
    case Settle(i, _, _) => s.owner.Waiting? && IsCell(s, i, Sealed)
    case Uncharge => s.owner.Settled? && s.owner.i < |s.cells|
    case Release => s.owner.Releasing? && s.owner.i < |s.cells|
  }

  function Put(s: State, i: nat, c: Cell): State
    requires i < |s.cells|
  {
    s.(cells := s.cells[i := c])
  }

  function AfterPrepare(cfg: Config, s: State, ok: bool, spools: bool, at: nat): State
    requires s.reactor.Preparing? && s.reactor.i < |s.cells|
  {
    var i, c := s.reactor.i, s.cells[s.reactor.i];
    var spool := if ok || spools then Some([]) else None;
    var c1 := if c.kind == Shell then c.(spoolA := spool, spoolB := spool) else c.(spoolA := spool);
    var c2 :=
      if !ok then c1.(prepFailed := true, state := Sealed)
      else if c.kind == Shell then c1.(child := E.Spawned(at, cfg.cancelAfter))
      else c1.(easy := true);
    Put(s, i, c2).(reactor := Polling)
  }

  /** `model_write` or a pipe read, as far as the load of the shared counter. */
  function AfterDeliver(cfg: Config, s: State, i: nat, first: bool, data: Bytes): State
    requires i < |s.cells|
  {
    var c := Received(s.cells[i], first, data);
    if Flagged(c) then Put(s, i, c)
    else if |data| > Minus(cfg.limit, CellBytes(c)) then Put(s, i, c.(overLimit := true)).(reactor := Failing(i))
    else Put(s, i, c).(reactor := Loaded(i, first, data, s.scratch))
  }

  /** The comparison with the value loaded before, and the addition to the value there is now. */
  function AfterCharge(cfg: Config, s: State): State
    requires s.reactor.Loaded? && s.reactor.i < |s.cells|
  {
    var r := s.reactor;
    if |r.data| > Minus(cfg.quota, r.current)
    then Put(s, r.i, s.cells[r.i].(storageFailed := true)).(reactor := Failing(r.i))
    else s.(scratch := Plus(s.scratch, |r.data|), reactor := Charged(r.i, r.first, r.data))
  }

  function AfterStore(s: State, stored: bool, part: nat): State
    requires s.reactor.Charged? && s.reactor.i < |s.cells|
  {
    var r, c := s.reactor, s.cells[s.reactor.i];
    if stored then Put(s, r.i, Counted(Spooled(c, r.first, r.data), r.first, r.data)).(reactor := Polling)
    else
      var kept := r.data[..if part < |r.data| then part else |r.data|];
      Put(s, r.i, Spooled(c, r.first, kept).(storageFailed := true)).(
        scratch := Minus(s.scratch, |r.data|), reactor := Failing(r.i))
  }

  function AfterClear(cfg: Config, s: State, at: nat): State
    requires s.reactor.Discarding? && s.reactor.i < |s.cells|
  {
    var c := Emptied(s.cells[s.reactor.i]);
    Put(s, s.reactor.i, if c.kind == Shell then c.(child := E.AfterFailure(c.child, at, cfg.grace)) else c).(reactor := Polling)
  }

  function AfterLook(cfg: Config, s: State, i: nat, at: nat, exited: bool): State
    requires i < |s.cells|
  {
    var child := E.AfterTick(s.cells[i].child, at, exited, cfg.grace);
    Put(s, i, s.cells[i].(child := child, state := if child.sealed then Sealed else s.cells[i].state))
  }

  function AfterAdmit(s: State, ok: bool): State
    requires s.owner.Admitting? && s.owner.i < |s.cells|
  {
    var i, id := s.owner.i, s.owner.id;
    if ok && id !in s.db.attempts
    then Put(s, i, s.cells[i].(attempt := id, state := Dispatchable)).(
      db := s.db.(attempts := s.db.attempts + {id}), owner := Waiting)
    else Put(s, i, s.cells[i].(state := Free)).(owner := Stopped)
  }

  /** The transaction: artifacts, completion and resolution together, or nothing. */
  ghost function AfterSettle(s: State, i: nat, unread: bool, ok: bool): State
    requires i < |s.cells|
  {
    var c, seen := s.cells[i], Seen(s.cells[i], unread);
    if ok && c.bytesA <= |Text(c.spoolA)| && c.bytesB <= |Text(c.spoolB)|
      && c.attempt in s.db.attempts && c.attempt !in s.db.completions && c.attempt !in s.db.resolutions
    then
      s.(db := s.db.(
           completions := s.db.completions[c.attempt := ClassOf(c, seen)],
           resolutions := s.db.resolutions[c.attempt := c.attempt],
           artifacts := s.db.artifacts + Rows(c, seen)),
         evidence := s.evidence[c.attempt := Evidence(c, unread)], owner := Settled(i))
    else s.(owner := Stopped)
  }

  ghost function Apply(cfg: Config, s: State, step: Step): State
    requires Enabled(cfg, s, step)
  {
    match step
    case Claim(i) => Put(s, i, s.cells[i].(state := Active)).(reactor := Preparing(i))
    case Prepare(ok, spools, at) => AfterPrepare(cfg, s, ok, spools, at)
    case Deliver(i, first, data) => AfterDeliver(cfg, s, i, first, data)
    case Charge => AfterCharge(cfg, s)
    case Store(stored, part) => AfterStore(s, stored, part)
    case Discard =>
      var charge := CellBytes(s.cells[s.reactor.i]);
      s.(scratch := Minus(s.scratch, charge), reactor := Discarding(s.reactor.i, charge))
    case Clear(at) => AfterClear(cfg, s, at)
    case EndOfFile(i, first) => Put(s, i, s.cells[i].(child := E.Apply(s.cells[i].child, E.EndOfFile(first), cfg.grace)))
    case Done(i, ok) =>
      Put(s, i, s.cells[i].(transportFailed := s.cells[i].transportFailed || !ok, easy := false, state := Sealed))
    case Look(i, at, exited) => AfterLook(cfg, s, i, at, exited)
    case ClaimPatch(i) => Put(s, i, s.cells[i].(state := Active))
    case SealPatch(i, ok, status) => Put(s, i, s.cells[i].(prepFailed := !ok, status := status, state := Sealed))
    case Reserve(i, id) =>
      if s.cells[i].state == Free then Put(s, i, s.cells[i].(state := Reserved)).(owner := Admitting(i, id))
      else s.(owner := Stopped)
    case Admit(ok) => AfterAdmit(s, ok)
    case Settle(i, unread, ok) => AfterSettle(s, i, unread, ok)
    case Uncharge =>
      var charge := CellBytes(s.cells[s.owner.i]);
      s.(scratch := Minus(s.scratch, charge), owner := Releasing(s.owner.i, charge))
    case Release => Put(s, s.owner.i, Cleared(s.cells[s.owner.i].kind)).(owner := Waiting)
  }

  // ---------------------------------------------------------------- the invariant

  function Sum(cells: seq<Cell>): nat {
    if cells == [] then 0 else Sum(cells[..|cells| - 1]) + cells[|cells| - 1].bytesA + cells[|cells| - 1].bytesB
  }

  /** Charged to the counter but not yet to a cell. */
  function Arriving(r: Reactor): nat {
    if r.Charged? then |r.data| else 0
  }

  /** Taken from the counter but not yet from a cell. */
  function Leaving(r: Reactor, o: Owner): nat {
    (if r.Discarding? then r.charge else 0) + (if o.Releasing? then o.charge else 0)
  }

  /** Scratch conservation: the counter is what the cells hold, up to what each lane has in flight. */
  ghost predicate Conserved(cfg: Config, s: State) {
    && cfg.limit < WORD && cfg.quota < WORD
    && s.scratch + Leaving(s.reactor, s.owner) == Sum(s.cells) + Arriving(s.reactor)
    && s.scratch <= cfg.quota
    && (s.reactor.Loaded? ==> s.scratch <= s.reactor.current <= cfg.quota)
  }

  /** What the reactor is doing to one cell. */
  datatype Hand = Off | Making | Adding(first: bool, data: Bytes) | Spoiling

  function HandOn(r: Reactor, i: nat): Hand {
    match r
    case Polling => Off
    case Preparing(k) => if k == i then Making else Off
    case Loaded(k, first, data, _) => if k == i then Adding(first, data) else Off
    case Charged(k, first, data) => if k == i then Adding(first, data) else Off
    case Failing(k) => if k == i then Spoiling else Off
    case Discarding(k, _) => if k == i then Spoiling else Off
  }

  function Extra(h: Hand, first: bool): Bytes {
    if h.Adding? && h.first == first then h.data else []
  }

  predicate Untouched(c: Cell) {
    c == Cleared(c.kind).(state := c.state, attempt := c.attempt)
  }

  /** A model call has one spool, a shell two, a patch none. */
  predicate Outfitted(c: Cell) {
    match c.kind
    case ModelCall => c.spoolA.Some? && c.spoolB.None?
    case Shell => c.spoolA.Some? && c.spoolB.Some?
    case Patch => c.spoolA.None? && c.spoolB.None?
  }

  /** An unspoiled cell's spools hold exactly what was delivered; a spoiled one holds nothing for long. */
  ghost predicate OkCell(limit: nat, c: Cell, h: Hand) {
    && c.bytesA + c.bytesB + |Extra(h, true)| + |Extra(h, false)| <= limit
    && (h.Spoiling? ==> Flagged(c)) && (h.Adding? ==> !Flagged(c) && (h.first || c.kind == Shell))
    && (Flagged(c) && !h.Spoiling? ==> c.bytesA == 0 && c.bytesB == 0)
    && (!Flagged(c) ==>
          && Text(c.spoolA) + Extra(h, true) == c.gotA && |Text(c.spoolA)| == c.bytesA
          && Text(c.spoolB) + Extra(h, false) == c.gotB && |Text(c.spoolB)| == c.bytesB)
    && (c.state == Free || c.state == Reserved || c.state == Dispatchable ==> Untouched(c))
    && (c.state == Active && !h.Making? ==> (c.kind == ModelCall ==> c.easy) && !c.child.sealed)
    && (c.state == Active && c.kind == Patch ==> Untouched(c)) && (c.kind != Shell ==> c.child == NO_CHILD)
    && ((c.state == Active && !h.Making?) || (c.state == Sealed && !c.prepFailed) ==> Outfitted(c))
  }

  ghost predicate OkCells(cfg: Config, s: State) {
    forall i :: 0 <= i < |s.cells| ==> OkCell(cfg.limit, s.cells[i], HandOn(s.reactor, i))
  }

  /** The reactor works on an active cell that is not the patch lane's. */
  ghost predicate OkReactor(s: State) {
    && (!s.reactor.Polling? ==> IsCell(s, s.reactor.i, Active) && s.cells[s.reactor.i].kind != Patch)
    && (s.reactor.Discarding? ==> s.reactor.charge == s.cells[s.reactor.i].bytesA + s.cells[s.reactor.i].bytesB)
    && (s.reactor.Preparing? ==> Untouched(s.cells[s.reactor.i]))
  }

  ghost predicate OkOwner(s: State) {
    && (s.owner.Admitting? ==> IsCell(s, s.owner.i, Reserved))
    && (forall i :: 0 <= i < |s.cells| && s.cells[i].state == Reserved ==> s.owner.Admitting? && s.owner.i == i)
    && (s.owner.Settled? || s.owner.Releasing? ==> IsCell(s, s.owner.i, Sealed))
    && (s.owner.Releasing? ==> s.owner.charge == s.cells[s.owner.i].bytesA + s.cells[s.owner.i].bytesB)
  }

  /** The cell holds an attempt that is not settled yet. */
  predicate Holds(s: State, i: nat)
    requires i < |s.cells|
  {
    && (s.cells[i].state == Dispatchable || s.cells[i].state == Active || s.cells[i].state == Sealed)
    && !((s.owner.Settled? || s.owner.Releasing?) && s.owner.i == i)
  }

  ghost predicate HeldSomewhere(s: State, a: nat) {
    exists i: nat :: i < |s.cells| && Holds(s, i) && s.cells[i].attempt == a
  }

  /** No flag was raised on the cell. */
  predicate Clean(c: Cell) {
    !c.prepFailed && !c.storageFailed && !c.overLimit && !c.transportFailed
  }

  /** A model call is complete when the terminal event was delivered and the reads that look for it went through. */
  ghost predicate Complete(ev: Evidence) {
    ev.cell.kind == ModelCall ==> !ev.unread && S.Occurs(ev.cell.gotA, S.NEEDLE)
  }

  /** The class of a settled attempt, each from the evidence's own fields: the first that applies, in this order. */
  ghost predicate OkClass(class': Class, ev: Evidence) {
    var c := ev.cell;
    && (class' == PreparationFailure <==> c.prepFailed)
    && (class' == LocalResourceFailure <==> !c.prepFailed && c.storageFailed)
    && (class' == OutputLimit <==> !c.prepFailed && !c.storageFailed && c.overLimit)
    && (class' == TransportFailure <==> !c.prepFailed && !c.storageFailed && !c.overLimit && c.transportFailed)
    && (class' == BashCancelled <==> Clean(c) && c.child.cancelled)
    && (class' == PatchConflict <==> Clean(c) && !c.child.cancelled && c.kind == Patch && c.status == 2)
    && (class' == PatchIndeterminate <==>
          Clean(c) && !c.child.cancelled && c.kind == Patch && c.status != 1 && c.status != 2)
    && (class' == Success <==>
          Clean(c) && !c.child.cancelled && (c.kind == Patch ==> c.status == 1) && Complete(ev))
    && (class' == ProtocolError <==> Clean(c) && !c.child.cancelled && c.kind == ModelCall && !Complete(ev))
  }

  /** The bytes a settlement keeps: those of a complete attempt, and those of a cancelled shell that nothing spoiled. */
  ghost predicate Kept(ev: Evidence) {
    var c := ev.cell;
    (Clean(c) && Complete(ev)) || (c.kind == Shell && c.child.cancelled && !c.storageFailed && !c.overLimit)
  }

  /** One settled attempt: its class, and artifacts that are all the bytes delivered or none of them. */
  ghost predicate OkRecord(db: Db, ev: Evidence, a: nat) {
    && a in db.completions && a in db.resolutions && db.resolutions[a] == a
    && OkClass(db.completions[a], ev)
    && ((a, 0) in db.artifacts <==> Kept(ev) && ev.cell.spoolA.Some?)
    && ((a, 1) in db.artifacts <==> Kept(ev) && ev.cell.spoolB.Some?)
    && ((a, 0) in db.artifacts ==> db.artifacts[(a, 0)] == ev.cell.gotA)
    && ((a, 1) in db.artifacts ==> db.artifacts[(a, 1)] == ev.cell.gotB)
    && (!ev.cell.prepFailed ==> Outfitted(ev.cell))
  }

  ghost predicate OkDb(s: State) {
    && s.evidence.Keys == s.db.completions.Keys == s.db.resolutions.Keys
    && s.db.completions.Keys <= s.db.attempts
    && (forall a :: a in s.evidence ==> OkRecord(s.db, s.evidence[a], a))
    && (forall k :: k in s.db.artifacts ==> k.0 in s.db.completions)
  }

  /** Each attempt is settled, or held by exactly one cell. */
  ghost predicate OkHolding(s: State) {
    && (forall i :: 0 <= i < |s.cells| && Holds(s, i) ==>
          s.cells[i].attempt in s.db.attempts && s.cells[i].attempt !in s.db.completions)
    && (forall i, j :: 0 <= i < j < |s.cells| && Holds(s, i) && Holds(s, j) ==> s.cells[i].attempt != s.cells[j].attempt)
    && (forall a :: a in s.db.attempts && a !in s.db.completions ==> HeldSomewhere(s, a))
  }

  ghost predicate Valid(cfg: Config, s: State) {
    Conserved(cfg, s) && OkCells(cfg, s) && OkReactor(s) && OkOwner(s) && OkDb(s) && OkHolding(s)
  }

  // ---------------------------------------------------------------- every step keeps it

  lemma {:induction false} SumUpdate(cells: seq<Cell>, i: nat, c: Cell)
    requires i < |cells|
    ensures Sum(cells[i := c]) == Sum(cells) - cells[i].bytesA - cells[i].bytesB + c.bytesA + c.bytesB
    ensures Sum(cells) >= cells[i].bytesA + cells[i].bytesB
  {
    var n := |cells| - 1;
    if i == n {
      assert cells[i := c][..n] == cells[..n];
    } else {
      assert cells[i := c][..n] == cells[..n][i := c];
      SumUpdate(cells[..n], i, c);
    }
  }

  lemma {:induction false} SumTwo(cells: seq<Cell>, i: nat, j: nat)
    requires i < j < |cells|
    ensures Sum(cells) >= cells[i].bytesA + cells[i].bytesB + cells[j].bytesA + cells[j].bytesB
  {
    var n := |cells| - 1;
    if j == n {
      SumUpdate(cells[..n], i, cells[i]);
    } else {
      SumTwo(cells[..n], i, j);
    }
  }

  lemma NoWrap(a: nat, b: nat)
    ensures a + b < WORD ==> Plus(a, b) == a + b
    ensures b <= a < WORD ==> Minus(a, b) == a - b
  {}

  /** No cell's own arithmetic wraps, and the cells the two lanes are emptying are different ones. */
  lemma Amounts(cfg: Config, s: State)
    requires Valid(cfg, s)
    ensures forall i :: 0 <= i < |s.cells| ==>
      && s.cells[i].bytesA + s.cells[i].bytesB <= cfg.limit < WORD
      && CellBytes(s.cells[i]) == s.cells[i].bytesA + s.cells[i].bytesB
    ensures s.reactor.Failing? ==> CellBytes(s.cells[s.reactor.i]) <= s.scratch
    ensures s.owner.Settled? ==> CellBytes(s.cells[s.owner.i]) <= s.scratch
    ensures Sum(s.cells) >= Leaving(s.reactor, s.owner)
  {
    hide OkDb, OkHolding, Sum;
    forall i | 0 <= i < |s.cells|
      ensures s.cells[i].bytesA + s.cells[i].bytesB <= cfg.limit && CellBytes(s.cells[i]) == s.cells[i].bytesA + s.cells[i].bytesB
    {
      assert OkCell(cfg.limit, s.cells[i], HandOn(s.reactor, i));
      NoWrap(s.cells[i].bytesA, s.cells[i].bytesB);
    }
    if !s.reactor.Polling? {
      SumUpdate(s.cells, s.reactor.i, s.cells[s.reactor.i]);
    }
    if s.owner.Settled? || s.owner.Releasing? {
      SumUpdate(s.cells, s.owner.i, s.cells[s.owner.i]);
      if !s.reactor.Polling? {
        assert s.reactor.i != s.owner.i;
        if s.reactor.i < s.owner.i {
          SumTwo(s.cells, s.reactor.i, s.owner.i);
        } else {
          SumTwo(s.cells, s.owner.i, s.reactor.i);
        }
      }
    }
  }

  lemma StepConserves(cfg: Config, s: State, step: Step)
    requires Valid(cfg, s) && Enabled(cfg, s, step)
    ensures Conserved(cfg, Apply(cfg, s, step))
  {
    hide OkDb, OkHolding, OkCell, Sum, E.AfterTick, E.AfterFailure, S.Occurs, OkOwner;
    Amounts(cfg, s);
    match step
    case Charge => ChargeConserves(cfg, s);
    case Store(stored, part) => StoreConserves(cfg, s, stored, part);
    case Discard => NoWrap(s.scratch, CellBytes(s.cells[s.reactor.i]));
    case Clear(at) => SumUpdate(s.cells, s.reactor.i, Apply(cfg, s, step).cells[s.reactor.i]);
    case Uncharge => UnchargeConserves(cfg, s);
    case Release => ReleaseConserves(cfg, s);
    case _ => SameBytes(cfg, s, step);
  }

  lemma UnchargeConserves(cfg: Config, s: State)
    requires Valid(cfg, s) && Enabled(cfg, s, Uncharge)
    ensures Conserved(cfg, Apply(cfg, s, Uncharge))
  {
    hide OkDb, OkHolding, OkCell, Sum;
    Amounts(cfg, s);
    NoWrap(s.scratch, CellBytes(s.cells[s.owner.i]));
  }

  lemma ReleaseConserves(cfg: Config, s: State)
    requires Valid(cfg, s) && Enabled(cfg, s, Release)
    ensures Conserved(cfg, Apply(cfg, s, Release))
  {
    hide OkDb, OkHolding, OkCell, Sum;
    SumUpdate(s.cells, s.owner.i, Cleared(s.cells[s.owner.i].kind));
  }

  /** Only the reactor adds, so the counter is still within what was loaded: the comparison covers the addition. */
  lemma ChargeConserves(cfg: Config, s: State)
    requires Valid(cfg, s) && Enabled(cfg, s, Charge)
    ensures Conserved(cfg, AfterCharge(cfg, s))
  {
    hide OkDb, OkHolding, OkCell, Sum;
    var r := s.reactor;
    NoWrap(cfg.quota, r.current);
    NoWrap(s.scratch, |r.data|);
    SumUpdate(s.cells, r.i, s.cells[r.i].(storageFailed := true));
  }

  lemma StoreConserves(cfg: Config, s: State, stored: bool, part: nat)
    requires Valid(cfg, s) && Enabled(cfg, s, Store(stored, part))
    ensures Conserved(cfg, AfterStore(s, stored, part))
  {
    hide OkDb, OkHolding, Sum;
    var r, c := s.reactor, s.cells[s.reactor.i];
    Amounts(cfg, s);
    assert OkCell(cfg.limit, c, HandOn(r, r.i));
    NoWrap(c.bytesA, |r.data|);
    NoWrap(c.bytesB, |r.data|);
    NoWrap(s.scratch, |r.data|);
    SumUpdate(s.cells, r.i, AfterStore(s, stored, part).cells[r.i]);
  }

  datatype Lane = OwnerLane | ReactorLane | PatchLane

  function LaneOf(step: Step): Lane {
    match step
    case Reserve(_, _) => OwnerLane
    case Admit(_) => OwnerLane
    case Settle(_, _, _) => OwnerLane
    case Uncharge => OwnerLane
    case Release => OwnerLane
    case ClaimPatch(_) => PatchLane
    case SealPatch(_, _, _) => PatchLane
    case _ => ReactorLane
  }

  /** The one cell a step may change. */
  function Touched(s: State, step: Step): nat {
    match step
    case Prepare(_, _, _) => if s.reactor.Preparing? then s.reactor.i else 0
    case Charge => if s.reactor.Loaded? then s.reactor.i else 0
    case Store(_, _) => if s.reactor.Charged? then s.reactor.i else 0
    case Discard => if s.reactor.Failing? then s.reactor.i else 0
    case Clear(_) => if s.reactor.Discarding? then s.reactor.i else 0
    case Admit(_) => if s.owner.Admitting? then s.owner.i else 0
    case Uncharge => if s.owner.Settled? then s.owner.i else 0
    case Release => if s.owner.Releasing? then s.owner.i else 0
    case Claim(i) => i
    case Deliver(i, _, _) => i
    case EndOfFile(i, _) => i
    case Done(i, _) => i
    case Look(i, _, _) => i
    case ClaimPatch(i) => i
    case SealPatch(i, _, _) => i
    case Reserve(i, _) => i
    case Settle(i, _, _) => i
  }

  /** Steps that leave every amount alone. */
  predicate KeepsAmounts(step: Step) {
    !step.Charge? && !step.Store? && !step.Discard? && !step.Clear? && !step.Uncharge? && !step.Release?
  }

  /** The new contents of one cell, with the same byte counts, and the counter as it was. */
  ghost predicate SameAmount(s: State, s': State, k: nat) {
    && k < |s.cells| && k < |s'.cells| && s'.cells == s.cells[k := s'.cells[k]]
    && s'.cells[k].bytesA == s.cells[k].bytesA && s'.cells[k].bytesB == s.cells[k].bytesB
    && s'.scratch == s.scratch
  }

  lemma SameAmounts(cfg: Config, s: State, step: Step)
    requires Enabled(cfg, s, step) && KeepsAmounts(step)
    ensures SameAmount(s, Apply(cfg, s, step), Touched(s, step))
  {
    hide Enabled, Apply, SameAmount, Touched;
    if LaneOf(step) == ReactorLane {
      ReactorAmounts(cfg, s, step);
    } else {
      OthersAmounts(cfg, s, step);
    }
  }

  lemma ReactorAmounts(cfg: Config, s: State, step: Step)
    requires Enabled(cfg, s, step) && KeepsAmounts(step) && LaneOf(step) == ReactorLane
    ensures SameAmount(s, Apply(cfg, s, step), Touched(s, step))
  {
    hide E.AfterTick, S.Occurs, E.Apply, E.Spawned, Minus, Plus, CellBytes, AfterDeliver;
    if step.Deliver? {
      DeliverAmounts(cfg, s, step.i, step.first, step.data);
    }
  }

  lemma DeliverAmounts(cfg: Config, s: State, i: nat, first: bool, data: Bytes)
    requires i < |s.cells|
    ensures SameAmount(s, AfterDeliver(cfg, s, i, first, data), i)
  {
    hide Minus, CellBytes;
  }

  lemma OthersAmounts(cfg: Config, s: State, step: Step)
    requires Enabled(cfg, s, step) && KeepsAmounts(step) && LaneOf(step) != ReactorLane
    ensures SameAmount(s, Apply(cfg, s, step), Touched(s, step))
  {
    hide S.Occurs, Rows, ClassOf;
  }

  lemma SameFlight(cfg: Config, s: State, step: Step)
    requires Enabled(cfg, s, step) && KeepsAmounts(step)
    ensures
      var s' := Apply(cfg, s, step);
      && Arriving(s'.reactor) == Arriving(s.reactor) && Leaving(s'.reactor, s'.owner) == Leaving(s.reactor, s.owner)
      && (s'.reactor.Loaded? ==> s'.reactor == s.reactor || s'.reactor.current == s.scratch)
  {
    hide E.AfterTick, S.Occurs, E.Apply, Rows, ClassOf, Minus, Plus, CellBytes;
  }

  lemma SameBytes(cfg: Config, s: State, step: Step)
    requires Valid(cfg, s) && Enabled(cfg, s, step) && KeepsAmounts(step)
    ensures Conserved(cfg, Apply(cfg, s, step))
  {
    hide OkDb, OkHolding, OkCells, OkOwner, OkReactor, Sum, Apply, Enabled, Touched;
    SameAmounts(cfg, s, step);
    SameFlight(cfg, s, step);
    SumUpdate(s.cells, Touched(s, step), Apply(cfg, s, step).cells[Touched(s, step)]);
  }

  /** A step changes one cell at most, and the reactor's hand on no other. */
  lemma OneCell(cfg: Config, s: State, step: Step)
    requires Enabled(cfg, s, step) && OkReactor(s)
    ensures var s' := Apply(cfg, s, step);
      && Touched(s, step) < |s.cells| && s'.cells == s.cells[Touched(s, step) := s'.cells[Touched(s, step)]]
      && forall j :: 0 <= j < |s.cells| && j != Touched(s, step) ==> HandOn(s'.reactor, j) == HandOn(s.reactor, j)
  {
    hide E.AfterTick, E.AfterFailure, S.Occurs, E.Apply, Untouched, Rows;
  }

  lemma StepKeepsCells(cfg: Config, s: State, step: Step)
    requires Valid(cfg, s) && Enabled(cfg, s, step)
    ensures OkCells(cfg, Apply(cfg, s, step))
  {
    hide OkDb, OkHolding, OkCell, Conserved, OkOwner, E.AfterTick, E.AfterFailure, S.Occurs, HandOn, Enabled;
    var s', k := Apply(cfg, s, step), Touched(s, step);
    OneCell(cfg, s, step);
    TouchedCell(cfg, s, step);
  }

  lemma CellOk(cfg: Config, s: State, k: nat)
    requires OkCells(cfg, s) && k < |s.cells|
    ensures OkCell(cfg.limit, s.cells[k], HandOn(s.reactor, k))
  {}

  lemma TouchedCell(cfg: Config, s: State, step: Step)
    requires Valid(cfg, s) && Enabled(cfg, s, step)
    ensures var k, s' := Touched(s, step), Apply(cfg, s, step);
      k < |s'.cells| && OkCell(cfg.limit, s'.cells[k], HandOn(s'.reactor, k))
  {
    hide OkDb, OkHolding, Conserved, OkOwner, OkCells, OkCell, OkReactor, Enabled, Apply;
    if LaneOf(step) == ReactorLane {
      ReactorCell(cfg, s, step);
    } else {
      OwnerCell(cfg, s, step);
    }
  }

  /** Neither a spawn, nor a failed drain, nor an end of file seals a child. */
  lemma OnlyLooksSeal()
    ensures forall at: nat, after: nat :: !E.Spawned(at, after).sealed
    ensures forall b: E.Bash, at: nat, g: E.Grace :: E.AfterFailure(b, at, g).sealed == b.sealed
    ensures forall b: E.Bash, first, g: E.Grace :: E.Apply(b, E.EndOfFile(first), g).sealed == b.sealed
  {}

  lemma ReactorCell(cfg: Config, s: State, step: Step)
    requires Valid(cfg, s) && Enabled(cfg, s, step) && LaneOf(step) == ReactorLane
    ensures var k, s' := Touched(s, step), Apply(cfg, s, step);
      k < |s'.cells| && OkCell(cfg.limit, s'.cells[k], HandOn(s'.reactor, k))
  {
    OnlyLooksSeal();
    hide OkDb, OkHolding, Conserved, E.AfterTick, E.AfterFailure, E.Apply, E.Spawned, OkOwner, Minus, Plus, Sum, OkCells;
    OneCell(cfg, s, step);
    CellOk(cfg, s, Touched(s, step));
    if step.Deliver? {
      DeliverCell(cfg, s, step.i, step.first, step.data);
    } else if step.Store? {
      StoreCell(cfg, s, step.stored, step.part);
    }
  }

  lemma OwnerCell(cfg: Config, s: State, step: Step)
    requires Valid(cfg, s) && Enabled(cfg, s, step) && LaneOf(step) != ReactorLane
    ensures var k, s' := Touched(s, step), Apply(cfg, s, step);
      k < |s'.cells| && OkCell(cfg.limit, s'.cells[k], HandOn(s'.reactor, k))
  {
    hide OkDb, OkHolding, Conserved, OkCells, S.Occurs, Rows, ClassOf, Minus, Plus, Sum;
    OneCell(cfg, s, step);
    CellOk(cfg, s, Touched(s, step));
  }

  lemma CellBytesSame(c: Cell, first: bool, data: Bytes)
    ensures CellBytes(Received(c, first, data)) == CellBytes(c)
  {}

  lemma DeliverCell(cfg: Config, s: State, i: nat, first: bool, data: Bytes)
    requires Valid(cfg, s) && Enabled(cfg, s, Deliver(i, first, data))
    ensures
      var s' := AfterDeliver(cfg, s, i, first, data);
      OkCell(cfg.limit, s'.cells[i], HandOn(s'.reactor, i))
  {
    hide OkDb, OkHolding, OkOwner, OkReactor, Conserved, Minus, CellBytes;
    var c := s.cells[i];
    DeliveryRoom(cfg, s, i);
    CellBytesSame(c, first, data);
    assert OkCell(cfg.limit, c, Off);
    assert Text(c.spoolA) + [] == Text(c.spoolA) && Text(c.spoolB) + [] == Text(c.spoolB);
  }

  lemma StoreCell(cfg: Config, s: State, stored: bool, part: nat)
    requires Valid(cfg, s) && Enabled(cfg, s, Store(stored, part))
    ensures
      var s' := AfterStore(s, stored, part);
      OkCell(cfg.limit, s'.cells[s.reactor.i], HandOn(s'.reactor, s.reactor.i))
  {
    hide OkDb, OkHolding, OkOwner, Sum;
    var r, c := s.reactor, s.cells[s.reactor.i];
    assert OkCell(cfg.limit, c, HandOn(r, r.i));
    NoWrap(c.bytesA, |r.data|);
    NoWrap(c.bytesB, |r.data|);
    assert c.gotA + [] == c.gotA && c.gotB + [] == c.gotB;
  }

  lemma StepKeepsReactor(cfg: Config, s: State, step: Step)
    requires Valid(cfg, s) && Enabled(cfg, s, step)
    ensures OkReactor(Apply(cfg, s, step))
  {
    hide OkReactor, OkOwner, OkDb, OkHolding, OkCells, Conserved, Apply, Enabled;
    if LaneOf(step) == ReactorLane {
      ReactorKeepsReactor(cfg, s, step);
    } else {
      OthersKeepReactor(cfg, s, step);
    }
  }

  lemma ReactorKeepsReactor(cfg: Config, s: State, step: Step)
    requires Valid(cfg, s) && Enabled(cfg, s, step) && LaneOf(step) == ReactorLane
    ensures OkReactor(Apply(cfg, s, step))
  {
    hide OkDb, OkHolding, OkOwner, OkCells, E.AfterTick, E.AfterFailure, S.Occurs, E.Apply, Sum, Conserved, Minus, Plus;
    if step.Claim? {
      ClaimUntouched(cfg, s, step.i);
    } else if step.Discard? {
      Amounts(cfg, s);
    }
  }

  /** Another lane's step leaves the reactor's cell alone: that cell is active, and the step is on one that is not the reactor's. */
  lemma OthersKeepReactor(cfg: Config, s: State, step: Step)
    requires Valid(cfg, s) && Enabled(cfg, s, step) && LaneOf(step) != ReactorLane
    ensures OkReactor(Apply(cfg, s, step))
  {
    hide OkDb, OkHolding, OkCells, Conserved, S.Occurs, Rows, ClassOf, Minus, Plus;
  }

  lemma ClaimUntouched(cfg: Config, s: State, i: nat)
    requires OkCells(cfg, s) && IsCell(s, i, Dispatchable)
    ensures Untouched(s.cells[i])
  {
    assert OkCell(cfg.limit, s.cells[i], HandOn(s.reactor, i));
  }

  /** Which lane may write a cell, by the cell's state; a dispatchable cell is anyone's to claim and no one's to write. */
  predicate Owns(lane: Lane, c: Cell) {
    match lane
    case OwnerLane => c.state == Free || c.state == Reserved || c.state == Sealed
    case ReactorLane => c.state == Active && c.kind != Patch
    case PatchLane => c.state == Active && c.kind == Patch
  }

  predicate Claims(lane: Lane, c: Cell, d: Cell) {
    c.state == Dispatchable && d == c.(state := Active) && lane == if c.kind == Patch then PatchLane else ReactorLane
  }

  /** What a lane may do to a cell. */
  ghost predicate Allowed(lane: Lane, c: Cell, d: Cell) {
    || c == d
    || (Owns(lane, c) && (lane != OwnerLane ==> d.attempt == c.attempt && (d.state == Active || d.state == Sealed)))
    || Claims(lane, c, d)
  }

  lemma TouchedAllowed(cfg: Config, s: State, step: Step)
    requires Enabled(cfg, s, step) && OkReactor(s) && OkOwner(s)
    ensures var k, cells := Touched(s, step), Apply(cfg, s, step).cells;
      k < |s.cells| == |cells| && Allowed(LaneOf(step), s.cells[k], cells[k])
  {
    hide Enabled, Apply, Allowed, OkReactor, OkOwner;
    if LaneOf(step) == ReactorLane {
      ReactorAllowed(cfg, s, step);
    } else {
      OthersAllowed(cfg, s, step);
    }
  }

  /** The reactor's steps that move bytes; its others begin and end a cell's work. */
  predicate MovesBytes(step: Step) {
    step.Deliver? || step.Charge? || step.Store? || step.Discard? || step.Clear?
  }

  lemma ReactorAllowed(cfg: Config, s: State, step: Step)
    requires Enabled(cfg, s, step) && OkReactor(s) && LaneOf(step) == ReactorLane
    ensures var k, cells := Touched(s, step), Apply(cfg, s, step).cells;
      k < |s.cells| == |cells| && Allowed(ReactorLane, s.cells[k], cells[k])
  {
    hide Enabled, Apply, Allowed, OkReactor, Touched;
    if MovesBytes(step) {
      BytesAllowed(cfg, s, step);
    } else {
      WorkAllowed(cfg, s, step);
    }
  }

  /** The cell each of them leaves, with its state and attempt as they were. */
  ghost function DeliverOwn(cfg: Config, s: State, i: nat, first: bool, data: Bytes): (d: Cell)
    requires i < |s.cells|
    ensures var s' := AfterDeliver(cfg, s, i, first, data); |s'.cells| == |s.cells| && d == s'.cells[i]
    ensures d.state == s.cells[i].state && d.attempt == s.cells[i].attempt
  {
    hide Minus, CellBytes;
    AfterDeliver(cfg, s, i, first, data).cells[i]
  }

  ghost function ChargeOwn(cfg: Config, s: State): (d: Cell)
    requires s.reactor.Loaded? && s.reactor.i < |s.cells|
    ensures var s' := AfterCharge(cfg, s); |s'.cells| == |s.cells| && d == s'.cells[s.reactor.i]
    ensures d.state == s.cells[s.reactor.i].state && d.attempt == s.cells[s.reactor.i].attempt
  {
    hide Minus, Plus;
    AfterCharge(cfg, s).cells[s.reactor.i]
  }

  ghost function StoreOwn(s: State, stored: bool, part: nat): (d: Cell)
    requires s.reactor.Charged? && s.reactor.i < |s.cells|
    ensures var s' := AfterStore(s, stored, part); |s'.cells| == |s.cells| && d == s'.cells[s.reactor.i]
    ensures d.state == s.cells[s.reactor.i].state && d.attempt == s.cells[s.reactor.i].attempt
  {
    hide Minus, Plus;
    AfterStore(s, stored, part).cells[s.reactor.i]
  }

  ghost function ClearOwn(cfg: Config, s: State, at: nat): (d: Cell)
    requires s.reactor.Discarding? && s.reactor.i < |s.cells|
    ensures var s' := AfterClear(cfg, s, at); |s'.cells| == |s.cells| && d == s'.cells[s.reactor.i]
    ensures d.state == s.cells[s.reactor.i].state && d.attempt == s.cells[s.reactor.i].attempt
  {
    hide E.AfterFailure;
    AfterClear(cfg, s, at).cells[s.reactor.i]
  }

  lemma BytesAllowed(cfg: Config, s: State, step: Step)
    requires Enabled(cfg, s, step) && OkReactor(s) && MovesBytes(step)
    ensures var k, cells := Touched(s, step), Apply(cfg, s, step).cells;
      k < |s.cells| == |cells| && Allowed(ReactorLane, s.cells[k], cells[k])
  {
    hide S.Occurs, AfterDeliver, AfterCharge, AfterStore, AfterClear, Allowed, CellBytes, Untouched;
    match step
    case Deliver(i, first, data) => OwnAllowed(s.cells[i], DeliverOwn(cfg, s, i, first, data));
    case Charge => OwnAllowed(s.cells[s.reactor.i], ChargeOwn(cfg, s));
    case Store(stored, part) => OwnAllowed(s.cells[s.reactor.i], StoreOwn(s, stored, part));
    case Clear(at) => OwnAllowed(s.cells[s.reactor.i], ClearOwn(cfg, s, at));
    case Discard => OwnAllowed(s.cells[s.reactor.i], s.cells[s.reactor.i]);
  }

  lemma OwnAllowed(c: Cell, d: Cell)
    requires Owns(ReactorLane, c) && d.state == c.state && d.attempt == c.attempt
    ensures Allowed(ReactorLane, c, d)
  {}

  lemma WorkAllowed(cfg: Config, s: State, step: Step)
    requires Enabled(cfg, s, step) && OkReactor(s) && LaneOf(step) == ReactorLane && !MovesBytes(step)
    ensures var k, cells := Touched(s, step), Apply(cfg, s, step).cells;
      k < |s.cells| == |cells| && Allowed(ReactorLane, s.cells[k], cells[k])
  {
    hide E.AfterTick, E.Apply, E.Spawned, S.Occurs, Untouched;
  }

  lemma OthersAllowed(cfg: Config, s: State, step: Step)
    requires Enabled(cfg, s, step) && OkOwner(s) && LaneOf(step) != ReactorLane
    ensures var k, cells := Touched(s, step), Apply(cfg, s, step).cells;
      k < |s.cells| == |cells| && Allowed(LaneOf(step), s.cells[k], cells[k])
  {
    hide S.Occurs, Rows, ClassOf, CellBytes, Minus, Plus;
  }

  /** A lane moves only itself. */
  lemma LanesApart(cfg: Config, s: State, step: Step)
    requires Enabled(cfg, s, step)
    ensures LaneOf(step) != OwnerLane ==>
      var s' := Apply(cfg, s, step);
      s'.owner == s.owner && s'.db == s.db && s'.evidence == s.evidence
    ensures LaneOf(step) != ReactorLane ==> Apply(cfg, s, step).reactor == s.reactor
  {
    hide E.AfterTick, E.AfterFailure, S.Occurs, E.Apply, Rows, CellBytes, Received, Emptied, Counted, Spooled, Minus, Plus;
  }

  /** A lane writes only a cell it owns, or claims a dispatchable one; and it owns the cell it is at work on. */
  lemma OnlyOwned(cfg: Config, s: State, step: Step, i: nat)
    requires Valid(cfg, s) && Enabled(cfg, s, step) && i < |s.cells|
    ensures var cells := Apply(cfg, s, step).cells; |cells| == |s.cells| && Allowed(LaneOf(step), s.cells[i], cells[i])
    ensures !s.reactor.Polling? ==> Owns(ReactorLane, s.cells[s.reactor.i])
    ensures s.owner.Admitting? || s.owner.Settled? || s.owner.Releasing? ==> Owns(OwnerLane, s.cells[s.owner.i])
  {
    hide OkDb, OkHolding, OkCells, Conserved, Apply, Enabled, Allowed, Touched;
    OneCell(cfg, s, step);
    TouchedAllowed(cfg, s, step);
    AllowedSame(LaneOf(step), s.cells[i]);
  }

  lemma AllowedSame(lane: Lane, c: Cell)
    ensures Allowed(lane, c, c)
  {}

  lemma StepKeepsOwner(cfg: Config, s: State, step: Step)
    requires Valid(cfg, s) && Enabled(cfg, s, step)
    ensures OkOwner(Apply(cfg, s, step))
  {
    hide OkDb, OkHolding, OkReactor, E.AfterTick, E.AfterFailure, S.Occurs, E.Apply, Sum, OkCell, Conserved, Rows, Untouched;
    if LaneOf(step) == OwnerLane {
      OwnerKeepsOwner(cfg, s, step);
    } else {
      OthersKeepOwner(cfg, s, step);
    }
  }

  lemma OthersKeepOwner(cfg: Config, s: State, step: Step)
    requires Valid(cfg, s) && Enabled(cfg, s, step) && LaneOf(step) != OwnerLane
    ensures OkOwner(Apply(cfg, s, step))
  {
    hide OkDb, OkHolding, OkReactor, OkCells, Conserved, Enabled, Apply;
    var s' := Apply(cfg, s, step);
    SameLength(cfg, s, step);
    forall i | 0 <= i < |s.cells|
      ensures s'.cells[i].state == Reserved ==> s.cells[i].state == Reserved
      ensures s.cells[i].state == Reserved || s.cells[i].state == Sealed ==> s'.cells[i] == s.cells[i]
    {
      OnlyOwned(cfg, s, step, i);
    }
    LanesApart(cfg, s, step);
  }

  lemma SameLength(cfg: Config, s: State, step: Step)
    requires Valid(cfg, s) && Enabled(cfg, s, step)
    ensures |Apply(cfg, s, step).cells| == |s.cells| > 0
  {
    hide OkDb, OkHolding, OkCells, OkOwner, Conserved, Apply, Enabled;
    OneCell(cfg, s, step);
  }

  lemma OwnerKeepsOwner(cfg: Config, s: State, step: Step)
    requires Valid(cfg, s) && Enabled(cfg, s, step) && LaneOf(step) == OwnerLane
    ensures OkOwner(Apply(cfg, s, step))
  {
    hide OkDb, OkHolding, OkReactor, OkCell, Conserved, S.Occurs, Rows, ClassOf;
    Amounts(cfg, s);
  }

  /** The settlement of one cell, as the table rows it leaves. */
  lemma SettledRecord(cfg: Config, s: State, i: nat, unread: bool, ok: bool)
    requires Valid(cfg, s) && Enabled(cfg, s, Settle(i, unread, ok))
    ensures
      var s', c := AfterSettle(s, i, unread, ok), s.cells[i];
      s'.owner.Settled? ==> OkRecord(s'.db, Evidence(c, unread), c.attempt)
  {
    hide OkHolding, Conserved, S.Occurs, OkCells, OkRecord, OkCell, Rows, ClassOf, Seen;
    var s', c := AfterSettle(s, i, unread, ok), s.cells[i];
    CellOk(cfg, s, i);
    assert HandOn(s.reactor, i) == Off;
    if s'.owner.Settled? {
      assert (c.attempt, 0) !in s.db.artifacts && (c.attempt, 1) !in s.db.artifacts;
      FreshRecord(cfg.limit, c, unread, s.db, s'.db);
    }
  }

  /** The class and the import of a sealed cell, against what was delivered to it. */
  lemma SettlesAs(limit: nat, c: Cell, unread: bool)
    requires OkCell(limit, c, Off) && c.state == Sealed
    ensures OkClass(ClassOf(c, Seen(c, unread)), Evidence(c, unread))
    ensures Imports(c, Seen(c, unread)) <==> Kept(Evidence(c, unread))
    ensures Kept(Evidence(c, unread)) ==> !Flagged(c)
  {
    hide S.Occurs;
    assert Text(c.spoolA) + [] == Text(c.spoolA);
  }

  /** The rows of an attempt that had none, against the cell they were made from. */
  lemma FreshRecord(limit: nat, c: Cell, unread: bool, db: Db, db': Db)
    requires OkCell(limit, c, Off) && c.state == Sealed
    requires c.bytesA <= |Text(c.spoolA)| && c.bytesB <= |Text(c.spoolB)|
    requires (c.attempt, 0) !in db.artifacts && (c.attempt, 1) !in db.artifacts
    requires db'.artifacts == db.artifacts + Rows(c, Seen(c, unread))
    requires c.attempt in db'.completions && db'.completions[c.attempt] == ClassOf(c, Seen(c, unread))
    requires c.attempt in db'.resolutions && db'.resolutions[c.attempt] == c.attempt
    ensures OkRecord(db', Evidence(c, unread), c.attempt)
  {
    hide S.Occurs, Rows, ClassOf, OkClass, Imports, Kept, Seen, Outfitted;
    RowsExact(c, Seen(c, unread));
    SettlesAs(limit, c, unread);
    assert Text(c.spoolA) + [] == Text(c.spoolA) && Text(c.spoolB) + [] == Text(c.spoolB);
  }

  lemma RowsSame(c: Cell, seen: bool, seen': bool)
    requires c.bytesA <= |Text(c.spoolA)| && c.bytesB <= |Text(c.spoolB)| && Imports(c, seen) == Imports(c, seen')
    ensures Rows(c, seen) == Rows(c, seen')
  {}

  lemma RowsExact(c: Cell, seen: bool)
    requires c.bytesA <= |Text(c.spoolA)| && c.bytesB <= |Text(c.spoolB)|
    ensures forall k :: k in Rows(c, seen) ==> k.0 == c.attempt
    ensures (c.attempt, 0) in Rows(c, seen) <==> Imports(c, seen) && c.spoolA.Some?
    ensures (c.attempt, 1) in Rows(c, seen) <==> Imports(c, seen) && c.spoolB.Some?
    ensures (c.attempt, 0) in Rows(c, seen) ==> Rows(c, seen)[(c.attempt, 0)] == Text(c.spoolA)[..c.bytesA]
    ensures (c.attempt, 1) in Rows(c, seen) ==> Rows(c, seen)[(c.attempt, 1)] == Text(c.spoolB)[..c.bytesB]
  {}

  lemma StepKeepsDb(cfg: Config, s: State, step: Step)
    requires Valid(cfg, s) && Enabled(cfg, s, step)
    ensures OkDb(Apply(cfg, s, step))
  {
    hide OkHolding, Conserved, S.Occurs, OkCells, OkRecord, OkReactor, OkOwner, Rows, ClassOf, Enabled, Apply;
    if LaneOf(step) != OwnerLane {
      LanesApart(cfg, s, step);
    } else {
      OwnerKeepsDb(cfg, s, step);
    }
  }

  lemma OwnerKeepsDb(cfg: Config, s: State, step: Step)
    requires Valid(cfg, s) && Enabled(cfg, s, step) && LaneOf(step) == OwnerLane
    ensures OkDb(Apply(cfg, s, step))
  {
    hide OkHolding, Conserved, S.Occurs, OkCells, OkRecord, OkReactor, Rows, ClassOf, Minus, Plus;
    if step.Settle? {
      SettleKeepsDb(cfg, s, step.i, step.unread, step.ok);
    } else if step.Admit? {
      AdmitKeepsDb(s, AfterAdmit(s, step.ok));
    }
  }

  lemma AdmitKeepsDb(s: State, s': State)
    requires OkDb(s) && s'.evidence == s.evidence && s.db.attempts <= s'.db.attempts && s'.db == s.db.(attempts := s'.db.attempts)
    ensures OkDb(s')
  {}

  lemma SettleKeepsDb(cfg: Config, s: State, i: nat, unread: bool, ok: bool)
    requires Valid(cfg, s) && Enabled(cfg, s, Settle(i, unread, ok))
    ensures OkDb(AfterSettle(s, i, unread, ok))
  {
    hide OkHolding, Conserved, S.Occurs, OkRecord, OkReactor, Rows;
    var s', c := AfterSettle(s, i, unread, ok), s.cells[i];
    if s'.owner.Settled? {
      SettledRecord(cfg, s, i, unread, ok);
      RowsExact(c, Seen(c, unread));
      forall a | a in s.evidence ensures OkRecord(s'.db, s.evidence[a], a) {
        RecordKept(s.db, s'.db, s.evidence[a], a);
      }
    }
  }

  /** Later rows of other attempts leave a record as it is. */
  lemma RecordKept(db: Db, db': Db, ev: Evidence, a: nat)
    requires OkRecord(db, ev, a)
    requires a in db'.completions && db'.completions[a] == db.completions[a]
    requires a in db'.resolutions && db'.resolutions[a] == db.resolutions[a]
    requires forall p :: (a, p) in db'.artifacts <==> (a, p) in db.artifacts
    requires forall p :: (a, p) in db.artifacts ==> db'.artifacts[(a, p)] == db.artifacts[(a, p)]
    ensures OkRecord(db', ev, a)
  {}

  /** The same cells hold the same attempts. */
  ghost predicate SameHolding(s: State, s': State) {
    && |s'.cells| == |s.cells|
    && (forall i :: 0 <= i < |s.cells| ==> (Holds(s', i) <==> Holds(s, i)))
    && (forall i :: 0 <= i < |s.cells| && Holds(s, i) ==> s'.cells[i].attempt == s.cells[i].attempt)
  }

  lemma HoldingKept(s: State, s': State)
    requires OkHolding(s) && SameHolding(s, s')
    requires s'.db.attempts == s.db.attempts && s'.db.completions == s.db.completions
    ensures OkHolding(s')
  {
    forall a | a in s'.db.attempts && a !in s'.db.completions ensures HeldSomewhere(s', a) {
      assert HeldSomewhere(s, a);
      var i: nat :| i < |s.cells| && Holds(s, i) && s.cells[i].attempt == a;
      assert Holds(s', i);
    }
  }

  /** A lane other than the owner's neither takes nor gives up an attempt. */
  lemma OthersHold(cfg: Config, s: State, step: Step)
    requires Valid(cfg, s) && Enabled(cfg, s, step) && LaneOf(step) != OwnerLane
    ensures SameHolding(s, Apply(cfg, s, step))
  {
    hide OkDb, OkCells, OkHolding, Conserved, OkReactor, Apply, Enabled;
    var s' := Apply(cfg, s, step);
    OneCell(cfg, s, step);
    LanesApart(cfg, s, step);
    OthersKeepOwner(cfg, s, step);
    OnlyOwned(cfg, s, step, Touched(s, step));
  }

  lemma AdmitHolds(cfg: Config, s: State, ok: bool)
    requires Valid(cfg, s) && Enabled(cfg, s, Admit(ok))
    ensures OkHolding(AfterAdmit(s, ok))
  {
    hide OkCells, Conserved, OkReactor, OkRecord;
    var s', i, id := AfterAdmit(s, ok), s.owner.i, s.owner.id;
    if s'.owner.Stopped? {
      HoldingKept(s, s');
    } else {
      assert forall j :: 0 <= j < |s.cells| && j != i ==> (Holds(s', j) <==> Holds(s, j));
      assert Holds(s', i) && s'.cells[i].attempt == id;
      forall a | a in s'.db.attempts && a !in s'.db.completions ensures HeldSomewhere(s', a) {
        if a != id {
          assert HeldSomewhere(s, a);
          var j: nat :| j < |s.cells| && Holds(s, j) && s.cells[j].attempt == a;
          assert Holds(s', j);
        }
      }
    }
  }

  lemma SettleHolds(cfg: Config, s: State, i: nat, unread: bool, ok: bool)
    requires Valid(cfg, s) && Enabled(cfg, s, Settle(i, unread, ok))
    ensures OkHolding(AfterSettle(s, i, unread, ok))
  {
    hide OkCells, Conserved, OkReactor, OkRecord, Rows, ClassOf, S.Occurs;
    var s' := AfterSettle(s, i, unread, ok);
    if s'.owner.Stopped? {
      HoldingKept(s, s');
    } else {
      assert forall j :: 0 <= j < |s.cells| ==> (Holds(s', j) <==> Holds(s, j) && j != i);
      forall a | a in s'.db.attempts && a !in s'.db.completions ensures HeldSomewhere(s', a) {
        assert HeldSomewhere(s, a);
        var j: nat :| j < |s.cells| && Holds(s, j) && s.cells[j].attempt == a;
        assert Holds(s', j);
      }
    }
  }

  lemma StepKeepsHolding(cfg: Config, s: State, step: Step)
    requires Valid(cfg, s) && Enabled(cfg, s, step)
    ensures OkHolding(Apply(cfg, s, step))
  {
    hide OkDb, OkCells, Conserved, OkReactor, OkHolding, Rows, ClassOf, S.Occurs, SameHolding;
    if LaneOf(step) != OwnerLane {
      OthersHold(cfg, s, step);
      LanesApart(cfg, s, step);
      HoldingKept(s, Apply(cfg, s, step));
    } else if step.Admit? {
      AdmitHolds(cfg, s, step.ok);
    } else if step.Settle? {
      SettleHolds(cfg, s, step.i, step.unread, step.ok);
    } else {
      QuietOwner(cfg, s, step);
      HoldingKept(s, Apply(cfg, s, step));
    }
  }

  lemma QuietOwner(cfg: Config, s: State, step: Step)
    requires Valid(cfg, s) && Enabled(cfg, s, step) && (step.Reserve? || step.Uncharge? || step.Release?)
    ensures SameHolding(s, Apply(cfg, s, step)) && Apply(cfg, s, step).db == s.db
  {
    hide OkDb, OkCells, Conserved, OkReactor, OkHolding, Minus, Plus, Sum;
  }

  lemma StepKeepsValid(cfg: Config, s: State, step: Step)
    requires Valid(cfg, s) && Enabled(cfg, s, step)
    ensures Valid(cfg, Apply(cfg, s, step))
  {
    hide Apply, Enabled, OkDb, OkCells, Conserved, OkReactor, OkHolding, OkOwner;
    StepConserves(cfg, s, step);
    StepKeepsCells(cfg, s, step);
    StepKeepsReactor(cfg, s, step);
    StepKeepsOwner(cfg, s, step);
    StepKeepsDb(cfg, s, step);
    StepKeepsHolding(cfg, s, step);
  }

  // ---------------------------------------------------------------- runs

  ghost predicate Follows(cfg: Config, s: State, steps: seq<Step>)
    decreases |steps|
  {
    steps != [] ==> Enabled(cfg, s, steps[0]) && Follows(cfg, Apply(cfg, s, steps[0]), steps[1..])
  }

  ghost function Run(cfg: Config, s: State, steps: seq<Step>): State
    requires Follows(cfg, s, steps)
    decreases |steps|
  {
    if steps == [] then s else Run(cfg, Apply(cfg, s, steps[0]), steps[1..])
  }

  ghost predicate Initial(s: State) {
    && (forall i :: 0 <= i < |s.cells| ==> s.cells[i] == Cleared(s.cells[i].kind))
    && s.scratch == 0 && s.reactor == Polling && s.owner == Waiting
    && s.db == Db({}, map[], map[], map[]) && s.evidence == map[]
  }

  lemma {:induction false} NoBytes(cells: seq<Cell>)
    requires forall i :: 0 <= i < |cells| ==> cells[i].bytesA == cells[i].bytesB == 0
    ensures Sum(cells) == 0
  {
    if cells != [] {
      NoBytes(cells[..|cells| - 1]);
    }
  }

  lemma InitialValid(cfg: Config, s: State)
    requires Initial(s) && cfg.limit < WORD && cfg.quota < WORD
    ensures Valid(cfg, s)
  {
    NoBytes(s.cells);
  }

  lemma {:induction false} RunKeepsValid(cfg: Config, s: State, steps: seq<Step>)
    requires Valid(cfg, s) && Follows(cfg, s, steps)
    ensures Valid(cfg, Run(cfg, s, steps))
    decreases |steps|
  {
    hide Valid, Enabled, Apply;
    if steps != [] {
      StepKeepsValid(cfg, s, steps[0]);
      RunKeepsValid(cfg, Apply(cfg, s, steps[0]), steps[1..]);
    }
  }

  // ---------------------------------------------------------------- what every run guarantees

  /** The counter is the cells' bytes up to the two amounts in flight, within the quota; no cell passes its limit. */
  lemma ScratchConserved(cfg: Config, s: State, steps: seq<Step>)
    requires Initial(s) && cfg.limit < WORD && cfg.quota < WORD && Follows(cfg, s, steps)
    ensures
      var e := Run(cfg, s, steps);
      && e.scratch + Leaving(e.reactor, e.owner) == Sum(e.cells) + Arriving(e.reactor)
      && e.scratch <= cfg.quota
      && forall i :: 0 <= i < |e.cells| ==> e.cells[i].bytesA + e.cells[i].bytesB <= cfg.limit
  {
    InitialValid(cfg, s);
    RunKeepsValid(cfg, s, steps);
    Amounts(cfg, Run(cfg, s, steps));
  }

  /** None of the unsigned subtractions a step makes goes below zero, and its addition does not wrap. */
  lemma NothingWraps(cfg: Config, s: State, step: Step)
    requires Valid(cfg, s) && Enabled(cfg, s, step)
    ensures step.Deliver? ==> CellBytes(s.cells[step.i]) <= cfg.limit
    ensures step.Charge? ==> s.reactor.current <= cfg.quota
    ensures step.Charge? && Apply(cfg, s, step).reactor.Charged? ==>
      Apply(cfg, s, step).scratch == s.scratch + |s.reactor.data| <= cfg.quota
    ensures step.Store? && !step.stored ==> |s.reactor.data| <= s.scratch
    ensures step.Discard? ==> CellBytes(s.cells[s.reactor.i]) <= s.scratch
    ensures step.Uncharge? ==> CellBytes(s.cells[s.owner.i]) <= s.scratch
  {
    hide OkDb, OkHolding, OkCell, Sum, E.AfterTick, E.AfterFailure, S.Occurs, E.Apply;
    Amounts(cfg, s);
    if step.Charge? {
      NoWrap(cfg.quota, s.reactor.current);
      NoWrap(s.scratch, |s.reactor.data|);
    }
  }

  /** How many cells hold an attempt, settled or not. */
  function Occupied(cells: seq<Cell>): nat {
    if cells == [] then 0
    else Occupied(cells[..|cells| - 1]) + (if IsOccupied(cells[|cells| - 1]) then 1 else 0)
  }

  predicate IsOccupied(c: Cell) {
    c.state == Dispatchable || c.state == Active || c.state == Sealed
  }

  function Bit(b: bool): nat {
    if b then 1 else 0
  }

  lemma {:induction false} OccupiedUpdate(cells: seq<Cell>, i: nat, c: Cell)
    requires i < |cells|
    ensures Occupied(cells[i := c]) + Bit(IsOccupied(cells[i])) == Occupied(cells) + Bit(IsOccupied(c))
  {
    var n := |cells| - 1;
    if i == n {
      assert cells[i := c][..n] == cells[..n];
    } else {
      assert cells[i := c][..n] == cells[..n][i := c];
      OccupiedUpdate(cells[..n], i, c);
    }
  }

  lemma {:induction false} NoneOccupied(cells: seq<Cell>)
    ensures Occupied(cells) == 0 <==> forall i :: 0 <= i < |cells| ==> !IsOccupied(cells[i])
  {
    if cells != [] {
      NoneOccupied(cells[..|cells| - 1]);
    }
  }

  /** The step admits an attempt. */
  ghost predicate Admits(cfg: Config, s: State, step: Step)
    requires Enabled(cfg, s, step)
  {
    step.Admit? && Apply(cfg, s, step).owner.Waiting?
  }

  /** How many attempts the owner admitted over a run, and how many cells it released after settling them. */
  ghost function Admissions(cfg: Config, s: State, steps: seq<Step>): nat
    requires Follows(cfg, s, steps)
    decreases |steps|
  {
    if steps == [] then 0 else Bit(Admits(cfg, s, steps[0])) + Admissions(cfg, Apply(cfg, s, steps[0]), steps[1..])
  }

  function Releases(steps: seq<Step>): nat
    decreases |steps|
  {
    if steps == [] then 0 else Bit(steps[0].Release?) + Releases(steps[1..])
  }

  /** Only an admission occupies a cell, and only a release frees one. */
  lemma StepOccupies(cfg: Config, s: State, step: Step)
    requires Valid(cfg, s) && Enabled(cfg, s, step)
    ensures Occupied(Apply(cfg, s, step).cells) + Bit(step.Release?) == Occupied(s.cells) + Bit(Admits(cfg, s, step))
  {
    hide OkDb, OkHolding, OkCells, Conserved, Occupied, Apply, Enabled, OkReactor, OkOwner;
    var k, cells := Touched(s, step), Apply(cfg, s, step).cells;
    OneCell(cfg, s, step);
    OccupiedUpdate(s.cells, k, cells[k]);
    if LaneOf(step) == OwnerLane {
      OwnerOccupies(cfg, s, step);
    } else {
      TouchedAllowed(cfg, s, step);
    }
  }

  lemma OwnerOccupies(cfg: Config, s: State, step: Step)
    requires Valid(cfg, s) && Enabled(cfg, s, step) && LaneOf(step) == OwnerLane
    ensures
      var k, cells := Touched(s, step), Apply(cfg, s, step).cells;
      && k < |s.cells| == |cells|
      && Bit(IsOccupied(cells[k])) + Bit(step.Release?) == Bit(IsOccupied(s.cells[k])) + Bit(Admits(cfg, s, step))
  {
    hide OkDb, OkHolding, OkCells, Conserved, OkReactor, Rows, ClassOf, Plus, Minus, S.Occurs;
  }

  lemma {:induction false} RunOccupies(cfg: Config, s: State, steps: seq<Step>)
    requires Valid(cfg, s) && Follows(cfg, s, steps)
    ensures Occupied(Run(cfg, s, steps).cells) + Releases(steps) == Occupied(s.cells) + Admissions(cfg, s, steps)
    decreases |steps|
  {
    hide Valid, Enabled, Apply, Occupied, Admits;
    if steps != [] {
      StepKeepsValid(cfg, s, steps[0]);
      StepOccupies(cfg, s, steps[0]);
      RunOccupies(cfg, Apply(cfg, s, steps[0]), steps[1..]);
    }
  }

  /** With no cell occupied and the owner waiting, every cell is free and the reactor rests. */
  lemma NothingHeld(cfg: Config, s: State)
    requires Valid(cfg, s) && s.owner.Waiting? && Occupied(s.cells) == 0
    ensures s.reactor.Polling? && forall i :: 0 <= i < |s.cells| ==> s.cells[i].state == Free
  {
    hide OkDb, OkHolding, OkCells, Conserved, Occupied;
    NoneOccupied(s.cells);
  }

  lemma FreeSettled(cfg: Config, s: State)
    requires Valid(cfg, s) && s.owner.Waiting? && s.reactor.Polling?
    requires forall i :: 0 <= i < |s.cells| ==> s.cells[i].state == Free
    ensures s.scratch == 0 && forall i :: 0 <= i < |s.cells| ==> Untouched(s.cells[i])
    ensures s.db.completions.Keys == s.db.attempts == s.db.resolutions.Keys
    ensures forall a :: a in s.db.attempts ==> s.db.resolutions[a] == a
  {
    hide OkRecord;
    forall i | 0 <= i < |s.cells| ensures Untouched(s.cells[i]) {
      CellOk(cfg, s, i);
    }
    NoBytes(s.cells);
    assert forall a :: a in s.db.attempts ==> a in s.db.completions || HeldSomewhere(s, a);
    forall a | a in s.db.attempts ensures s.db.resolutions[a] == a {
      ResolvedSelf(s, a);
    }
  }

  /**
   * A completed cycle: once the owner has settled and released as many cells as it admitted, every cell is free
   * again, nothing is charged, and every attempt has its one completion and its one resolution.
   */
  lemma CycleSettles(cfg: Config, s: State, steps: seq<Step>)
    requires Initial(s) && cfg.limit < WORD && cfg.quota < WORD && Follows(cfg, s, steps)
    requires Run(cfg, s, steps).owner.Waiting? && Releases(steps) == Admissions(cfg, s, steps)
    ensures
      var e := Run(cfg, s, steps);
      && e.scratch == 0 && e.reactor.Polling?
      && (forall i :: 0 <= i < |e.cells| ==> e.cells[i].state == Free && Untouched(e.cells[i]))
      && e.db.completions.Keys == e.db.attempts == e.db.resolutions.Keys
      && (forall a :: a in e.db.attempts ==> e.db.resolutions[a] == a)
  {
    hide Valid, Occupied, Admissions, Releases;
    InitialValid(cfg, s);
    NoneOccupied(s.cells);
    RunOccupies(cfg, s, steps);
    RunKeepsValid(cfg, s, steps);
    NothingHeld(cfg, Run(cfg, s, steps));
    FreeSettled(cfg, Run(cfg, s, steps));
  }

  lemma ResolvedSelf(s: State, a: nat)
    requires OkDb(s) && a in s.db.completions
    ensures s.db.resolutions[a] == a
  {
    assert OkRecord(s.db, s.evidence[a], a);
  }

  /** Every settled attempt's artifacts are all that was delivered to its cell, and a spoiled cell leaves none. */
  lemma ArtifactsExact(cfg: Config, s: State, steps: seq<Step>)
    requires Initial(s) && cfg.limit < WORD && cfg.quota < WORD && Follows(cfg, s, steps)
    ensures
      var e := Run(cfg, s, steps);
      && (forall a :: a in e.db.completions <==> a in e.evidence)
      && (forall a :: a in e.evidence ==> OkRecord(e.db, e.evidence[a], a))
  {
    InitialValid(cfg, s);
    RunKeepsValid(cfg, s, steps);
  }

  /** The rows of one settled attempt: its completion, its resolution and its artifacts. */
  ghost predicate SameRows(db: Db, d: Db, a: nat) {
    && a in db.completions && a in d.completions && d.completions[a] == db.completions[a]
    && a in db.resolutions && a in d.resolutions && d.resolutions[a] == db.resolutions[a]
    && (forall p :: (a, p) in d.artifacts <==> (a, p) in db.artifacts)
    && (forall p :: (a, p) in db.artifacts ==> d.artifacts[(a, p)] == db.artifacts[(a, p)])
  }

  lemma StepKeepsRows(cfg: Config, s: State, step: Step, a: nat)
    requires Valid(cfg, s) && Enabled(cfg, s, step) && a in s.db.completions
    ensures SameRows(s.db, Apply(cfg, s, step).db, a)
  {
    hide OkHolding, OkRecord, OkCells, Conserved, OkReactor, OkOwner, Enabled, Apply;
    if LaneOf(step) != OwnerLane {
      LanesApart(cfg, s, step);
    } else {
      OwnerKeepsRows(cfg, s, step, a);
    }
  }

  lemma OwnerKeepsRows(cfg: Config, s: State, step: Step, a: nat)
    requires OkDb(s) && Enabled(cfg, s, step) && LaneOf(step) == OwnerLane && a in s.db.completions
    ensures SameRows(s.db, Apply(cfg, s, step).db, a)
  {
    hide OkRecord, S.Occurs, Rows, ClassOf, Minus, Plus;
    if step.Settle? {
      var c := s.cells[step.i];
      if c.bytesA <= |Text(c.spoolA)| && c.bytesB <= |Text(c.spoolB)| {
        RowsExact(c, Seen(c, step.unread));
      }
    }
  }

  lemma {:induction false} RunKeepsRows(cfg: Config, s: State, steps: seq<Step>, a: nat)
    requires Valid(cfg, s) && Follows(cfg, s, steps) && a in s.db.completions
    ensures SameRows(s.db, Run(cfg, s, steps).db, a)
    decreases |steps|
  {
    hide Valid, Enabled, Apply;
    if steps != [] {
      StepKeepsValid(cfg, s, steps[0]);
      StepKeepsRows(cfg, s, steps[0], a);
      RunKeepsRows(cfg, Apply(cfg, s, steps[0]), steps[1..], a);
    } else {
      ResolvedToo(cfg, s, a);
    }
  }

  lemma ResolvedToo(cfg: Config, s: State, a: nat)
    requires Valid(cfg, s) && a in s.db.completions
    ensures a in s.db.resolutions
  {}

  /** Once an attempt is settled in a run, nothing that follows changes its rows. */
  lemma SettledOnce(cfg: Config, s: State, before: seq<Step>, after: seq<Step>, a: nat)
    requires Initial(s) && cfg.limit < WORD && cfg.quota < WORD && Follows(cfg, s, before)
    requires a in Run(cfg, s, before).db.completions && Follows(cfg, Run(cfg, s, before), after)
    ensures SameRows(Run(cfg, s, before).db, Run(cfg, Run(cfg, s, before), after).db, a)
  {
    hide Valid, SameRows;
    InitialValid(cfg, s);
    RunKeepsValid(cfg, s, before);
    RunKeepsRows(cfg, Run(cfg, s, before), after, a);
  }

  // ---------------------------------------------------------------- the runtime in place

  lemma CountsFit(cfg: Config, s: State, i: nat)
    requires Valid(cfg, s) && IsCell(s, i, Sealed)
    ensures s.cells[i].bytesA <= |Text(s.cells[i].spoolA)| && s.cells[i].bytesB <= |Text(s.cells[i].spoolB)|
  {
    hide OkDb, OkHolding, Conserved;
    CellOk(cfg, s, i);
  }

  /** What the limit, the quota and the counter leave for one delivery, without wrapping. */
  lemma DeliveryRoom(cfg: Config, s: State, i: nat)
    requires i < |s.cells|
    ensures Valid(cfg, s) ==>
      && CellBytes(s.cells[i]) == s.cells[i].bytesA + s.cells[i].bytesB <= cfg.limit
      && Minus(cfg.limit, CellBytes(s.cells[i])) == cfg.limit - s.cells[i].bytesA - s.cells[i].bytesB
  {
    if Valid(cfg, s) {
      Amounts(cfg, s);
      NoWrap(cfg.limit, CellBytes(s.cells[i]));
    }
  }

  /** What a cell holds can be taken from the counter, and taking nothing leaves it. */
  lemma HeldRoom(cfg: Config, s: State, i: nat)
    requires Valid(cfg, s) && ((s.reactor.Failing? && s.reactor.i == i) || (s.owner.Settled? && s.owner.i == i))
    ensures i < |s.cells| && CellBytes(s.cells[i]) == s.cells[i].bytesA + s.cells[i].bytesB
    ensures Minus(s.scratch, CellBytes(s.cells[i])) == s.scratch - s.cells[i].bytesA - s.cells[i].bytesB
  {
    Amounts(cfg, s);
    NoWrap(s.scratch, CellBytes(s.cells[i]));
    assert s.scratch < WORD;
  }

  lemma ChargeRoom(cfg: Config, s: State)
    requires Enabled(cfg, s, Charge)
    ensures Valid(cfg, s) ==>
      && s.reactor.current <= cfg.quota && Minus(cfg.quota, s.reactor.current) == cfg.quota - s.reactor.current
      && (|s.reactor.data| <= cfg.quota - s.reactor.current ==> Plus(s.scratch, |s.reactor.data|) == s.scratch + |s.reactor.data|)
      && !s.cells[s.reactor.i].storageFailed
  {
    if Valid(cfg, s) {
      CellOk(cfg, s, s.reactor.i);
      NoWrap(cfg.quota, s.reactor.current);
      NoWrap(s.scratch, |s.reactor.data|);
    }
  }

  lemma StoreRoom(cfg: Config, s: State, stored: bool, part: nat)
    requires Enabled(cfg, s, Store(stored, part))
    ensures Valid(cfg, s) ==>
      var c, n := s.cells[s.reactor.i], |s.reactor.data|;
      && Minus(s.scratch, n) == s.scratch - n && !c.storageFailed
      && Plus(c.bytesA, n) == c.bytesA + n && Plus(c.bytesB, n) == c.bytesB + n
  {
    if Valid(cfg, s) {
      hide OkDb, OkHolding, OkOwner;
      var c, n := s.cells[s.reactor.i], |s.reactor.data|;
      CellOk(cfg, s, s.reactor.i);
      SumUpdate(s.cells, s.reactor.i, c);
      Amounts(cfg, s);
      NoWrap(s.scratch, n);
      NoWrap(c.bytesA, n);
      NoWrap(c.bytesB, n);
    }
  }

  /** An attempt that is due has rows to insert and none in their way. */
  lemma SettlementDue(cfg: Config, s: State, i: nat)
    requires Valid(cfg, s) && s.owner.Waiting? && IsCell(s, i, Sealed)
    ensures var a := s.cells[i].attempt; a in s.db.attempts && a !in s.db.completions && a !in s.db.resolutions
  {
    hide OkCells, Conserved, OkReactor;
    assert Holds(s, i);
  }

  /** A cell that was not searched settles the same way whatever a search would have said. */
  lemma SameAnswer(c: Cell, seen: bool, unread: bool)
    requires c.kind == ModelCall && Clean(c) ==> (seen <==> Seen(c, unread))
    ensures ClassOf(c, seen) == ClassOf(c, Seen(c, unread)) && Imports(c, seen) == Imports(c, Seen(c, unread))
  {
    hide S.Occurs;
  }

  ghost predicate SettlesTo(cfg: Config, s: State, i: nat, unread: bool, ok: bool, s': State) {
    Enabled(cfg, s, Settle(i, unread, ok)) && s' == Apply(cfg, s, Settle(i, unread, ok))
  }

  /** The shared cells and counter. Each method is one step of its lane; `reactor` and `owner` say where the lanes are. */
  class Runtime {
    const cfg: Config
    const cells: array<Cell>
    var scratch: nat
    var db: Db
    ghost var reactor: Reactor
    ghost var owner: Owner
    ghost var evidence: map<nat, Evidence>

    ghost function Now(): State
      reads this, cells
    {
      State(cells[..], scratch, reactor, owner, db, evidence)
    }

    constructor (cfg: Config, kinds: seq<Kind>)
      ensures this.cfg == cfg && fresh(cells) && Initial(Now()) && |Now().cells| == |kinds|
    {
      this.cfg := cfg;
      cells := new Cell[|kinds|](i requires 0 <= i < |kinds| => Cleared(kinds[i]));
      scratch, db := 0, Db({}, map[], map[], map[]);
      reactor, owner, evidence := Polling, Waiting, map[];
    }

    /** `model_write` or a pipe read, through the load in `charge_scratch`; the loaded value if there is one. */
    method Receive(i: nat, first: bool, data: Bytes) returns (current: Option<nat>)
      requires Enabled(cfg, Now(), Deliver(i, first, data))
      modifies this`reactor, cells
      ensures Now() == Apply(cfg, old(Now()), Deliver(i, first, data))
      ensures current.Some? <==> reactor.Loaded?
      ensures current.Some? ==> reactor == Loaded(i, first, data, current.value) && current.value == scratch
      ensures cells[i].gotA == old(cells[i].gotA) + (if first then data else [])
      ensures cells[i].gotB == old(cells[i].gotB) + (if first then [] else data)
      ensures old(cells[i].storageFailed || cells[i].overLimit) ==> current.None? && reactor.Polling?
      ensures Valid(cfg, old(Now())) && !old(cells[i].storageFailed || cells[i].overLimit) ==>
        && (current.Some? <==> old(cells[i].bytesA) + old(cells[i].bytesB) + |data| <= cfg.limit)
        && cells[i].overLimit == current.None? && (current.None? ==> reactor == Failing(i))
    {
      hide S.Occurs;
      DeliveryRoom(cfg, Now(), i);
      var c := Received(cells[i], first, data);
      cells[i] := c;
      if Flagged(c) {
        return None;
      }
      if |data| > Minus(cfg.limit, CellBytes(c)) {
        cells[i] := c.(overLimit := true);
        reactor := Failing(i);
        return None;
      }
      reactor := Loaded(i, first, data, scratch);
      current := Some(scratch);
    }

    /** The rest of `charge_scratch`: the quota check against the loaded value, and the addition. */
    method ChargeScratch(i: nat, length: nat, current: nat) returns (ok: bool)
      requires Enabled(cfg, Now(), Charge) && reactor.i == i && |reactor.data| == length && reactor.current == current
      modifies this`reactor, this`scratch, cells
      ensures Now() == Apply(cfg, old(Now()), Charge) && (ok <==> reactor.Charged?)
      ensures Valid(cfg, old(Now())) ==>
        && (ok <==> length <= cfg.quota - current)
        && scratch == old(scratch) + (if ok then length else 0) && cells[i].storageFailed == !ok
      ensures reactor == if ok then Charged(i, old(reactor.first), old(reactor.data)) else Failing(i)
    {
      hide S.Occurs;
      ChargeRoom(cfg, Now());
      if length > Minus(cfg.quota, current) {
        cells[i] := cells[i].(storageFailed := true);
        reactor := Failing(i);
        return false;
      }
      scratch := Plus(scratch, length);
      reactor := Charged(i, reactor.first, reactor.data);
      ok := true;
    }

    /** The write to the spool, and the count or the return of the charge. */
    method WriteSpool(i: nat, first: bool, data: Bytes, stored: bool, part: nat)
      requires Enabled(cfg, Now(), Store(stored, part)) && reactor == Charged(i, first, data)
      modifies this`reactor, this`scratch, cells
      ensures Now() == Apply(cfg, old(Now()), Store(stored, part))
      ensures Valid(cfg, old(Now())) ==>
        && scratch == old(scratch) - (if stored then 0 else |data|) && cells[i].storageFailed == !stored
        && cells[i].bytesA == old(cells[i].bytesA) + (if stored && first then |data| else 0)
        && cells[i].bytesB == old(cells[i].bytesB) + (if stored && !first then |data| else 0)
      ensures stored && first ==> cells[i].spoolA == Some(Text(old(cells[i].spoolA)) + data)
      ensures stored && !first ==> cells[i].spoolB == Some(Text(old(cells[i].spoolB)) + data)
      ensures reactor == if stored then Polling else Failing(i)
    {
      hide S.Occurs;
      StoreRoom(cfg, Now(), stored, part);
      if stored {
        cells[i] := Counted(Spooled(cells[i], first, data), first, data);
        reactor := Polling;
        return;
      }
      cells[i] := Spooled(cells[i], first, data[..if part < |data| then part else |data|]);
      scratch := Minus(scratch, |data|);
      cells[i] := cells[i].(storageFailed := true);
      reactor := Failing(i);
    }

    /** The subtraction in `discard_cell_output`. */
    method DiscardCharge(i: nat)
      requires Valid(cfg, Now()) && Enabled(cfg, Now(), Discard) && reactor.i == i
      modifies this`reactor, this`scratch
      ensures Now() == Apply(cfg, old(Now()), Discard)
      ensures scratch == old(scratch) - cells[i].bytesA - cells[i].bytesB
    {
      hide Valid, S.Occurs, Minus, CellBytes;
      HeldRoom(cfg, Now(), i);
      var charge := CellBytes(cells[i]);
      if charge != 0 {
        scratch := Minus(scratch, charge);
      }
      reactor := Discarding(i, charge);
    }

    /** The rest of it: the spools emptied, the counts zeroed, and a shell asked to stop. */
    method ClearOutput(i: nat, at: nat)
      requires Enabled(cfg, Now(), Clear(at)) && reactor.i == i
      modifies this`reactor, cells
      ensures Now() == Apply(cfg, old(Now()), Clear(at))
      ensures Text(cells[i].spoolA) == Text(cells[i].spoolB) == [] && cells[i].bytesA == cells[i].bytesB == 0
      ensures reactor.Polling? && (cells[i].kind != Shell ==> cells[i].child == old(cells[i].child))
    {
      hide S.Occurs, E.AfterFailure;
      cells[i] := Emptied(cells[i]);
      if cells[i].kind == Shell {
        cells[i] := cells[i].(child := E.AfterFailure(cells[i].child, at, cfg.grace));
      }
      reactor := Polling;
    }

    /** The compare-and-swap in `admit`. */
    method ReserveCell(i: nat, id: nat) returns (ok: bool)
      requires Enabled(cfg, Now(), Reserve(i, id))
      modifies this`owner, cells
      ensures Now() == Apply(cfg, old(Now()), Reserve(i, id)) && (ok <==> owner.Admitting?)
      ensures ok <==> old(cells[i].state).Free?
      ensures ok ==> owner == Admitting(i, id) && cells[i] == old(cells[i]).(state := Reserved)
      ensures !ok ==> owner.Stopped? && cells[..] == old(cells[..])
    {
      hide S.Occurs;
      if cells[i].state != Free {
        owner := Stopped;
        return false;
      }
      cells[i] := cells[i].(state := Reserved);
      owner := Admitting(i, id);
      ok := true;
    }

    /** The transaction in `admit`; `durable` says whether SQLite could do it. */
    method AdmitCell(i: nat, id: nat, durable: bool) returns (ok: bool)
      requires Enabled(cfg, Now(), Admit(durable)) && owner == Admitting(i, id)
      modifies this`owner, this`db, cells
      ensures Now() == Apply(cfg, old(Now()), Admit(durable)) && (ok <==> owner.Waiting?)
      ensures ok <==> durable && id !in old(db).attempts
      ensures ok ==> db.attempts == old(db).attempts + {id} && cells[i] == old(cells[i]).(attempt := id, state := Dispatchable)
      ensures !ok ==> db == old(db) && cells[i] == old(cells[i]).(state := Free)
    {
      hide S.Occurs;
      if !durable || id in db.attempts {
        cells[i] := cells[i].(state := Free);
        owner := Stopped;
        return false;
      }
      db := db.(attempts := db.attempts + {id});
      cells[i] := cells[i].(attempt := id);
      cells[i] := cells[i].(state := Dispatchable);
      owner := Waiting;
      ok := true;
    }

    /** The scan of a model response that nothing has spoiled. */
    method ScanCell(c: Cell, sound: bool) returns (seen: bool, ghost unread: bool)
      ensures c.kind == ModelCall && Clean(c) ==> (seen <==> Seen(c, unread))
      ensures unread ==> !sound
      ensures sound ==> (seen <==> c.kind == ModelCall && Clean(c) && S.Occurs(Text(c.spoolA), S.NEEDLE))
    {
      seen, unread := false, false;
      if c.kind == ModelCall && !c.prepFailed && !Flagged(c) && !c.transportFailed {
        var window := new byte[S.IMPORT_WINDOW](_ => 0);
        var file := new S.File(Text(c.spoolA), sound);
        S.NeedleFits();
        seen := S.Contains(file, window, S.NEEDLE);
        unread := file.failed;
      }
    }

    /** Both imports, or a failed one. */
    method ImportCell(c: Cell, seen: bool, sound: bool) returns (rows: Option<map<(nat, nat), Bytes>>)
      requires c.bytesA <= |Text(c.spoolA)| && c.bytesB <= |Text(c.spoolB)|
      ensures rows.Some? ==> rows.value == Rows(c, seen)
      ensures sound ==> rows.Some?
    {
      if !Imports(c, seen) {
        return Some(map[]);
      }
      var window := new byte[S.IMPORT_WINDOW](_ => 0);
      var a: map<(nat, nat), Bytes>, b: map<(nat, nat), Bytes> := map[], map[];
      if c.spoolA.Some? {
        var file := new S.File(c.spoolA.value, sound);
        var part := S.ImportPart(file, c.bytesA, window);
        if part.None? {
          return None;
        }
        a := map[(c.attempt, 0) := part.value];
      }
      if c.spoolB.Some? {
        var file := new S.File(c.spoolB.value, sound);
        var part := S.ImportPart(file, c.bytesB, window);
        if part.None? {
          return None;
        }
        b := map[(c.attempt, 1) := part.value];
      }
      rows := Some(a + b);
    }

    /**
     * `settle`: the scan, the imports and the rows, all in one transaction or not at all. `durable` says
     * whether SQLite could do it, `sound` whether the spools can be read; if both, the attempt is settled.
     */
    method SettleCell(i: nat, durable: bool, sound: bool) returns (ok: bool, ghost unread: bool)
      requires Valid(cfg, Now()) && Enabled(cfg, Now(), Settle(i, false, durable))
      modifies this`owner, this`db, this`evidence
      ensures SettlesTo(cfg, old(Now()), i, unread, ok, Now()) && (unread ==> !sound)
      ensures (ok ==> durable) && (durable && sound ==> ok)
      ensures ok ==> owner == Settled(i) && OkRecord(db, Evidence(cells[i], unread), cells[i].attempt)
      ensures !ok ==> owner.Stopped? && db == old(db)
    {
      hide Valid, S.Occurs, Rows, ClassOf, Seen, Imports, OkRecord;
      ghost var before := Now();
      CountsFit(cfg, before, i);
      SettlementDue(cfg, before, i);
      var c := cells[i];
      var seen;
      seen, unread := ScanCell(c, sound);
      SameAnswer(c, seen, unread);
      RowsSame(c, seen, Seen(c, unread));
      SettledRecord(cfg, before, i, unread, true);
      var rows := ImportCell(c, seen, sound);
      if !durable || rows.None? || c.attempt !in db.attempts || c.attempt in db.completions || c.attempt in db.resolutions {
        owner := Stopped;
        return false, unread;
      }
      db := db.(completions := db.completions[c.attempt := ClassOf(c, seen)],
        resolutions := db.resolutions[c.attempt := c.attempt], artifacts := db.artifacts + rows.value);
      evidence := evidence[c.attempt := Evidence(c, unread)];
      owner := Settled(i);
      ok := true;
    }

    /** The subtraction in `release_cell`. */
    method ReleaseCharge(i: nat)
      requires Valid(cfg, Now()) && Enabled(cfg, Now(), Uncharge) && owner.i == i
      modifies this`owner, this`scratch
      ensures Now() == Apply(cfg, old(Now()), Uncharge)
      ensures scratch == old(scratch) - cells[i].bytesA - cells[i].bytesB
    {
      hide Valid, S.Occurs, Minus, CellBytes;
      HeldRoom(cfg, Now(), i);
      var charge := CellBytes(cells[i]);
      if charge != 0 {
        scratch := Minus(scratch, charge);
      }
      owner := Releasing(i, charge);
    }

    /** The rest of it: every field but the kind reset, the state last. */
    method ReleaseCell(i: nat)
      requires Enabled(cfg, Now(), Release) && owner.i == i
      modifies this`owner, cells
      ensures Now() == Apply(cfg, old(Now()), Release)
      ensures cells[i] ==
        Cell(Free, old(cells[i].kind), false, false, false, false, 0, 0, 0, None, None, [], [], false, NO_CHILD, 0)
      ensures owner.Waiting?
    {
      hide S.Occurs;
      cells[i] := Cleared(cells[i].kind).(state := cells[i].state);
      cells[i] := cells[i].(state := Free);
      owner := Waiting;
    }
  }
}
