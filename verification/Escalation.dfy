/**
 * How integrated_capacity.c ends a Bash effect: TERM, then KILL, then a grace for pipes that
 * descendants still hold, over any sequence of reactor ticks and pipe drains.
 *
 * Times are nanoseconds of a monotonic clock that started above zero, taken without wrap-around.
 * Whether the root has exited by a tick is the environment's; `log` records what was done to it.
 */
module Escalation {
  import opened Bytes

  datatype Mark = TermAt(t: nat) | KillAt(t: nat) | ReapAt(t: nat)

  datatype Grace = Grace(term: nat, pipe: nat)

  /** The escalation fields of a custody cell. An open pipe is one whose end of file has not been seen. */
  datatype Bash = Bash(clock: nat, deadline: nat, grace: nat, cancelled: bool, termSent: bool, killSent: bool,
    reaped: bool, expired: bool, pipeA: bool, pipeB: bool, sealed: bool, log: seq<Mark>)

  /** A cell whose child was just spawned; `cancelAfter` is zero when nothing cancels it. */
  function Spawned(at: nat, cancelAfter: nat): Bash {
    Bash(at, if cancelAfter > 0 then at + cancelAfter else 0, 0, false, false, false, false, false, true, true, false, [])
  }

  function Cancel(b: Bash, at: nat, g: Grace): Bash {
    if b.deadline != 0 && at >= b.deadline && !b.termSent
    then b.(cancelled := true, termSent := true, deadline := at, grace := at + g.term, log := b.log + [TermAt(at)])
    else b
  }

  function Escalate(b: Bash, at: nat): Bash {
    if b.termSent && !b.killSent && !b.reaped && at >= b.grace
    then b.(killSent := true, deadline := at, log := b.log + [KillAt(at)])
    else b
  }

  function Reap(b: Bash, at: nat, exited: bool, g: Grace): Bash {
    if !b.reaped && exited
    then b.(reaped := true, grace := if b.pipeA || b.pipeB then at + g.pipe else b.grace, log := b.log + [ReapAt(at)])
    else b
  }

  function Expire(b: Bash, at: nat): Bash {
    if b.reaped && (b.pipeA || b.pipeB) && b.grace != 0 && at >= b.grace
    then b.(pipeA := false, pipeB := false, expired := true)
    else b
  }

  predicate Ended(b: Bash) {
    b.reaped && !b.pipeA && !b.pipeB
  }

  function Seal(b: Bash): Bash {
    b.(sealed := Ended(b))
  }

  function AfterTick(b: Bash, at: nat, exited: bool, g: Grace): Bash {
    Seal(Expire(Reap(Escalate(Cancel(b.(clock := at), at, g), at), at, exited, g), at))
  }

  /** A drain that could not keep the output asks the child to stop, once. */
  function AfterFailure(b: Bash, at: nat, g: Grace): Bash {
    if b.termSent then b.(clock := at)
    else b.(clock := at, termSent := true, deadline := at, grace := at + g.term, log := b.log + [TermAt(at)])
  }

  /** At or past the deadline the child is cancelled: TERM is sent, if it was not before, and its grace starts. */
  ghost predicate Terminates(b: Bash, c: Bash, at: nat, g: Grace) {
    if 0 < b.deadline <= at && !b.termSent
    then c == b.(cancelled := true, termSent := true, deadline := at, grace := at + g.term, log := b.log + [TermAt(at)])
    else c == b
  }

  /** When the grace of the TERM is over, the child is killed, once and only while it is not reaped. */
  ghost predicate Kills(b: Bash, c: Bash, at: nat) {
    if b.termSent && !b.killSent && !b.reaped && b.grace <= at
    then c == b.(killSent := true, deadline := at, log := b.log + [KillAt(at)])
    else c == b
  }

  /** An exited child is reaped once, and open pipes get a grace. */
  ghost predicate Reaps(b: Bash, c: Bash, at: nat, exited: bool, g: Grace) {
    if exited && !b.reaped
    then c == b.(reaped := true, grace := if b.pipeA || b.pipeB then at + g.pipe else b.grace, log := b.log + [ReapAt(at)])
    else c == b
  }

  /** After that grace, pipes still open are closed. */
  ghost predicate GivesUp(b: Bash, c: Bash, at: nat) {
    if b.reaped && (b.pipeA || b.pipeB) && 0 < b.grace <= at
    then c == b.(pipeA := false, pipeB := false, expired := true)
    else c == b
  }

  /** A failed drain sends the TERM at once, and cancels nothing. */
  ghost predicate Stops(b: Bash, c: Bash, at: nat, g: Grace) {
    if b.termSent then c == b.(clock := at)
    else c == b.(clock := at, termSent := true, deadline := at, grace := at + g.term, log := b.log + [TermAt(at)])
  }

  class BashCell {
    var clock: nat
    var deadline: nat
    var grace: nat
    var cancelled: bool
    var termSent: bool
    var killSent: bool
    var reaped: bool
    var expired: bool
    var pipeA: bool
    var pipeB: bool
    var sealed: bool
    var log: seq<Mark>

    ghost function Now(): Bash
      reads this
    {
      Bash(clock, deadline, grace, cancelled, termSent, killSent, reaped, expired, pipeA, pipeB, sealed, log)
    }

    method SendTerm(at: nat, g: Grace)
      modifies this
      ensures Now() == Cancel(old(Now()), at, g)
      ensures Terminates(old(Now()), Now(), at, g)
    {
      if deadline != 0 && at >= deadline && !termSent {
        log := log + [TermAt(at)];
        cancelled, termSent := true, true;
        deadline := at;
        grace := at + g.term;
      }
    }

    method SendKill(at: nat)
      modifies this
      ensures Now() == Escalate(old(Now()), at)
      ensures Kills(old(Now()), Now(), at)
    {
      if termSent && !killSent && !reaped && at >= grace {
        log := log + [KillAt(at)];
        killSent := true;
        deadline := at;
      }
    }

    method Wait(at: nat, exited: bool, g: Grace)
      modifies this
      ensures Now() == Reap(old(Now()), at, exited, g)
      ensures Reaps(old(Now()), Now(), at, exited, g)
    {
      var newlyReaped := false;
      if !reaped && exited {
        reaped, newlyReaped := true, true;
        log := log + [ReapAt(at)];
      }
      if newlyReaped && (pipeA || pipeB) {
        grace := at + g.pipe;
      }
    }

    method ClosePipes(at: nat)
      modifies this
      ensures Now() == Expire(old(Now()), at)
      ensures GivesUp(old(Now()), Now(), at)
    {
      if reaped && (pipeA || pipeB) && grace != 0 && at >= grace {
        pipeA, pipeB := false, false;
        expired := true;
      }
    }

    /** The signals that are due at time `at`. */
    method Signal(at: nat, g: Grace)
      modifies this
      ensures Now() == Escalate(Cancel(old(Now()).(clock := at), at, g), at)
    {
      hide Cancel, Escalate, Terminates, Kills;
      clock := at;
      SendTerm(at, g);
      SendKill(at);
    }

    /** `bash_terminal`: one look at the child at time `at`; its caller seals the cell when it says so. */
    method Terminal(at: nat, exited: bool, g: Grace) returns (ended: bool)
      modifies this
      ensures Now() == AfterTick(old(Now()), at, exited, g) && ended == sealed == Ended(Now())
    {
      hide Cancel, Escalate, Reap, Expire, Seal, Ended, Reaps, GivesUp;
      Signal(at, g);
      Wait(at, exited, g);
      ClosePipes(at);
      ended := Conclude();
    }

    /** What `bash_terminal` returns. */
    method Conclude() returns (ended: bool)
      modifies this`sealed
      ensures Now() == Seal(old(Now())) && ended == sealed == Ended(Now())
      ensures ended <==> reaped && !pipeA && !pipeB
    {
      ended := reaped && !pipeA && !pipeB;
      sealed := ended;
    }

    /** A drain that could not keep its output. */
    method StopChild(at: nat, g: Grace)
      modifies this
      ensures Now() == AfterFailure(old(Now()), at, g)
      ensures Stops(old(Now()), Now(), at, g)
    {
      clock := at;
      if !termSent {
        log := log + [TermAt(at)];
        termSent := true;
        deadline := at;
        grace := at + g.term;
      }
    }
  }

  // ---------------------------------------------------------------- runs

  datatype Event = Tick(at: nat, exited: bool) | Failure(at: nat) | EndOfFile(first: bool)

  /** Time does not go back, pipes are drained while open, and a sealed cell is looked at no more. */
  predicate Enabled(b: Bash, e: Event) {
    && !b.sealed
    && match e
       case Tick(at, _) => at >= b.clock
       case Failure(at) => at >= b.clock && (b.pipeA || b.pipeB)
       case EndOfFile(first) => if first then b.pipeA else b.pipeB
  }

  function Apply(b: Bash, e: Event, g: Grace): Bash {
    match e
    case Tick(at, exited) => AfterTick(b, at, exited, g)
    case Failure(at) => AfterFailure(b, at, g)
    case EndOfFile(first) => if first then b.(pipeA := false) else b.(pipeB := false)
  }

  ghost predicate Follows(b: Bash, events: seq<Event>, g: Grace)
    decreases |events|
  {
    events != [] ==> Enabled(b, events[0]) && Follows(Apply(b, events[0], g), events[1..], g)
  }

  function Run(b: Bash, events: seq<Event>, g: Grace): Bash
    decreases |events|
  {
    if events == [] then b else Run(Apply(b, events[0], g), events[1..], g)
  }

  // ---------------------------------------------------------------- signals

  ghost predicate SameKind(a: Mark, b: Mark) {
    (a.TermAt? && b.TermAt?) || (a.KillAt? && b.KillAt?) || (a.ReapAt? && b.ReapAt?)
  }

  /** Some TERM lies a full grace before the mark. */
  ghost predicate TermBefore(log: seq<Mark>, j: nat, g: Grace)
    requires j < |log|
  {
    exists i: nat :: i < j && log[i].TermAt? && log[j].t >= log[i].t + g.term
  }

  /** Each thing happens at most once, in time order; KILL a full grace after TERM, and never after the reap. */
  ghost predicate OkLog(log: seq<Mark>, g: Grace) {
    && (forall i, j :: 0 <= i < j < |log| ==> !SameKind(log[i], log[j]) && log[i].t <= log[j].t)
    && (forall j: nat :: j < |log| && log[j].KillAt? ==> TermBefore(log, j, g))
    && (forall i, j :: 0 <= i < j < |log| ==> !(log[i].ReapAt? && log[j].KillAt?))
  }

  ghost predicate HasTerm(log: seq<Mark>) { exists i :: 0 <= i < |log| && log[i].TermAt? }
  ghost predicate HasKill(log: seq<Mark>) { exists i :: 0 <= i < |log| && log[i].KillAt? }
  ghost predicate HasReap(log: seq<Mark>) { exists i :: 0 <= i < |log| && log[i].ReapAt? }

  /** The fields say what was logged, and the grace runs from the TERM until the reap. */
  ghost predicate Valid(b: Bash, g: Grace) {
    && OkLog(b.log, g)
    && (b.termSent <==> HasTerm(b.log)) && (b.killSent <==> HasKill(b.log)) && (b.reaped <==> HasReap(b.log))
    && (forall i :: 0 <= i < |b.log| ==> b.log[i].t <= b.clock)
    && (!b.reaped ==> forall i :: 0 <= i < |b.log| && b.log[i].TermAt? ==> b.grace == b.log[i].t + g.term)
    && (b.reaped && (b.pipeA || b.pipeB) ==> 0 < b.grace)
    && (b.sealed ==> Ended(b))
  }

  lemma LogMore(log: seq<Mark>, m: Mark, g: Grace)
    requires OkLog(log, g)
    requires forall i :: 0 <= i < |log| ==> !SameKind(log[i], m) && log[i].t <= m.t
    requires m.KillAt? ==> !HasReap(log) && exists i: nat :: i < |log| && log[i].TermAt? && m.t >= log[i].t + g.term
    ensures OkLog(log + [m], g)
    ensures HasTerm(log + [m]) <==> HasTerm(log) || m.TermAt?
    ensures HasKill(log + [m]) <==> HasKill(log) || m.KillAt?
    ensures HasReap(log + [m]) <==> HasReap(log) || m.ReapAt?
  {
    var more := log + [m];
    assert more[|log|] == m;
    forall j: nat | j < |more| && more[j].KillAt? ensures TermBefore(more, j, g) {
      if j < |log| {
        assert TermBefore(log, j, g);
        var i: nat :| i < j && log[i].TermAt? && log[j].t >= log[i].t + g.term;
        assert more[i] == log[i];
      } else {
        var i: nat :| i < |log| && log[i].TermAt? && m.t >= log[i].t + g.term;
        assert more[i] == log[i];
      }
    }
    forall i | 0 <= i < |log| ensures more[i] == log[i] {}
  }

  lemma CancelKeeps(b: Bash, at: nat, g: Grace)
    requires Valid(b, g) && at == b.clock
    ensures Valid(Cancel(b, at, g), g) && Cancel(b, at, g).clock == at
  {
    hide OkLog;
    if b.deadline != 0 && at >= b.deadline && !b.termSent {
      LogMore(b.log, TermAt(at), g);
    }
  }

  lemma FailureKeeps(b: Bash, at: nat, g: Grace)
    requires Valid(b, g) && at >= b.clock && at > 0
    ensures Valid(AfterFailure(b, at, g), g)
  {
    hide OkLog;
    if !b.termSent {
      LogMore(b.log, TermAt(at), g);
    }
  }

  lemma EscalateKeeps(b: Bash, at: nat, g: Grace)
    requires Valid(b, g) && at == b.clock
    ensures Valid(Escalate(b, at), g) && Escalate(b, at).clock == at
  {
    hide OkLog;
    if b.termSent && !b.killSent && !b.reaped && at >= b.grace {
      LogMore(b.log, KillAt(at), g);
    }
  }

  lemma ReapKeeps(b: Bash, at: nat, exited: bool, g: Grace)
    requires Valid(b, g) && at == b.clock && at > 0
    ensures Valid(Reap(b, at, exited, g), g) && Reap(b, at, exited, g).clock == at
  {
    hide OkLog;
    if !b.reaped && exited {
      LogMore(b.log, ReapAt(at), g);
    }
  }

  lemma StepKeepsValid(b: Bash, e: Event, g: Grace)
    requires Valid(b, g) && Enabled(b, e) && b.clock > 0
    ensures Valid(Apply(b, e, g), g) && Apply(b, e, g).clock >= b.clock
  {
    match e
    case Tick(at, exited) => TickKeeps(b, at, exited, g);
    case Failure(at) => FailureKeeps(b, at, g);
    case EndOfFile(_) => hide OkLog;
  }

  lemma TickKeeps(b: Bash, at: nat, exited: bool, g: Grace)
    requires Valid(b, g) && at >= b.clock > 0
    ensures Valid(AfterTick(b, at, exited, g), g) && AfterTick(b, at, exited, g).clock == at
  {
    hide Valid, Cancel, Escalate, Reap, Expire, Seal;
    var b0 := b.(clock := at);
    ClockKeeps(b, at, g);
    var b1 := Cancel(b0, at, g);
    CancelKeeps(b0, at, g);
    var b2 := Escalate(b1, at);
    EscalateKeeps(b1, at, g);
    ReapKeeps(b2, at, exited, g);
    ExpireKeeps(Reap(b2, at, exited, g), at, g);
  }

  lemma ClockKeeps(b: Bash, at: nat, g: Grace)
    requires Valid(b, g) && at >= b.clock
    ensures Valid(b.(clock := at), g)
  {
    hide OkLog;
  }

  lemma ExpireKeeps(b: Bash, at: nat, g: Grace)
    requires Valid(b, g)
    ensures Valid(Seal(Expire(b, at)), g) && Seal(Expire(b, at)).clock == b.clock
  {
    hide OkLog;
  }

  lemma {:induction false} RunKeepsValid(b: Bash, events: seq<Event>, g: Grace)
    requires Valid(b, g) && Follows(b, events, g) && b.clock > 0
    ensures Valid(Run(b, events, g), g) && Run(b, events, g).clock >= b.clock
    decreases |events|
  {
    hide Valid, Enabled, Apply;
    if events != [] {
      StepKeepsValid(b, events[0], g);
      RunKeepsValid(Apply(b, events[0], g), events[1..], g);
    }
  }

  /** Over every run from the spawn, TERM and KILL are sent at most once, KILL a full grace after TERM and never after the reap. */
  lemma SignalsInOrder(at: nat, cancelAfter: nat, events: seq<Event>, g: Grace)
    requires at > 0 && Follows(Spawned(at, cancelAfter), events, g)
    ensures OkLog(Run(Spawned(at, cancelAfter), events, g).log, g)
  {
    RunKeepsValid(Spawned(at, cancelAfter), events, g);
  }

  /** In every run, a child that was sent TERM and has not exited is killed by the first tick a full grace later. */
  lemma KilledInTime(at: nat, cancelAfter: nat, events: seq<Event>, g: Grace, sent: nat, last: nat, exited: bool)
    requires at > 0 && Follows(Spawned(at, cancelAfter), events, g)
    requires var b := Run(Spawned(at, cancelAfter), events, g);
      && TermAt(sent) in b.log && !HasReap(b.log) && last >= sent + g.term && Enabled(b, Tick(last, exited))
    ensures HasKill(AfterTick(Run(Spawned(at, cancelAfter), events, g), last, exited, g).log)
  {
    var b := Run(Spawned(at, cancelAfter), events, g);
    RunKeepsValid(Spawned(at, cancelAfter), events, g);
    StepKeepsValid(b, Tick(last, exited), g);
    var i :| 0 <= i < |b.log| && b.log[i] == TermAt(sent);
    KillsNow(b, last, exited, g);
  }

  lemma KillsNow(b: Bash, at: nat, exited: bool, g: Grace)
    requires b.termSent && !b.reaped && at >= b.grace
    ensures AfterTick(b, at, exited, g).killSent
  {}

  // ---------------------------------------------------------------- when each signal is sent

  /**
   * What the events alone say: when TERM was sent and whether the deadline sent it, when KILL was sent, when the
   * root was reaped, and from when on the pipes are given up.
   */
  datatype Tally = Tally(term: Option<nat>, byDeadline: bool, kill: Option<nat>, reap: Option<nat>, due: Option<nat>)

  const NOTHING := Tally(None, false, None, None, None)

  /** A failed drain sends TERM at once, if it was not sent before. */
  function Failing(t: Tally, at: nat, g: Grace): Tally {
    if t.term.Some? then t
    else t.(term := Some(at), due := if t.reap.Some? then Some(at + g.term) else None)
  }

  /** A tick at or past the deadline sends TERM, if it was not sent before. */
  function Cancelling(t: Tally, limit: nat, at: nat, g: Grace): Tally {
    if limit > 0 && at >= limit && t.term.None? then Failing(t, at, g).(byDeadline := true) else t
  }

  /** A tick a full grace after TERM sends KILL, unless the root was reaped before. */
  function Killing(t: Tally, at: nat, g: Grace): Tally {
    if t.term.Some? && at >= t.term.value + g.term && t.reap.None? && t.kill.None? then t.(kill := Some(at)) else t
  }

  /** The first tick that finds the root exited reaps it, and gives open pipes a grace of their own. */
  function Reaping(t: Tally, at: nat, exited: bool, open: bool, g: Grace): Tally {
    if exited && t.reap.None? then t.(reap := Some(at), due := if open then Some(at + g.pipe) else None) else t
  }

  function Counted(t: Tally, limit: nat, e: Event, open: bool, g: Grace): Tally {
    match e
    case Tick(at, exited) => Reaping(Killing(Cancelling(t, limit, at, g), at, g), at, exited, open, g)
    case Failure(at) => Failing(t, at, g)
    case EndOfFile(_) => t
  }

  /** The tally of a run; whether a pipe is open at each event is the run's. */
  function TallyOf(b: Bash, events: seq<Event>, limit: nat, g: Grace, t: Tally): Tally
    decreases |events|
  {
    if events == [] then t
    else TallyOf(Apply(b, events[0], g), events[1..], limit, g, Counted(t, limit, events[0], b.pipeA || b.pipeB, g))
  }

  /** The log has exactly the marks of the tally. */
  ghost predicate Recorded(log: seq<Mark>, t: Tally) {
    && (forall at: nat :: TermAt(at) in log <==> t.term == Some(at))
    && (forall at: nat :: KillAt(at) in log <==> t.kill == Some(at))
    && (forall at: nat :: ReapAt(at) in log <==> t.reap == Some(at))
  }

  /** One more mark, of a kind that was not there. */
  lemma RecordedMore(log: seq<Mark>, m: Mark, t: Tally, t': Tally)
    requires Recorded(log, t)
    requires m.TermAt? ==> t.term.None? && t'.term == Some(m.t) && t'.kill == t.kill && t'.reap == t.reap
    requires m.KillAt? ==> t.kill.None? && t'.kill == Some(m.t) && t'.term == t.term && t'.reap == t.reap
    requires m.ReapAt? ==> t.reap.None? && t'.reap == Some(m.t) && t'.kill == t.kill && t'.term == t.term
    ensures Recorded(log + [m], t')
  {
    assert forall n :: n in log + [m] <==> n in log || n == m;
  }

  lemma RecordedSame(log: seq<Mark>, t: Tally, t': Tally)
    requires Recorded(log, t) && t'.term == t.term && t'.kill == t.kill && t'.reap == t.reap
    ensures Recorded(log, t')
  {}

  /** The log and the fields follow from the tally. */
  ghost predicate Agrees(b: Bash, t: Tally, limit: nat, g: Grace) {
    && Recorded(b.log, t) && (t.reap.None? ==> t.due.None?)
    && b.termSent == t.term.Some? && b.killSent == t.kill.Some? && b.reaped == t.reap.Some? && b.cancelled == t.byDeadline
    && (t.term.None? ==> b.deadline == limit)
    && (t.term.Some? && t.reap.None? ==> b.grace == t.term.value + g.term)
    && (t.reap.Some? && (b.pipeA || b.pipeB) ==> t.due == Some(b.grace))
  }

  lemma FailureAgrees(b: Bash, at: nat, t: Tally, limit: nat, g: Grace)
    requires Agrees(b, t, limit, g)
    ensures Agrees(AfterFailure(b, at, g), Failing(t, at, g), limit, g)
  {
    hide Recorded;
    if t.term.None? {
      RecordedMore(b.log, TermAt(at), t, Failing(t, at, g));
    }
  }

  lemma CancelAgrees(b: Bash, at: nat, t: Tally, limit: nat, g: Grace)
    requires Agrees(b, t, limit, g)
    ensures Agrees(Cancel(b, at, g), Cancelling(t, limit, at, g), limit, g)
  {
    hide Recorded;
    if t.term.None? {
      RecordedMore(b.log, TermAt(at), t, Failing(t, at, g).(byDeadline := true));
    }
  }

  lemma KillAgrees(b: Bash, at: nat, t: Tally, limit: nat, g: Grace)
    requires Agrees(b, t, limit, g)
    ensures Agrees(Escalate(b, at), Killing(t, at, g), limit, g)
  {
    hide Recorded;
    if t.kill.None? {
      RecordedMore(b.log, KillAt(at), t, t.(kill := Some(at)));
    }
  }

  lemma ReapAgrees(b: Bash, at: nat, exited: bool, t: Tally, limit: nat, g: Grace)
    requires Agrees(b, t, limit, g)
    ensures Agrees(Reap(b, at, exited, g), Reaping(t, at, exited, b.pipeA || b.pipeB, g), limit, g)
  {
    hide Recorded;
    if exited && t.reap.None? {
      RecordedMore(b.log, ReapAt(at), t, Reaping(t, at, exited, b.pipeA || b.pipeB, g));
    }
  }

  lemma ExpireAgrees(b: Bash, at: nat, t: Tally, limit: nat, g: Grace)
    requires Agrees(b, t, limit, g)
    ensures Agrees(b.(clock := at), t, limit, g) && Agrees(Seal(Expire(b, at)), t, limit, g)
  {}

  lemma StepAgrees(b: Bash, e: Event, t: Tally, limit: nat, g: Grace)
    requires Agrees(b, t, limit, g)
    ensures Agrees(Apply(b, e, g), Counted(t, limit, e, b.pipeA || b.pipeB, g), limit, g)
  {
    match e
    case Tick(at, exited) => TickAgrees(b, at, exited, t, limit, g);
    case Failure(at) => FailureAgrees(b, at, t, limit, g);
    case EndOfFile(_) => hide Recorded;
  }

  /** A tick up to the point where the pipes may be given up. */
  lemma LookAgrees(b: Bash, at: nat, exited: bool, t: Tally, limit: nat, g: Grace)
    requires Agrees(b, t, limit, g)
    ensures Agrees(Reap(Escalate(Cancel(b.(clock := at), at, g), at), at, exited, g),
      Counted(t, limit, Tick(at, exited), b.pipeA || b.pipeB, g), limit, g)
  {
    SamePipes(b, at, g);
    hide Agrees, Cancelling, Killing, Reaping, Cancel, Escalate, Reap;
    var b0, t1 := b.(clock := at), Cancelling(t, limit, at, g);
    ExpireAgrees(b, at, t, limit, g);
    CancelAgrees(b0, at, t, limit, g);
    var b1, t2 := Cancel(b0, at, g), Killing(t1, at, g);
    KillAgrees(b1, at, t1, limit, g);
    ReapAgrees(Escalate(b1, at), at, exited, t2, limit, g);
  }

  lemma TickAgrees(b: Bash, at: nat, exited: bool, t: Tally, limit: nat, g: Grace)
    requires Agrees(b, t, limit, g)
    ensures Agrees(AfterTick(b, at, exited, g), Counted(t, limit, Tick(at, exited), b.pipeA || b.pipeB, g), limit, g)
  {
    hide Agrees, Counted, Seal, Expire, Cancel, Escalate, Reap;
    LookAgrees(b, at, exited, t, limit, g);
    ExpireAgrees(Reap(Escalate(Cancel(b.(clock := at), at, g), at), at, exited, g), at,
      Counted(t, limit, Tick(at, exited), b.pipeA || b.pipeB, g), limit, g);
  }

  /** Signals do not touch the pipes. */
  lemma SamePipes(b: Bash, at: nat, g: Grace)
    ensures var c := Escalate(Cancel(b.(clock := at), at, g), at); c.pipeA == b.pipeA && c.pipeB == b.pipeB
  {}

  lemma {:induction false} RunAgrees(b: Bash, events: seq<Event>, t: Tally, limit: nat, g: Grace)
    requires Agrees(b, t, limit, g)
    ensures Agrees(Run(b, events, g), TallyOf(b, events, limit, g, t), limit, g)
    decreases |events|
  {
    hide Agrees, Apply, Counted;
    if events != [] {
      StepAgrees(b, events[0], t, limit, g);
      RunAgrees(Apply(b, events[0], g), events[1..], Counted(t, limit, events[0], b.pipeA || b.pipeB, g), limit, g);
    }
  }

  /**
   * Over every run from the spawn: each mark is in the log at exactly the time its cause arose, the cell is
   * cancelled exactly when the deadline sent the TERM, and open pipes are given up exactly when they are due.
   */
  lemma SignalsExactly(at: nat, cancelAfter: nat, events: seq<Event>, g: Grace, last: nat, exited: bool)
    requires at > 0 && cancelAfter >= 0
    ensures
      var b := Run(Spawned(at, cancelAfter), events, g);
      var limit := if cancelAfter > 0 then at + cancelAfter else 0;
      var t := TallyOf(Spawned(at, cancelAfter), events, limit, g, NOTHING);
      && Agrees(b, t, limit, g)
      && (b.pipeA || b.pipeB ==>
           var t' := Counted(t, limit, Tick(last, exited), true, g);
           var e := AfterTick(b, last, exited, g);
           && (e.expired && !e.pipeA && !e.pipeB <==> t'.due.Some? && 0 < t'.due.value <= last)
           && (!(e.expired && !e.pipeA && !e.pipeB) ==> e.pipeA == b.pipeA && e.pipeB == b.pipeB))
  {
    var b := Run(Spawned(at, cancelAfter), events, g);
    var limit := if cancelAfter > 0 then at + cancelAfter else 0;
    var t := TallyOf(Spawned(at, cancelAfter), events, limit, g, NOTHING);
    RunAgrees(Spawned(at, cancelAfter), events, NOTHING, limit, g);
    if b.pipeA || b.pipeB {
      PipesGivenUp(b, last, exited, t, limit, g);
    }
  }

  lemma PipesGivenUp(b: Bash, at: nat, exited: bool, t: Tally, limit: nat, g: Grace)
    requires Agrees(b, t, limit, g) && (b.pipeA || b.pipeB)
    ensures
      var t' := Counted(t, limit, Tick(at, exited), true, g);
      var e := AfterTick(b, at, exited, g);
      && (e.expired && !e.pipeA && !e.pipeB <==> t'.due.Some? && 0 < t'.due.value <= at)
      && (!(e.expired && !e.pipeA && !e.pipeB) ==> e.pipeA == b.pipeA && e.pipeB == b.pipeB)
  {
    SamePipes(b, at, g);
    ReapPipes(Escalate(Cancel(b.(clock := at), at, g), at), at, exited, g);
    hide Recorded, Counted, Reap, Escalate, Cancel;
    LookAgrees(b, at, exited, t, limit, g);
  }

  lemma ReapPipes(b: Bash, at: nat, exited: bool, g: Grace)
    ensures var c := Reap(b, at, exited, g); c.pipeA == b.pipeA && c.pipeB == b.pipeB
  {}

  // ---------------------------------------------------------------- sealing

  /** From `b` to `e`: the TERM was already sent or still is not, or it was sent once and moved the deadline. */
  ghost predicate MovedOnce(b: Bash, e: Bash, g: Grace) {
    && e.reaped && e.clock >= b.clock && (b.termSent ==> e.termSent)
    && (if e.termSent == b.termSent then e.grace == b.grace && e.log == b.log else MovedByTerm(b, e, g))
  }

  ghost predicate MovedByTerm(b: Bash, e: Bash, g: Grace) {
    exists t: nat :: b.clock <= t <= e.clock && e.grace == t + g.term && e.log == b.log + [TermAt(t)]
  }

  lemma StepMoves(b: Bash, e: Event, g: Grace)
    requires b.reaped && Enabled(b, e)
    ensures MovedOnce(b, Apply(b, e, g), g)
  {
    hide AfterTick, MovedByTerm;
    match e
    case Tick(at, exited) =>
      ReapedTick(b, at, exited, g);
      TermMoves(b, at, g);
    case Failure(at) =>
      if !b.termSent {
        MovedAt(b, AfterFailure(b, at, g), at, g);
      }
    case EndOfFile(_) =>
  }

  lemma TermMoves(b: Bash, at: nat, g: Grace)
    requires b.reaped && at >= b.clock
    ensures MovedOnce(b, Seal(Expire(Cancel(b.(clock := at), at, g), at)), g)
  {
    hide MovedByTerm;
    var c := Cancel(b.(clock := at), at, g);
    if c.termSent != b.termSent {
      MovedAt(b, Seal(Expire(c, at)), at, g);
    }
  }

  lemma MovedAt(b: Bash, c: Bash, t: nat, g: Grace)
    requires b.clock <= t <= c.clock && c.grace == t + g.term && c.log == b.log + [TermAt(t)]
    ensures MovedByTerm(b, c, g)
  {}

  /** After the reap a tick can only send the TERM and close the pipes. */
  lemma ReapedTick(b: Bash, at: nat, exited: bool, g: Grace)
    requires b.reaped
    ensures AfterTick(b, at, exited, g) == Seal(Expire(Cancel(b.(clock := at), at, g), at))
  {}

  /** A run that starts after the reap moves the pipe deadline at most once, and only by the one TERM. */
  lemma {:induction false} DeadlineMovedOnce(b: Bash, events: seq<Event>, g: Grace)
    requires b.reaped && Follows(b, events, g)
    ensures MovedOnce(b, Run(b, events, g), g)
    decreases |events|
  {
    hide Apply, Enabled;
    if events != [] {
      StepMoves(b, events[0], g);
      DeadlineMovedOnce(Apply(b, events[0], g), events[1..], g);
    }
  }

  /** A tick past the pipe deadline ends a reaped cell, unless it is the tick that sends the TERM. */
  lemma TickEnds(b: Bash, at: nat, exited: bool, g: Grace)
    requires b.reaped && (b.pipeA || b.pipeB ==> b.grace > 0) && at >= b.grace
    ensures AfterTick(b, at, exited, g).sealed || (!b.termSent && AfterTick(b, at, exited, g).grace == at + g.term)
    ensures b.termSent ==> AfterTick(b, at, exited, g).sealed
  {}

  /**
   * A reaped cell is sealed. Take any run after the reap with a tick past the pipe deadline and another tick a
   * TERM grace later, whatever drains, ends of file and ticks come before and between: the second one seals it.
   */
  lemma TwoTicksEnd(b: Bash, before: seq<Event>, first: Event, between: seq<Event>, second: Event, g: Grace)
    requires Valid(b, g) && b.reaped && b.clock > 0 && first.Tick? && second.Tick?
    requires first.at >= b.grace && second.at >= first.at + g.term
    requires Follows(b, before, g)
    requires
      var c := Run(b, before, g);
      && Enabled(c, first)
      && Follows(Apply(c, first, g), between, g)
      && Enabled(Run(Apply(c, first, g), between, g), second)
    ensures Apply(Run(Apply(Run(b, before, g), first, g), between, g), second, g).sealed
  {
    hide Valid, AfterTick;
    var c := Run(b, before, g);
    RunKeepsValid(b, before, g);
    DeadlineMovedOnce(b, before, g);
    var d := Apply(c, first, g);
    StepKeepsValid(c, first, g);
    var e := Run(d, between, g);
    assert !d.sealed;
    GraceAfterTick(b, c, first, g);
    RunKeepsValid(d, between, g);
    DeadlineMovedOnce(d, between, g);
    if e.pipeA || e.pipeB {
      OpenHasGrace(e, g);
    }
    TickEnds(e, second.at, second.exited, g);
  }

  lemma OpenHasGrace(b: Bash, g: Grace)
    requires Valid(b, g) && b.reaped && (b.pipeA || b.pipeB)
    ensures b.grace > 0
  {
    hide OkLog;
  }

  lemma GraceAfterTick(b: Bash, c: Bash, e: Event, g: Grace)
    requires Valid(c, g) && b.reaped && MovedOnce(b, c, g) && e.Tick? && Enabled(c, e) && e.at >= b.grace
    ensures
      var d := Apply(c, e, g);
      d.sealed || (d.reaped && d.termSent && d.grace <= e.at + g.term)
  {
    hide OkLog;
  }

  /** A cell is sealed by a tick exactly when its root is reaped and both pipes are closed. */
  lemma SealedExactly(at: nat, cancelAfter: nat, events: seq<Event>, g: Grace, last: nat, exited: bool)
    requires at > 0 && Follows(Spawned(at, cancelAfter), events, g)
    requires Enabled(Run(Spawned(at, cancelAfter), events, g), Tick(last, exited))
    ensures
      var b := Run(Spawned(at, cancelAfter), events, g);
      var e := AfterTick(b, last, exited, g);
      && (e.sealed <==> HasReap(e.log) && !e.pipeA && !e.pipeB)
      && (HasReap(e.log) <==> HasReap(b.log) || exited)
  {
    var b := Run(Spawned(at, cancelAfter), events, g);
    RunKeepsValid(Spawned(at, cancelAfter), events, g);
    StepKeepsValid(b, Tick(last, exited), g);
  }
}
