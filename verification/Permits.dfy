/**
 * The attempt custody of execution-control-experiments/custody.c: durable attempts, resolutions
 * and completions, one process-local slot with a one-shot dispatch permit, and executors whose
 * events may arrive late, twice, or after the slot was given to another attempt.
 *
 * SQLite transactions are atomic. A failed `require` or a constraint violation ends the process,
 * which is a crash: the slot, the pipes and every undelivered event are lost, the tables are not.
 * `history` records what happened over the life of the database.
 */
module Permits {

  const GENERATIONS := 0x1_0000_0000

  /** What an executor reports: its attempt and the slot generation it was launched under. */
  datatype Event = Event(attempt: nat, generation: nat)

  /** How far the owner of the slot is with the slot's attempt. */
  datatype Phase = Unused | Reserved | Committed | Granted

  datatype Slot = Slot(occupied: bool, permit: bool, live: bool, attempt: nat, generation: nat)

  datatype Mark = Admitted(a: nat) | Launched(a: nat) | Resolved(a: nat) | Completed(a: nat)

  datatype State = State(
    slot: Slot, phase: Phase, child: Event, events: set<Event>,
    attempts: set<nat>, resolutions: set<nat>, completions: set<nat>, history: seq<Mark>)

  const NO_SLOT: Slot := Slot(false, false, false, 0, 0)
  const EMPTY: State := State(NO_SLOT, Unused, Event(0, 0), {}, {}, {}, {}, [])

  datatype Step =
    | Reserve(a: nat)
    | Commit
    | Rollback
    | Grant
    | Launch
    | Receive
    | Settle(e: Event)
    | Resolve(a: nat)
    | Cleanup
    | Release
    | Crash

  function Crashed(s: State): State {
    s.(slot := NO_SLOT, phase := Unused, child := Event(0, 0), events := {})
  }

  /** The event names the slot's attempt and generation, and the attempt is neither resolved nor complete. */
  predicate Settles(s: State, e: Event) {
    && s.slot.occupied && s.slot.attempt == e.attempt && s.slot.generation == e.generation
    && s.slot.attempt !in s.resolutions && s.slot.attempt !in s.completions
  }

  /** What the environment can do: events arrive after they were emitted, and only a live child can be heard or cleaned up. */
  predicate Enabled(s: State, step: Step) {
    match step
    case Commit => s.phase == Reserved
    case Rollback => s.phase == Reserved
    case Grant => s.phase == Committed
    case Receive => s.slot.live
    case Cleanup => s.slot.live
    case Settle(e) => e in s.events
    case _ => true
  }

  function Apply(s: State, step: Step): State {
    match step
    case Reserve(a) =>
      if s.slot.occupied then s
      else s.(slot := Slot(true, false, s.slot.live, a, (s.slot.generation + 1) % GENERATIONS), phase := Reserved)
    case Commit =>
      if s.slot.attempt in s.attempts then Crashed(s)
      else s.(attempts := s.attempts + {s.slot.attempt}, phase := Committed, history := s.history + [Admitted(s.slot.attempt)])
    case Rollback => s.(phase := Unused)
    case Grant => s.(slot := s.slot.(permit := true), phase := Granted)
    case Launch =>
      if !s.slot.occupied || !s.slot.permit || s.slot.live then Crashed(s)
      else
        s.(slot := s.slot.(permit := false, live := true), child := Event(s.slot.attempt, s.slot.generation),
           history := s.history + [Launched(s.slot.attempt)])
    case Receive => s.(events := s.events + {s.child})
    case Settle(e) =>
      if !Settles(s, e) then s
      else if s.slot.attempt !in s.attempts then Crashed(s)
      else s.(completions := s.completions + {s.slot.attempt}, history := s.history + [Completed(s.slot.attempt)])
    case Resolve(a) =>
      if a !in s.attempts || a in s.resolutions then Crashed(s)
      else s.(resolutions := s.resolutions + {a}, history := s.history + [Resolved(a)])
    case Cleanup => s.(slot := s.slot.(live := false))
    case Release =>
      if s.slot.live then Crashed(s)
      else s.(slot := s.slot.(occupied := false, permit := false), phase := Unused)
    case Crash => Crashed(s)
  }

  // ---------------------------------------------------------------- the slot and the tables in place

  class Fixture {
    var occupied: bool
    var permit: bool
    var live: bool
    var attempt: nat
    var generation: nat
    var attempts: set<nat>
    var resolutions: set<nat>
    var completions: set<nat>
    ghost var phase: Phase
    ghost var child: Event
    ghost var events: set<Event>
    ghost var history: seq<Mark>

    ghost function Now(): State
      reads this
    {
      State(Slot(occupied, permit, live, attempt, generation), phase, child, events, attempts, resolutions, completions, history)
    }

    constructor ()
      ensures Now() == EMPTY
    {
      occupied, permit, live, attempt, generation := false, false, false, 0, 0;
      attempts, resolutions, completions := {}, {}, {};
      phase, child, events, history := Unused, Event(0, 0), {}, [];
    }

    method ReserveSlot(a: nat) returns (ok: bool)
      modifies this
      ensures Now() == Apply(old(Now()), Reserve(a)) && ok == !old(occupied)
      ensures Now() ==
        if old(occupied) then old(Now())
        else old(Now()).(slot := Slot(true, false, live, a, (old(generation) + 1) % 0x1_0000_0000), phase := Phase.Reserved)
    {
      if occupied {
        return false;
      }
      occupied, attempt, permit := true, a, false;
      generation := (generation + 1) % GENERATIONS;
      phase := Reserved;
      ok := true;
    }

    /** The check in `launch`, and the fork; the result is the event the child will report. */
    method LaunchChild() returns (c: Event)
      requires occupied && permit && !live
      modifies this
      ensures Now() == Apply(old(Now()), Launch) && c == child == Event(attempt, generation)
      ensures Now() == old(Now()).(
        slot := Slot(true, false, true, old(attempt), old(generation)), child := c, history := old(history) + [Launched(old(attempt))])
    {
      permit := false;
      live := true;
      c := Event(attempt, generation);
      child := c;
      history := history + [Launched(attempt)];
    }

    /** `settle`: one statement that inserts nothing if the attempt is resolved or already complete. */
    method SettleEvent(e: Event) returns (changes: nat)
      requires Settles(Now(), e) ==> attempt in attempts
      modifies this
      ensures Now() == Apply(old(Now()), Settle(e)) && changes == |completions| - |old(completions)|
      ensures changes == if Settles(old(Now()), e) then 1 else 0
      ensures
        var own :=
          && old(occupied) && old(attempt) == e.attempt && old(generation) == e.generation
          && e.attempt !in old(resolutions) && e.attempt !in old(completions);
        Now() == if own then old(Now()).(completions := old(completions) + {e.attempt}, history := old(history) + [Completed(e.attempt)])
          else old(Now())
    {
      if !occupied || attempt != e.attempt || generation != e.generation {
        return 0;
      }
      if attempt in resolutions || attempt in completions {
        return 0;
      }
      completions := completions + {attempt};
      history := history + [Completed(attempt)];
      changes := 1;
    }

    method CleanupChild()
      requires live
      modifies this
      ensures Now() == Apply(old(Now()), Cleanup)
      ensures Now() == old(Now()).(slot := Slot(old(occupied), old(permit), false, old(attempt), old(generation)))
    {
      live := false;
    }

    method ReleaseSlot()
      requires !live
      modifies this
      ensures Now() == Apply(old(Now()), Release)
      ensures Now() == old(Now()).(slot := Slot(false, false, false, old(attempt), old(generation)), phase := Unused)
    {
      occupied, permit := false, false;
      phase := Unused;
    }
  }

  /** The steps that no method above takes: what the tables and the permit owe to admission, resolution and a crash. */
  lemma OtherSteps(s: State, a: nat)
    ensures Apply(s, Commit) ==
      if s.slot.attempt in s.attempts then s.(slot := NO_SLOT, phase := Unused, child := Event(0, 0), events := {})
      else s.(attempts := s.attempts + {s.slot.attempt}, phase := Committed, history := s.history + [Admitted(s.slot.attempt)])
    ensures Apply(s, Rollback) == s.(phase := Unused)
    ensures Apply(s, Grant) == s.(slot := s.slot.(permit := true), phase := Granted)
    ensures Apply(s, Receive) == s.(events := s.events + {s.child})
    ensures a in s.attempts && a !in s.resolutions ==>
      Apply(s, Resolve(a)) == s.(resolutions := s.resolutions + {a}, history := s.history + [Resolved(a)])
    ensures a !in s.attempts || a in s.resolutions ==> Apply(s, Resolve(a)) == Apply(s, Crash)
    ensures Apply(s, Crash) ==
      s.(slot := Slot(false, false, false, 0, 0), phase := Unused, child := Event(0, 0), events := {})
  {}

  // ---------------------------------------------------------------- runs

  ghost predicate Follows(s: State, steps: seq<Step>)
    decreases |steps|
  {
    steps != [] ==> Enabled(s, steps[0]) && Follows(Apply(s, steps[0]), steps[1..])
  }

  function Run(s: State, steps: seq<Step>): State
    decreases |steps|
  {
    if steps == [] then s else Run(Apply(s, steps[0]), steps[1..])
  }

  // ---------------------------------------------------------------- the invariant

  /** Nothing happens twice to an attempt; it is launched after it was admitted, completed after it was launched and not after it was resolved. */
  ghost predicate OkHistory(h: seq<Mark>) {
    && (forall i, j :: 0 <= i < j < |h| ==> h[i] != h[j])
    && (forall j: nat :: j < |h| && h[j].Launched? ==> Admitted(h[j].a) in h[..j])
    && (forall j: nat :: j < |h| && h[j].Completed? ==> Launched(h[j].a) in h[..j] && Resolved(h[j].a) !in h[..j])
    && (forall j: nat :: j < |h| && h[j].Resolved? ==> Admitted(h[j].a) in h[..j])
  }

  lemma HistoryMore(h: seq<Mark>, m: Mark)
    requires OkHistory(h) && m !in h
    requires m.Launched? || m.Resolved? ==> Admitted(m.a) in h
    requires m.Completed? ==> Launched(m.a) in h && Resolved(m.a) !in h
    ensures OkHistory(h + [m])
  {
    var more := h + [m];
    forall j: nat | j < |more| ensures more[..j] == h[..j] {}
    assert h[..|h|] == h;
  }

  /** The tables say what the history says. */
  ghost predicate OkTables(s: State) {
    && (forall a :: a in s.attempts <==> Admitted(a) in s.history)
    && (forall a :: a in s.resolutions <==> Resolved(a) in s.history)
    && (forall a :: a in s.completions <==> Completed(a) in s.history)
  }

  /** A live child is the slot's, a permit is for an admitted attempt not yet launched, and events come from launched children. */
  ghost predicate OkSlot(s: State) {
    && s.slot.generation < GENERATIONS
    && (s.slot.live ==> s.slot.occupied && s.child == Event(s.slot.attempt, s.slot.generation) && Launched(s.slot.attempt) in s.history)
    && (s.phase != Unused ==> s.slot.occupied)
    && (s.phase == Reserved || s.phase == Committed ==> !s.slot.permit && !s.slot.live)
    && (s.phase == Committed || s.slot.permit ==> s.slot.occupied && s.slot.attempt in s.attempts && Launched(s.slot.attempt) !in s.history)
    && (s.slot.permit ==> s.phase == Granted)
    && (forall e :: e in s.events ==> Launched(e.attempt) in s.history)
  }

  ghost predicate Valid(s: State) {
    OkHistory(s.history) && OkTables(s) && OkSlot(s)
  }

  lemma StepKeepsHistory(s: State, step: Step)
    requires Valid(s) && Enabled(s, step)
    ensures OkHistory(Apply(s, step).history) && OkTables(Apply(s, step))
  {
    hide OkHistory;
    match step
    case Commit =>
      if s.slot.attempt !in s.attempts {
        HistoryMore(s.history, Admitted(s.slot.attempt));
      }
    case Launch =>
      if s.slot.occupied && s.slot.permit && !s.slot.live {
        HistoryMore(s.history, Launched(s.slot.attempt));
      }
    case Settle(e) =>
      if Settles(s, e) && s.slot.attempt in s.attempts {
        HistoryMore(s.history, Completed(s.slot.attempt));
      }
    case Resolve(a) =>
      if a in s.attempts && a !in s.resolutions {
        HistoryMore(s.history, Resolved(a));
      }
    case _ =>
  }

  lemma StepKeepsSlot(s: State, step: Step)
    requires Valid(s) && Enabled(s, step)
    ensures OkSlot(Apply(s, step))
  {
    hide OkHistory, OkTables;
    if step.Commit? && s.slot.attempt !in s.attempts {
      NotAdmitted(s, s.slot.attempt);
    }
  }

  lemma StepKeepsValid(s: State, step: Step)
    requires Valid(s) && Enabled(s, step)
    ensures Valid(Apply(s, step))
  {
    hide Enabled, Apply, OkHistory, OkTables, OkSlot;
    StepKeepsHistory(s, step);
    StepKeepsSlot(s, step);
  }

  /** An attempt that was never admitted was never launched. */
  lemma NotAdmitted(s: State, a: nat)
    requires Valid(s) && a !in s.attempts
    ensures Launched(a) !in s.history
  {
    if Launched(a) in s.history {
      LaunchedAdmitted(s, a);
    }
  }

  lemma {:induction false} RunKeepsValid(s: State, steps: seq<Step>)
    requires Valid(s) && Follows(s, steps)
    ensures Valid(Run(s, steps))
    decreases |steps|
  {
    hide Valid, Enabled, Apply;
    if steps != [] {
      StepKeepsValid(s, steps[0]);
      RunKeepsValid(Apply(s, steps[0]), steps[1..]);
    }
  }

  lemma EmptyValid()
    ensures Valid(EMPTY)
  {}

  // ---------------------------------------------------------------- what every run guarantees

  /**
   * Over every run with any number of crashes: an attempt is admitted, launched, resolved and completed at most
   * once each; launched only after it was admitted; completed only after it was launched and never after it was resolved.
   */
  lemma AttemptsInOrder(steps: seq<Step>)
    requires Follows(EMPTY, steps)
    ensures OkHistory(Run(EMPTY, steps).history)
    ensures OkTables(Run(EMPTY, steps))
  {
    EmptyValid();
    RunKeepsValid(EMPTY, steps);
  }

  /** No launch can still come for the attempt: it is admitted, and the slot holds no authority to dispatch it. */
  predicate Spent(s: State, a: nat) {
    a in s.attempts && !(s.slot.attempt == a && (s.phase == Committed || s.slot.permit))
  }

  lemma SpentStep(s: State, step: Step, a: nat)
    requires Valid(s) && Enabled(s, step) && Spent(s, a)
    ensures Spent(Apply(s, step), a)
    ensures Launched(a) in Apply(s, step).history <==> Launched(a) in s.history
  {
    hide OkHistory;
  }

  lemma {:induction false} SpentNeverLaunches(s: State, steps: seq<Step>, a: nat)
    requires Valid(s) && Follows(s, steps) && Spent(s, a)
    ensures Launched(a) in Run(s, steps).history <==> Launched(a) in s.history
    decreases |steps|
  {
    hide Valid, Enabled, Apply, Spent;
    if steps != [] {
      StepKeepsValid(s, steps[0]);
      SpentStep(s, steps[0], a);
      SpentNeverLaunches(Apply(s, steps[0]), steps[1..], a);
    }
  }

  /** Recovery makes no permit: an attempt admitted before a crash and not launched by then never is. */
  lemma RecoveryGrantsNothing(before: seq<Step>, steps: seq<Step>, a: nat)
    requires Follows(EMPTY, before) && a in Run(EMPTY, before).attempts
    requires Follows(Apply(Run(EMPTY, before), Crash), steps)
    ensures
      Launched(a) in Run(Apply(Run(EMPTY, before), Crash), steps).history <==> Launched(a) in Run(EMPTY, before).history
  {
    hide Valid;
    EmptyValid();
    RunKeepsValid(EMPTY, before);
    var s := Run(EMPTY, before);
    StepKeepsValid(s, Crash);
    SpentNeverLaunches(Apply(s, Crash), steps, a);
  }

  lemma StepExtends(s: State, step: Step)
    ensures s.history <= Apply(s, step).history
  {}

  lemma {:induction false} RunExtends(s: State, steps: seq<Step>)
    ensures s.history <= Run(s, steps).history
    decreases |steps|
  {
    hide Apply;
    if steps != [] {
      StepExtends(s, steps[0]);
      RunExtends(Apply(s, steps[0]), steps[1..]);
    }
  }

  /** The slot may dispatch its attempt. */
  predicate MayLaunch(s: State) {
    s.slot.occupied && s.slot.permit && !s.slot.live
  }

  /** A permit launches at most once: what it launches was never launched before, and is launched once in any run from there. */
  lemma PermitLaunchesOnce(before: seq<Step>, after: seq<Step>)
    requires Follows(EMPTY, before) && MayLaunch(Run(EMPTY, before))
    requires Follows(Apply(Run(EMPTY, before), Launch), after)
    ensures
      var s := Run(EMPTY, before);
      var h := Run(Apply(s, Launch), after).history;
      && Launched(s.slot.attempt) !in s.history
      && forall i :: 0 <= i < |h| ==> (h[i] == Launched(s.slot.attempt) <==> i == |s.history|)
  {
    hide Valid;
    EmptyValid();
    RunKeepsValid(EMPTY, before);
    var s := Run(EMPTY, before);
    var t := Apply(s, Launch);
    StepKeepsValid(s, Launch);
    RunKeepsValid(t, after);
    RunExtends(t, after);
    FreshLaunch(s);
    OnlyAt(Run(t, after), |s.history|, Launched(s.slot.attempt));
  }

  lemma FreshLaunch(s: State)
    requires Valid(s) && MayLaunch(s)
    ensures Launched(s.slot.attempt) !in s.history
    ensures Apply(s, Launch).history == s.history + [Launched(s.slot.attempt)]
  {}

  lemma OnlyAt(s: State, k: nat, m: Mark)
    requires Valid(s) && k < |s.history| && s.history[k] == m
    ensures forall i :: 0 <= i < |s.history| ==> (s.history[i] == m <==> i == k)
  {}

  /** The slot's child is live all along the run. */
  ghost predicate StaysLive(s: State, steps: seq<Step>)
    decreases |steps|
  {
    s.slot.live && (steps != [] ==> StaysLive(Apply(s, steps[0]), steps[1..]))
  }

  lemma LiveStep(s: State, step: Step)
    requires Valid(s) && Enabled(s, step) && s.slot.live && Apply(s, step).slot.live
    ensures Apply(s, step).slot == s.slot && Apply(s, step).child == s.child == Event(s.slot.attempt, s.slot.generation)
  {
    hide OkHistory;
  }

  lemma {:induction false} LiveRun(s: State, steps: seq<Step>)
    requires Valid(s) && Follows(s, steps) && StaysLive(s, steps)
    ensures Run(s, steps).slot == s.slot && Run(s, steps).child == s.child == Event(s.slot.attempt, s.slot.generation)
    decreases |steps|
  {
    hide Apply, Enabled, OkHistory;
    if steps != [] {
      LiveStep(s, steps[0]);
      StepKeepsValid(s, steps[0]);
      LiveRun(Apply(s, steps[0]), steps[1..]);
    }
  }

  /** For as long as a child is live, its slot is not reused: it keeps its attempt and generation, whatever is resolved, reserved or reported. */
  lemma LiveSlotKept(before: seq<Step>, steps: seq<Step>)
    requires Follows(EMPTY, before) && Follows(Run(EMPTY, before), steps) && StaysLive(Run(EMPTY, before), steps)
    ensures
      var s, e := Run(EMPTY, before), Run(Run(EMPTY, before), steps);
      e.slot == s.slot && e.child == s.child == Event(s.slot.attempt, s.slot.generation)
  {
    hide Valid;
    EmptyValid();
    RunKeepsValid(EMPTY, before);
    LiveRun(Run(EMPTY, before), steps);
  }

  /** The slot still is the one that launched the event's attempt, which is neither resolved nor complete. */
  ghost predicate StillFor(s: State, e: Event) {
    && s.slot.occupied && s.slot.attempt == e.attempt && s.slot.generation == e.generation
    && Resolved(e.attempt) !in s.history && Completed(e.attempt) !in s.history
  }

  /** An event settles its own attempt or nothing: exactly when the slot still is the one that was launched for it. */
  lemma EventSettlesOwn(steps: seq<Step>, e: Event)
    requires Follows(EMPTY, steps) && e in Run(EMPTY, steps).events
    ensures
      var s := Run(EMPTY, steps);
      var t := Apply(s, Settle(e));
      && Launched(e.attempt) in s.history
      && (t != s <==> StillFor(s, e))
      && (t != s ==> t == s.(completions := s.completions + {e.attempt}, history := s.history + [Completed(e.attempt)]))
      && t.attempts == s.attempts && t.resolutions == s.resolutions && t.slot == s.slot
  {
    hide OkHistory;
    EmptyValid();
    RunKeepsValid(EMPTY, steps);
    var s := Run(EMPTY, steps);
    if Settles(s, e) {
      LaunchedAdmitted(s, e.attempt);
    }
  }

  lemma LaunchedAdmitted(s: State, a: nat)
    requires Valid(s) && Launched(a) in s.history
    ensures a in s.attempts
  {
    var j: nat :| j < |s.history| && s.history[j] == Launched(a);
    assert Admitted(a) in s.history[..j];
  }
}
