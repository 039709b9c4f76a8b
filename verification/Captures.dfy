/**
 * What a run of capture.c's queue does to each transfer, told from the run's steps: what it
 * accepted, what was written for it, and exactly when it fails or is paused.
 */
module Captures {
  import opened Bytes
  import opened CaptureQueue

  /** One transfer's own account: everything but the bytes in its file. */
  datatype Account = Account(body: Bytes, accepted: nat, written: nat, failed: bool, paused: bool, done: bool)

  function AccountOf(t: Transfer): Account {
    Account(t.body, t.accepted, t.written, t.failed, t.paused, t.done)
  }

  /** The step writes this many bytes for the transfer, with this outcome; unless the transfer failed before. */
  ghost predicate WritesFor(s: State, step: Step, i: nat, length: nat, outcome: Outcome) {
    || (step == PlaceDirect(outcome) && s.producer == Placing(i, length))
    || (step == WriteHeld(outcome) && s.consumer.Holding? && s.consumer.slot < |s.slots|
         && s.slots[s.consumer.slot].owner == i && |s.slots[s.consumer.slot].data| == length)
  }

  /** A write for the transfer breaks. */
  ghost predicate Breaks(s: State, step: Step, i: nat) {
    exists length, part :: WritesFor(s, step, i, length, Broken(part))
  }

  /** A callback of the transfer finds the ring full. */
  ghost predicate FindsFull(s: State, step: Step, i: nat) {
    step.Place? && s.producer.Placing? && s.producer.owner == i && s.count == |s.slots|
  }

  /** How many bytes the step accepts from the response. */
  function AcceptedBy(s: State, step: Step, i: nat, failed: bool): nat {
    if s.producer.Placing? && s.producer.owner == i
      && ((step.Place? && s.count < |s.slots|) || (step == PlaceDirect(Stored) && !failed))
    then s.producer.length else 0
  }

  /** How many bytes the step adds to the count of the written. */
  function WrittenBy(s: State, step: Step, i: nat, failed: bool): nat {
    if failed then 0
    else if step == PlaceDirect(Stored) && s.producer.Placing? && s.producer.owner == i then s.producer.length
    else if step == WriteHeld(Stored) && s.consumer.Holding? && s.consumer.slot < |s.slots|
      && s.slots[s.consumer.slot].owner == i then |s.slots[s.consumer.slot].data|
    else 0
  }

  /** The account after a step, from the step and the queue alone. */
  ghost function Booked(s: State, step: Step, i: nat, a: Account): Account {
    Account(a.body, a.accepted + AcceptedBy(s, step, i, a.failed), a.written + WrittenBy(s, step, i, a.failed),
      a.failed || Breaks(s, step, i), if step == Resume(i) then false else a.paused || FindsFull(s, step, i),
      a.done || step == Finish(i))
  }

  lemma StepBooks(s: State, step: Step, i: nat)
    requires Valid(s) && Enabled(s, step) && i < |s.transfers|
    ensures |Apply(s, step).transfers| == |s.transfers|
    ensures AccountOf(Apply(s, step).transfers[i]) == Booked(s, step, i, AccountOf(s.transfers[i]))
  {
    hide OkTransfer, OkChunks, Total, WrittenTotal, Of, Queue, SlotAt, Valid, Breaks;
    BreaksOnly(s, step, i);
    match step
    case Place => PlaceBooks(s, i);
    case PlaceDirect(outcome) => DirectBooks(s, i, outcome);
    case _ =>
  }

  lemma PlaceBooks(s: State, i: nat)
    requires Valid(s) && Enabled(s, Place) && i < |s.transfers|
    ensures |Apply(s, Place).transfers| == |s.transfers|
    ensures AccountOf(Apply(s, Place).transfers[i]) == Booked(s, Place, i, AccountOf(s.transfers[i]))
  {
    hide OkTransfer, OkChunks, Total, WrittenTotal, Of, Queue, Breaks;
    BreaksOnly(s, Place, i);
  }

  lemma DirectBooks(s: State, i: nat, outcome: Outcome)
    requires Valid(s) && Enabled(s, PlaceDirect(outcome)) && i < |s.transfers|
    ensures |Apply(s, PlaceDirect(outcome)).transfers| == |s.transfers|
    ensures AccountOf(Apply(s, PlaceDirect(outcome)).transfers[i]) == Booked(s, PlaceDirect(outcome), i, AccountOf(s.transfers[i]))
  {
    hide OkTransfer, OkChunks, Total, WrittenTotal, Of, Queue, Breaks;
    BreaksOnly(s, PlaceDirect(outcome), i);
  }

  /** Which steps break a transfer. */
  lemma BreaksOnly(s: State, step: Step, i: nat)
    ensures Breaks(s, step, i) <==>
      || (step.PlaceDirect? && step.outcome.Broken? && s.producer.Placing? && s.producer.owner == i)
      || (step.WriteHeld? && step.outcome.Broken? && s.consumer.Holding? && s.consumer.slot < |s.slots|
           && s.slots[s.consumer.slot].owner == i)
  {
    if step.PlaceDirect? && step.outcome.Broken? && s.producer.Placing? && s.producer.owner == i {
      assert WritesFor(s, step, i, s.producer.length, Broken(step.outcome.part));
    }
    if step.WriteHeld? && step.outcome.Broken? && s.consumer.Holding? && s.consumer.slot < |s.slots|
      && s.slots[s.consumer.slot].owner == i {
      assert WritesFor(s, step, i, |s.slots[s.consumer.slot].data|, Broken(step.outcome.part));
    }
  }

  // ---------------------------------------------------------------- whole runs

  ghost function RunBooks(s: State, steps: seq<Step>, i: nat, a: Account): Account
    requires Follows(s, steps)
    decreases |steps|
  {
    if steps == [] then a else RunBooks(Apply(s, steps[0]), steps[1..], i, Booked(s, steps[0], i, a))
  }

  lemma {:induction false} RunBooked(s: State, steps: seq<Step>, i: nat)
    requires Valid(s) && Follows(s, steps) && i < |s.transfers|
    ensures |Run(s, steps).transfers| == |s.transfers|
    ensures AccountOf(Run(s, steps).transfers[i]) == RunBooks(s, steps, i, AccountOf(s.transfers[i]))
    decreases |steps|
  {
    hide Valid, Enabled, Apply, Booked, AccountOf;
    if steps != [] {
      StepKeepsValid(s, steps[0]);
      StepBooks(s, steps[0], i);
      RunBooked(Apply(s, steps[0]), steps[1..], i);
    }
  }

  /** Over every run, a transfer's account is what the run's steps come to. */
  lemma AccountsExact(s: State, steps: seq<Step>, i: nat)
    requires Initial(s) && Follows(s, steps) && i < |s.transfers|
    ensures |Run(s, steps).transfers| == |s.transfers|
    ensures AccountOf(Run(s, steps).transfers[i]) == RunBooks(s, steps, i, Account(s.transfers[i].body, 0, 0, false, false, false))
  {
    InitialValid(s);
    RunBooked(s, steps, i);
  }

  /** Some write of the run for the transfer breaks. */
  ghost predicate BreaksIn(s: State, steps: seq<Step>, i: nat)
    requires Follows(s, steps)
    decreases |steps|
  {
    steps != [] && (Breaks(s, steps[0], i) || BreaksIn(Apply(s, steps[0]), steps[1..], i))
  }

  lemma {:induction false} BooksFailure(s: State, steps: seq<Step>, i: nat, a: Account)
    requires Follows(s, steps)
    ensures RunBooks(s, steps, i, a).failed <==> a.failed || BreaksIn(s, steps, i)
    ensures RunBooks(s, steps, i, a).body == a.body
    decreases |steps|
  {
    hide Enabled, Apply, Breaks;
    if steps != [] {
      BooksFailure(Apply(s, steps[0]), steps[1..], i, Booked(s, steps[0], i, a));
    }
  }

  /** Over every run, a transfer is failed exactly when a write of its own broke. */
  lemma FailedExactly(s: State, steps: seq<Step>, i: nat)
    requires Initial(s) && Follows(s, steps) && i < |s.transfers|
    ensures |Run(s, steps).transfers| == |s.transfers| && Run(s, steps).transfers[i].body == s.transfers[i].body
    ensures Run(s, steps).transfers[i].failed <==> BreaksIn(s, steps, i)
  {
    AccountsExact(s, steps, i);
    BooksFailure(s, steps, i, Account(s.transfers[i].body, 0, 0, false, false, false));
  }

  predicate GoesThrough(step: Step) {
    (step.PlaceDirect? || step.WriteHeld?) ==> step.outcome.Stored?
  }

  lemma {:induction false} NothingBreaks(s: State, steps: seq<Step>, i: nat)
    requires Follows(s, steps) && forall k :: 0 <= k < |steps| ==> GoesThrough(steps[k])
    ensures !BreaksIn(s, steps, i)
    decreases |steps|
  {
    hide Enabled, Apply;
    if steps != [] {
      NothingBreaks(Apply(s, steps[0]), steps[1..], i);
    }
  }

  /** A run whose writes all go through ends with every response whole in its file. */
  lemma WholeFiles(s: State, steps: seq<Step>)
    requires Initial(s) && Follows(s, steps) && Over(Run(s, steps))
    requires forall k :: 0 <= k < |steps| ==> GoesThrough(steps[k])
    ensures |Run(s, steps).transfers| == |s.transfers|
    ensures forall i :: 0 <= i < |s.transfers| ==>
      !Run(s, steps).transfers[i].failed && Run(s, steps).transfers[i].file == s.transfers[i].body
  {
    hide Run, Over;
    CaptureComplete(s, steps);
    SameTransfers(s, steps);
    forall i | 0 <= i < |s.transfers|
      ensures !Run(s, steps).transfers[i].failed && Run(s, steps).transfers[i].body == s.transfers[i].body
    {
      FailedExactly(s, steps, i);
      NothingBreaks(s, steps, i);
    }
  }

  lemma {:induction false} SameTransfers(s: State, steps: seq<Step>)
    requires Follows(s, steps)
    ensures |Run(s, steps).transfers| == |s.transfers|
    decreases |steps|
  {
    if steps != [] {
      SameTransfers(Apply(s, steps[0]), steps[1..]);
    }
  }
}
