/**
 * What the tables of generation_model.py hold after a run, told from the run's steps: which
 * results and bindings were recorded, which generation is active, and that a result finished
 * for a pending call reaches the next generation's view.
 */
module Dependencies {
  import opened Bytes
  import opened Generations

  // ---------------------------------------------------------------- owners and their results

  /** The owner was inserted by this step and by no earlier one. */
  ghost predicate Inserts(steps: seq<Step>, i: nat, name: string) {
    && i < |steps| && steps[i].AddOwner? && steps[i].name == name
    && forall j :: 0 <= j < i ==> !(steps[j].AddOwner? && steps[j].name == name)
  }

  predicate Finishes(step: Step, name: string) {
    step.Finish? && step.name == name
  }

  /** The first result the run gave an owner: when it was inserted, or else in the first finish after that. */
  ghost predicate FirstResult(steps: seq<Step>, name: string, r: string) {
    exists i: nat :: Inserts(steps, i, name) && (steps[i].first == Some(r) || (steps[i].first.None? && FinishedFrom(steps, i, name, r)))
  }

  ghost predicate FinishedFrom(steps: seq<Step>, i: nat, name: string, r: string) {
    exists j :: i < j < |steps| && steps[j] == Finish(name, r) && forall k :: i < k < j ==> !Finishes(steps[k], name)
  }

  ghost predicate Inserted(steps: seq<Step>, name: string) {
    exists i: nat :: Inserts(steps, i, name)
  }

  /** The owners' table against the steps. */
  ghost predicate OwnersMatch(steps: seq<Step>, owners: map<string, Option<string>>, name: string) {
    && (name in owners <==> Inserted(steps, name))
    && (name in owners ==> forall r :: owners[name] == Some(r) <==> FirstResult(steps, name, r))
  }

  lemma InsertsMore(steps: seq<Step>, step: Step, name: string)
    ensures forall i: nat :: i < |steps| ==> (Inserts(steps + [step], i, name) <==> Inserts(steps, i, name))
    ensures Inserts(steps + [step], |steps|, name) <==> step.AddOwner? && step.name == name && !Inserted(steps, name)
  {
    var more := steps + [step];
    assert forall j :: 0 <= j < |steps| ==> more[j] == steps[j];
    if step.AddOwner? && step.name == name && !Inserts(more, |steps|, name) {
      FirstInsert(steps, name);
    }
  }

  /** Of the steps that insert an owner, one is the first. */
  lemma {:induction false} FirstInsert(steps: seq<Step>, name: string)
    requires exists j :: 0 <= j < |steps| && steps[j].AddOwner? && steps[j].name == name
    ensures Inserted(steps, name)
    decreases |steps|
  {
    var n := |steps| - 1;
    var front := steps[..n];
    if exists j :: 0 <= j < n && front[j].AddOwner? && front[j].name == name {
      FirstInsert(front, name);
      var i: nat :| Inserts(front, i, name);
      assert Inserts(steps, i, name);
    } else {
      assert forall j :: 0 <= j < n ==> front[j] == steps[j];
      assert Inserts(steps, n, name);
    }
  }

  lemma FinishedStays(steps: seq<Step>, step: Step, i: nat, name: string, r: string)
    ensures FinishedFrom(steps, i, name, r) ==> FinishedFrom(steps + [step], i, name, r)
  {
    var more := steps + [step];
    assert forall j :: 0 <= j < |steps| ==> more[j] == steps[j];
    if FinishedFrom(steps, i, name, r) {
      var j :| i < j < |steps| && steps[j] == Finish(name, r) && forall k :: i < k < j ==> !Finishes(steps[k], name);
      assert more[j] == Finish(name, r) && forall k :: i < k < j ==> !Finishes(more[k], name);
    }
  }

  lemma FinishMeans(steps: seq<Step>, i: nat, name: string, r: string)
    ensures FinishedFrom(steps, i, name, r) ==> exists k :: i < k < |steps| && Finishes(steps[k], name)
  {}

  lemma FinishedMore(steps: seq<Step>, step: Step, i: nat, name: string, r: string)
    requires i < |steps|
    ensures FinishedFrom(steps + [step], i, name, r) <==>
      FinishedFrom(steps, i, name, r) || (step == Finish(name, r) && forall q :: !FinishedFrom(steps, i, name, q))
  {
    var more := steps + [step];
    assert forall j :: 0 <= j < |steps| ==> more[j] == steps[j];
    FinishedStays(steps, step, i, name, r);
    if FinishedFrom(more, i, name, r) {
      var j :| i < j < |more| && more[j] == Finish(name, r) && forall k :: i < k < j ==> !Finishes(more[k], name);
      if j == |steps| {
        assert forall k :: i < k < |steps| ==> !Finishes(more[k], name) && steps[k] == more[k];
        forall q ensures !FinishedFrom(steps, i, name, q) {
          FinishMeans(steps, i, name, q);
        }
      } else {
        assert steps[j] == Finish(name, r) && forall k :: i < k < j ==> !Finishes(steps[k], name);
      }
    }
    if step == Finish(name, r) && forall q :: !FinishedFrom(steps, i, name, q) {
      NoFinish(steps, i, name);
      assert more[|steps|] == Finish(name, r);
    }
  }

  /** If no finish is the first after the insertion, there is none. */
  lemma {:induction false} NoFinish(steps: seq<Step>, i: nat, name: string)
    requires i < |steps| && forall q :: !FinishedFrom(steps, i, name, q)
    ensures forall k :: i < k < |steps| ==> !Finishes(steps[k], name)
    decreases |steps|
  {
    var n := |steps| - 1;
    if i < n {
      var front := steps[..n];
      assert steps == front + [steps[n]];
      forall q ensures !FinishedFrom(front, i, name, q) {
        FinishedStays(front, steps[n], i, name, q);
      }
      NoFinish(front, i, name);
      if Finishes(steps[n], name) {
        assert FinishedFrom(steps, i, name, steps[n].result);
      }
    }
  }

  /** What one more step adds to what the run gave an owner. */
  lemma ResultMore(steps: seq<Step>, step: Step, name: string, r: string)
    ensures FirstResult(steps + [step], name, r) <==>
      || FirstResult(steps, name, r)
      || (Inserted(steps, name) && step == Finish(name, r) && forall q :: !FirstResult(steps, name, q))
      || (!Inserted(steps, name) && step == AddOwner(name, Some(r)))
  {
    hide Inserts, FinishedFrom;
    var more, n := steps + [step], |steps|;
    InsertsMore(steps, step, name);
    Inside(steps, name);
    Inside(more, name);
    NotAfterEnd(more, n, name);
    if i: nat :| Inserts(steps, i, name) {
      assert more[i] == steps[i];
      forall j: nat | Inserts(steps, j, name) ensures j == i {
        OneInsert(steps, i, j, name);
      }
      forall q ensures FirstResult(steps, name, q) <==> steps[i].first == Some(q) || (steps[i].first.None? && FinishedFrom(steps, i, name, q)) {}
      assert forall j: nat :: Inserts(more, j, name) <==> j == i;
      FinishedMore(steps, step, i, name, r);
      assert FirstResult(more, name, r) <==> more[i].first == Some(r) || (more[i].first.None? && FinishedFrom(more, i, name, r));
      if steps[i].first.Some? {
        assert FirstResult(steps, name, steps[i].first.value);
      }
    } else {
      assert !FirstResult(steps, name, r);
      assert more[n] == step;
    }
  }

  lemma Inside(steps: seq<Step>, name: string)
    ensures forall i: nat :: Inserts(steps, i, name) ==> i < |steps| && steps[i].AddOwner?
  {}

  lemma NotAfterEnd(steps: seq<Step>, n: nat, name: string)
    requires |steps| == n + 1
    ensures forall r :: !FinishedFrom(steps, n, name, r)
  {}

  lemma OneInsert(steps: seq<Step>, i: nat, j: nat, name: string)
    requires Inserts(steps, i, name) && Inserts(steps, j, name)
    ensures i == j
  {}

  /** Nothing is finished for an owner that was not inserted. */
  lemma NothingBefore(steps: seq<Step>, name: string)
    requires !Inserted(steps, name)
    ensures forall r :: !FirstResult(steps, name, r)
  {}

  lemma StepMatches(steps: seq<Step>, step: Step, s: Tables, name: string)
    requires OwnersMatch(steps, s.owners, name)
    ensures OwnersMatch(steps + [step], Apply(s, step).owners, name)
  {
    hide FirstResult, Inserts, Inserted;
    var more, t := steps + [step], Apply(s, step);
    InsertedMore(steps, step, name);
    OwnerStep(s, step, name);
    forall r ensures name in t.owners ==> (t.owners[name] == Some(r) <==> FirstResult(more, name, r)) {
      ResultMore(steps, step, name, r);
      if !Inserted(steps, name) {
        NothingBefore(steps, name);
      } else if s.owners[name].Some? {
        assert FirstResult(steps, name, s.owners[name].value);
      }
    }
  }

  lemma InsertedMore(steps: seq<Step>, step: Step, name: string)
    ensures Inserted(steps + [step], name) <==> Inserted(steps, name) || (step.AddOwner? && step.name == name)
  {
    hide Inserts;
    InsertsMore(steps, step, name);
    Inside(steps, name);
    Inside(steps + [step], name);
    if i: nat :| Inserts(steps, i, name) {
      assert Inserts(steps + [step], i, name);
    }
  }

  /** What one step does to an owner's row. */
  lemma OwnerStep(s: Tables, step: Step, name: string)
    ensures name in Apply(s, step).owners <==> name in s.owners || (step.AddOwner? && step.name == name)
    ensures name in Apply(s, step).owners ==>
      Apply(s, step).owners[name] ==
        (if name !in s.owners then step.first
         else if s.owners[name].None? && Finishes(step, name) then Some(step.result)
         else s.owners[name])
  {
    hide Visible, Eligible;
  }

  /** In every run: an owner is in the table exactly when it was inserted, with exactly the first result it was given. */
  lemma {:induction false} OwnersExact(steps: seq<Step>, name: string)
    ensures OwnersMatch(steps, Run(EMPTY, steps).owners, name)
    decreases |steps|
  {
    hide Apply, OwnersMatch;
    if steps == [] {
      NoOwners(name);
    } else {
      var n := |steps| - 1;
      assert steps == steps[..n] + [steps[n]];
      OwnersExact(steps[..n], name);
      RunMore(EMPTY, steps[..n], steps[n]);
      StepMatches(steps[..n], steps[n], Run(EMPTY, steps[..n]), name);
    }
  }

  lemma NoOwners(name: string)
    ensures OwnersMatch([], EMPTY.owners, name)
  {}

  // ---------------------------------------------------------------- bindings

  /** The step is accepted where it is taken. */
  ghost predicate Accepted(steps: seq<Step>, i: nat) {
    i < |steps| && Allowed(Before(steps, i), steps[i])
  }

  /** The step binds a call: an evaluation is active, no one cancelled, and the owner was inserted. */
  ghost predicate Binds(steps: seq<Step>, i: nat, key: Key, binding: Binding) {
    && i < |steps| && steps[i] == Bind(key, binding)
    && Before(steps, i).active.Some? && Cancel !in steps[..i] && Inserted(steps[..i], binding.owner)
  }

  /** The first binding the run gave a call. */
  ghost predicate FirstBinding(steps: seq<Step>, key: Key, binding: Binding) {
    exists i: nat :: Binds(steps, i, key, binding) && forall j: nat, other :: j < i ==> !Binds(steps, j, key, other)
  }

  lemma BindsMore(steps: seq<Step>, step: Step, i: nat, key: Key, binding: Binding)
    ensures i < |steps| ==> (Binds(steps + [step], i, key, binding) <==> Binds(steps, i, key, binding))
    ensures Binds(steps + [step], |steps|, key, binding) <==>
      && step == Bind(key, binding) && Before(steps, |steps|).active.Some?
      && Cancel !in steps && Inserted(steps, binding.owner)
  {
    hide Inserted, Before;
    var more := steps + [step];
    BeforeMore(steps, step);
    assert more[..|steps|] == steps;
    if i < |steps| {
      assert more[..i] == steps[..i] && more[i] == steps[i];
    }
  }

  lemma FirstBindingMore(steps: seq<Step>, step: Step, key: Key, binding: Binding)
    ensures FirstBinding(steps + [step], key, binding) <==>
      || FirstBinding(steps, key, binding)
      || (Binds(steps + [step], |steps|, key, binding) && forall i: nat, other :: i < |steps| ==> !Binds(steps, i, key, other))
  {
    hide Binds;
    var more := steps + [step];
    forall i: nat, other | i < |steps| ensures Binds(more, i, key, other) <==> Binds(steps, i, key, other) {
      BindsMore(steps, step, i, key, other);
    }
    BindsInside(steps, key);
    BindsInside(more, key);
  }

  lemma BindsInside(steps: seq<Step>, key: Key)
    ensures forall i: nat, binding :: Binds(steps, i, key, binding) ==> i < |steps| && steps[i] == Bind(key, binding)
  {}

  /** The bindings' table against the steps. */
  ghost predicate BindingsMatch(steps: seq<Step>, bindings: map<Key, Binding>, key: Key) {
    && (key in bindings <==> exists i: nat, binding :: Binds(steps, i, key, binding))
    && (key in bindings ==> forall binding :: bindings[key] == binding <==> FirstBinding(steps, key, binding))
  }

  /** What one step does to a call's binding. */
  lemma BindingStep(s: Tables, step: Step, key: Key)
    ensures
      var binds := step.Bind? && step.key == key && s.active.Some? && !s.cancelled && step.binding.owner in s.owners;
      && (key in s.bindings ==> key in Apply(s, step).bindings && Apply(s, step).bindings[key] == s.bindings[key])
      && (key !in s.bindings ==> (key in Apply(s, step).bindings <==> binds))
      && (key !in s.bindings && binds ==> Apply(s, step).bindings[key] == step.binding)
  {
    hide Visible, Eligible;
  }

  lemma {:induction false} BindingsExact(steps: seq<Step>, key: Key)
    ensures BindingsMatch(steps, Run(EMPTY, steps).bindings, key)
    decreases |steps|
  {
    hide Apply, Binds, FirstBinding;
    if steps == [] {
      BindsInside([], key);
    } else {
      var n := |steps| - 1;
      var front, step := steps[..n], steps[n];
      assert steps == front + [step] && front[..n] == front;
      BindingsExact(front, key);
      RunMore(EMPTY, front, step);
      RunTracks(front);
      BoundMore(front, step, Run(EMPTY, front), key);
    }
  }

  lemma BoundMore(steps: seq<Step>, step: Step, s: Tables, key: Key)
    requires BindingsMatch(steps, s.bindings, key) && s == Before(steps, |steps|) == Run(EMPTY, steps) && Tracks(steps)
    ensures BindingsMatch(steps + [step], Apply(s, step).bindings, key)
  {
    hide Apply, Binds, FirstBinding, Before, Run, Tracks;
    var more, t := steps + [step], Apply(s, step);
    Cancels(steps);
    BindingStep(s, step, key);
    BindsInside(steps, key);
    BindsInside(more, key);
    forall i: nat, binding
      ensures i < |steps| ==> (Binds(more, i, key, binding) <==> Binds(steps, i, key, binding))
      ensures Binds(more, |steps|, key, binding) <==>
        step == Bind(key, binding) && s.active.Some? && !s.cancelled && binding.owner in s.owners
    {
      BindsMore(steps, step, i, key, binding);
      OwnersExact(steps, binding.owner);
    }
    if key in s.bindings {
      var i: nat, binding :| Binds(steps, i, key, binding);
      assert Binds(more, i, key, binding);
    } else if key in t.bindings {
      assert Binds(more, |steps|, key, step.binding);
    } else {
      forall i: nat, binding ensures !Binds(more, i, key, binding) {
        assert !Binds(steps, i, key, binding);
      }
    }
    forall binding ensures key in t.bindings ==> (t.bindings[key] == binding <==> FirstBinding(more, key, binding)) {
      FirstBindingMore(steps, step, key, binding);
      FirstBound(steps, key, binding);
    }
  }

  lemma Cancels(steps: seq<Step>)
    requires Tracks(steps)
    ensures Before(steps, |steps|).cancelled <==> Cancel in steps
  {}

  lemma FirstBound(steps: seq<Step>, key: Key, binding: Binding)
    ensures FirstBinding(steps, key, binding) ==> exists i: nat :: Binds(steps, i, key, binding)
  {}

  // ---------------------------------------------------------------- generations

  ghost predicate Admission(steps: seq<Step>, i: nat) {
    Accepted(steps, i) && steps[i].Admit?
  }

  ghost predicate Publication(steps: seq<Step>, i: nat) {
    Accepted(steps, i) && steps[i].Publish?
  }

  /** The last admission, with no publication after it. */
  ghost predicate Working(steps: seq<Step>, i: nat) {
    Admission(steps, i) && forall j: nat :: i < j < |steps| ==> !Admission(steps, j) && !Publication(steps, j)
  }

  ghost predicate LastPublication(steps: seq<Step>, i: nat) {
    Publication(steps, i) && forall j: nat :: i < j < |steps| ==> !Publication(steps, j)
  }

  ghost function AdmissionsIn(steps: seq<Step>): nat
    decreases |steps|
  {
    if steps == [] then 0
    else AdmissionsIn(steps[..|steps| - 1]) + if Admission(steps, |steps| - 1) then 1 else 0
  }

  /** The admissions that are not recoveries and follow a publication. */
  ghost function RenewalsIn(steps: seq<Step>): nat
    decreases |steps|
  {
    if steps == [] then 0
    else
      var n := |steps| - 1;
      var s := Before(steps, n);
      RenewalsIn(steps[..n]) + if Admission(steps, n) && s.active.None? && s.published.Some? then 1 else 0
  }

  /** The generations' tables against the steps. */
  ghost predicate GenerationsMatch(steps: seq<Step>) {
    var s := Before(steps, |steps|);
    && (s.cancelled <==> Cancel in steps) && (s.terminal <==> Terminate in steps)
    && s.newest == AdmissionsIn(steps) && s.renewals == RenewalsIn(steps)
    && (s.active.Some? <==> exists i: nat :: Working(steps, i))
    && (forall i: nat :: Working(steps, i) ==> s.active == Some(AdmissionsIn(steps[..i]) + 1))
    && (s.published.Some? <==> exists i: nat :: LastPublication(steps, i))
    && (forall i: nat :: LastPublication(steps, i) ==>
         s.published == Some(steps[i].g) && forall key :: key in s.pending <==> key in steps[i].keys)
  }

  lemma AcceptedMore(steps: seq<Step>, step: Step, i: nat)
    ensures i < |steps| ==> (Accepted(steps + [step], i) <==> Accepted(steps, i)) && (steps + [step])[i] == steps[i]
    ensures Accepted(steps + [step], |steps|) <==> Allowed(Before(steps, |steps|), step)
    ensures (steps + [step])[|steps|] == step
  {
    hide Before, Allowed;
    BeforeMore(steps, step);
  }

  /** What one step does to the generations' tables. */
  lemma GenerationStep(s: Tables, step: Step)
    ensures
      var t, done := Apply(s, step), Allowed(s, step);
      && (t.terminal <==> s.terminal || step == Terminate)
      && (t.cancelled <==> s.cancelled || step == Cancel)
      && t.newest == s.newest + (if done && step.Admit? then 1 else 0)
      && t.renewals == s.renewals + (if done && step.Admit? && s.active.None? && s.published.Some? then 1 else 0)
      && t.active == (if done && step.Admit? then Some(s.newest + 1) else if done && step.Publish? then None else s.active)
      && t.published == (if done && step.Publish? then Some(step.g) else s.published)
      && (!(done && step.Publish?) ==> t.pending == s.pending)
      && (done && step.Publish? ==> forall key :: key in t.pending <==> key in step.keys)
  {
    hide Visible, Eligible;
  }

  lemma {:induction false} GenerationsExact(steps: seq<Step>)
    ensures GenerationsMatch(steps)
    decreases |steps|
  {
    hide Apply, Allowed, GenerationsMatch, Before;
    if steps == [] {
      NoGenerations();
    } else {
      var n := |steps| - 1;
      assert steps == steps[..n] + [steps[n]];
      GenerationsExact(steps[..n]);
      GenerationsMore(steps[..n], steps[n]);
    }
  }

  lemma NoGenerations()
    ensures GenerationsMatch([])
  {}

  lemma WorkingMore(steps: seq<Step>, step: Step, i: nat)
    ensures i < |steps| ==>
      (Working(steps + [step], i) <==>
        Working(steps, i) && !Admission(steps + [step], |steps|) && !Publication(steps + [step], |steps|))
    ensures Working(steps + [step], |steps|) <==> Admission(steps + [step], |steps|)
    ensures i < |steps| ==>
      (LastPublication(steps + [step], i) <==> LastPublication(steps, i) && !Publication(steps + [step], |steps|))
    ensures LastPublication(steps + [step], |steps|) <==> Publication(steps + [step], |steps|)
    ensures Working(steps, i) || LastPublication(steps, i) ==> i < |steps|
    ensures Working(steps + [step], i) || LastPublication(steps + [step], i) ==> i <= |steps|
  {
    hide Admission, Publication;
    var more := steps + [step];
    forall j: nat
      ensures j < |steps| ==> (Admission(more, j) <==> Admission(steps, j)) && (Publication(more, j) <==> Publication(steps, j))
      ensures Admission(steps, j) || Publication(steps, j) ==> j < |steps|
      ensures Admission(more, j) || Publication(more, j) ==> j <= |steps|
    {
      ChangeMore(steps, step, j);
    }
    if i < |steps| && Working(more, i) {
      assert !Admission(more, |steps|) && !Publication(more, |steps|);
      forall j: nat | i < j < |steps| ensures !Admission(steps, j) && !Publication(steps, j) {
        assert !Admission(more, j) && !Publication(more, j);
      }
    }
    if i < |steps| && LastPublication(more, i) {
      assert !Publication(more, |steps|);
      forall j: nat | i < j < |steps| ensures !Publication(steps, j) {
        assert !Publication(more, j);
      }
    }
  }

  lemma ChangeMore(steps: seq<Step>, step: Step, j: nat)
    ensures var more := steps + [step];
      j < |steps| ==> (Admission(more, j) <==> Admission(steps, j)) && (Publication(more, j) <==> Publication(steps, j))
    ensures Admission(steps, j) || Publication(steps, j) ==> j < |steps|
    ensures var more := steps + [step]; Admission(more, j) || Publication(more, j) ==> j <= |steps|
  {
    AcceptedMore(steps, step, j);
    AcceptedInside(steps);
    AcceptedInside(steps + [step]);
  }

  lemma AcceptedInside(steps: seq<Step>)
    ensures forall i: nat :: Accepted(steps, i) ==> i < |steps|
  {}

  lemma GenerationsMore(steps: seq<Step>, step: Step)
    requires GenerationsMatch(steps)
    ensures GenerationsMatch(steps + [step])
  {
    hide Apply, Allowed, Before, Working, LastPublication, Accepted;
    var more, s := steps + [step], Before(steps, |steps|);
    BeforeMore(steps, step);
    GenerationStep(s, step);
    AcceptedMore(steps, step, |steps|);
    assert more[..|steps|] == steps;
    forall i: nat
      ensures Working(more, i) ==> i <= |steps| && (i < |steps| ==> Working(steps, i) && more[..i] == steps[..i])
      ensures LastPublication(more, i) ==> i <= |steps| && (i < |steps| ==> LastPublication(steps, i) && more[i] == steps[i])
      ensures Working(steps, i) && !Admission(more, |steps|) && !Publication(more, |steps|) ==> Working(more, i)
      ensures LastPublication(steps, i) && !Publication(more, |steps|) ==> LastPublication(more, i)
      ensures i < |steps| && Working(more, i) ==> !Admission(more, |steps|) && !Publication(more, |steps|)
      ensures i < |steps| && LastPublication(more, i) ==> !Publication(more, |steps|)
    {
      WorkingMore(steps, step, i);
      if i < |steps| {
        assert more[..i] == steps[..i] && more[i] == steps[i];
      }
    }
    WorkingMore(steps, step, |steps|);
  }

  // ---------------------------------------------------------------- a finished dependency is seen

  /**
   * Finishing the owner of a pending call: whatever quiet steps follow, the run is eligible, and the
   * view of its next generation has the call with that result.
   */
  lemma FinishedIsSeen(steps: seq<Step>, key: Key, result: string, quiet: seq<Step>)
    requires var s := Run(EMPTY, steps);
      && s.active.None? && !s.cancelled && !s.terminal && key in s.pending
      && key in s.bindings && Allowed(s, Finish(s.bindings[key].owner, result))
    requires forall i :: 0 <= i < |quiet| ==> Quiet(quiet[i])
    ensures
      var s := Run(EMPTY, steps);
      var e := Run(Apply(s, Finish(s.bindings[key].owner, result)), quiet);
      var t := Apply(e, Admit(false, false));
      && Eligible(e) && t.active == Some(e.newest + 1)
      && e.newest + 1 in t.views && key in t.views[e.newest + 1] && t.views[e.newest + 1][key] == result
  {
    hide Eligible, Visible, Run, Apply, Allowed, Valid, ResultOf;
    var s := Run(EMPTY, steps);
    var finish := Finish(s.bindings[key].owner, result);
    EmptyValid();
    RunKeepsValid(EMPTY, steps);
    StepKeepsValid(s, finish);
    FinishGives(s, key, result);
    NoResultLost(Apply(s, finish), quiet, key);
    SeenIsView(Run(Apply(s, finish), quiet));
  }

  lemma FinishGives(s: Tables, key: Key, result: string)
    requires key in s.bindings && Allowed(s, Finish(s.bindings[key].owner, result))
    ensures
      var t := Apply(s, Finish(s.bindings[key].owner, result));
      && t.active == s.active && t.cancelled == s.cancelled && t.terminal == s.terminal && t.pending == s.pending
      && ResultOf(t, key) == Some(result)
  {}

  lemma SeenIsView(s: Tables)
    requires Eligible(s)
    ensures
      var t := Apply(s, Admit(false, false));
      s.newest + 1 in t.views && s.newest + 1 in t.seen && t.views[s.newest + 1] == t.seen[s.newest + 1]
  {
    hide Visible, ResultOf;
    AdmitPlain(s, false, false);
  }
}
