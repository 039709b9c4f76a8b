/**
 * The evaluation generations of generation_model.py: bound calls, immutable results, and a run
 * whose generations each see one fixed view, publish what they still wait for, and are fenced
 * by their number when a crash or a recovery replaces them.
 *
 * Generations are numbered from one without gaps, so `newest` stands for their table. `seen`
 * remembers every view that was ever admitted, which the process forgets in a crash; `renewals`
 * counts the normal admissions that followed a publication.
 */
module Generations {
  import opened Bytes

  type Key = string
  type View = map<Key, string>

  datatype Binding = Binding(kind: string, input: string, owner: string)

  datatype Tables = Tables(
    active: Option<nat>, published: Option<nat>, cancelled: bool, terminal: bool, newest: nat,
    owners: map<string, Option<string>>, bindings: map<Key, Binding>, pending: set<Key>,
    views: map<nat, View>, seen: map<nat, View>, renewals: nat)

  const EMPTY: Tables := Tables(None, None, false, false, 0, map[], map[], {}, map[], map[], 0)

  datatype Step =
    | AddOwner(name: string, first: Option<string>)
    | Bind(key: Key, binding: Binding)
    | Finish(name: string, result: string)
    | Admit(fail: bool, recovering: bool)
    | Publish(g: nat, keys: seq<Key>)
    | Cancel
    | Terminate
    | Crash

  // ---------------------------------------------------------------- queries

  function ResultOf(s: Tables, key: Key): Option<string> {
    if key in s.bindings && s.bindings[key].owner in s.owners then s.owners[s.bindings[key].owner] else None
  }

  /** The bound calls that have a result, each with its result. */
  function Visible(s: Tables): View {
    map key | key in s.bindings && ResultOf(s, key).Some? :: ResultOf(s, key).value
  }

  predicate Eligible(s: Tables) {
    && !s.cancelled && !s.terminal && s.active.None?
    && (s.published.None? || exists key :: key in s.pending && ResultOf(s, key).Some?)
  }

  predicate Disjoint(keys: seq<Key>, view: View) {
    forall i :: 0 <= i < |keys| ==> keys[i] !in view
  }

  function Elements(keys: seq<Key>): set<Key> {
    set i | 0 <= i < |keys| :: keys[i]
  }

  // ---------------------------------------------------------------- what each operation demands and does

  predicate Allowed(s: Tables, step: Step) {
    match step
    case AddOwner(name, _) => name !in s.owners
    case Bind(key, binding) =>
      && s.active.Some? && !s.cancelled
      && (if key in s.bindings then s.bindings[key] == binding else binding.owner in s.owners)
    case Finish(name, result) => name in s.owners && (s.owners[name].None? || s.owners[name] == Some(result))
    case Admit(fail, recovering) =>
      !fail && !s.cancelled && !s.terminal && ((recovering && s.active.Some?) || Eligible(s))
    case Publish(g, keys) =>
      && s.active == Some(g) && !s.cancelled && g in s.views
      && Disjoint(keys, s.views[g]) && Distinct(keys) && forall i :: 0 <= i < |keys| ==> keys[i] in s.bindings
    case _ => true
  }

  /** The effect of an operation; a refused one is rolled back. */
  function Apply(s: Tables, step: Step): Tables {
    if !Allowed(s, step) then s
    else
      match step
      case AddOwner(name, first) => s.(owners := s.owners[name := first])
      case Bind(key, binding) => s.(bindings := s.bindings[key := binding])
      case Finish(name, result) => s.(owners := s.owners[name := Some(result)])
      case Admit(_, _) =>
        var g, view := s.newest + 1, Visible(s);
        s.(active := Some(g), newest := g, views := s.views[g := view], seen := s.seen[g := view],
           renewals := if s.active.None? && s.published.Some? then s.renewals + 1 else s.renewals)
      case Publish(g, keys) => s.(published := Some(g), active := None, pending := Elements(keys))
      case Cancel => s.(cancelled := true)
      case Terminate => s.(terminal := true)
      case Crash => s.(views := map[])
  }

  function Run(s: Tables, steps: seq<Step>): Tables
    decreases |steps|
  {
    if steps == [] then s else Run(Apply(s, steps[0]), steps[1..])
  }

  // ---------------------------------------------------------------- the tables in place

  class Model {
    var active: Option<nat>
    var published: Option<nat>
    var cancelled: bool
    var terminal: bool
    var newest: nat
    var owners: map<string, Option<string>>
    var bindings: map<Key, Binding>
    var pending: set<Key>
    var views: map<nat, View>
    ghost var seen: map<nat, View>
    ghost var renewals: nat

    ghost function Now(): Tables
      reads this
    {
      Tables(active, published, cancelled, terminal, newest, owners, bindings, pending, views, seen, renewals)
    }

    constructor ()
      ensures Now() == EMPTY
    {
      active, published, cancelled, terminal, newest := None, None, false, false, 0;
      owners, bindings, pending, views := map[], map[], {}, map[];
      seen, renewals := map[], 0;
    }

    method InsertOwner(name: string, first: Option<string>) returns (ok: bool)
      modifies this
      ensures ok == Allowed(old(Now()), AddOwner(name, first)) && Now() == Apply(old(Now()), AddOwner(name, first))
      ensures ok <==> name !in old(owners)
      ensures Now() == if ok then old(Now()).(owners := old(owners)[name := first]) else old(Now())
    {
      if name in owners {
        return false;
      }
      owners := owners[name := first];
      ok := true;
    }

    method BindCall(key: Key, binding: Binding) returns (ok: bool)
      modifies this
      ensures ok == Allowed(old(Now()), Bind(key, binding)) && Now() == Apply(old(Now()), Bind(key, binding))
      ensures ok <==>
        && old(active).Some? && !old(cancelled)
        && (key in old(bindings) ==> old(bindings)[key] == binding)
        && (key !in old(bindings) ==> binding.owner in old(owners))
      ensures Now() == if ok then old(Now()).(bindings := old(bindings)[key := binding]) else old(Now())
    {
      if active.None? || cancelled {
        return false;
      }
      if key in bindings {
        return bindings[key] == binding;
      }
      if binding.owner !in owners {
        return false;
      }
      bindings := bindings[key := binding];
      ok := true;
    }

    method FinishOwner(name: string, result: string) returns (ok: bool)
      modifies this
      ensures ok == Allowed(old(Now()), Finish(name, result)) && Now() == Apply(old(Now()), Finish(name, result))
      ensures ok <==> name in old(owners) && (old(owners)[name].Some? ==> old(owners)[name].value == result)
      ensures Now() == if ok then old(Now()).(owners := old(owners)[name := Some(result)]) else old(Now())
    {
      if name !in owners || (owners[name].Some? && owners[name] != Some(result)) {
        return false;
      }
      owners := owners[name := Some(result)];
      ok := true;
    }

    /** One transaction: an injected failure after the insertions leaves no trace of them. */
    method AdmitGeneration(fail: bool, recovering: bool) returns (g: Option<nat>)
      modifies this
      ensures g.Some? <==> Allowed(old(Now()), Admit(fail, recovering))
      ensures Now() == Apply(old(Now()), Admit(fail, recovering))
      ensures g.Some? <==>
        && !fail && !old(cancelled) && !old(terminal)
        && ((recovering && old(active).Some?)
            || (old(active).None? && (old(published).None? || exists key :: key in old(pending) && ResultOf(old(Now()), key).Some?)))
      ensures g.Some? ==> g == Some(old(newest) + 1) && g.value in views && Shows(old(Now()), views[g.value])
      ensures g.Some? ==>
        Now() == old(Now()).(active := g, newest := g.value, views := old(views)[g.value := views[g.value]],
             seen := seen, renewals := renewals)
      ensures g.None? ==> Now() == old(Now())
    {
      hide Visible, Capture, Shows, Allowed, Apply, ResultOf, ResultFor;
      VisibleShows(Now());
      AdmitPlain(Now(), fail, recovering);
      var before := (newest, active);
      SameRows(Now());
      if cancelled || terminal {
        return None;
      }
      if !(recovering && active.Some?) && !(active.None? && CanStart()) {
        return None;
      }
      ghost var renewed := active.None? && published.Some?;
      newest := newest + 1;
      var view := Capture();
      active := Some(newest);
      if fail {
        newest, active := before.0, before.1;
        return None;
      }
      views, seen := views[newest := view], seen[newest := view];
      renewals := if renewed then renewals + 1 else renewals;
      g := Some(newest);
    }

    function Capture(): (view: View)
      reads this
      ensures view == Visible(Now())
    {
      assert forall key :: ResultFor(key) == ResultOf(Now(), key);
      map key | key in bindings && ResultFor(key).Some? :: ResultFor(key).value
    }

    function ResultFor(key: Key): Option<string>
      reads this
    {
      if key in bindings && bindings[key].owner in owners then owners[bindings[key].owner] else None
    }

    predicate CanStart(): (can: bool)
      reads this
      ensures can <==> published.None? || exists key :: key in pending && ResultOf(Now(), key).Some?
    {
      assert forall key :: ResultFor(key) == ResultOf(Now(), key);
      published.None? || exists key :: key in pending && ResultFor(key).Some?
    }

    /** One transaction: the old pending keys are replaced by the new ones, or nothing changes. */
    method PublishGeneration(g: nat, keys: seq<Key>) returns (ok: bool)
      modifies this
      ensures ok == Allowed(old(Now()), Publish(g, keys)) && Now() == Apply(old(Now()), Publish(g, keys))
      ensures ok <==>
        && old(active) == Some(g) && !old(cancelled) && g in old(views)
        && (forall i :: 0 <= i < |keys| ==> keys[i] !in old(views)[g] && keys[i] in old(bindings))
        && (forall i, j :: 0 <= i < j < |keys| ==> keys[i] != keys[j])
      ensures ok ==> Now() == old(Now()).(published := Some(g), active := None, pending := pending)
      ensures ok ==> forall key :: key in pending <==> key in keys
      ensures !ok ==> Now() == old(Now())
    {
      if active != Some(g) || cancelled || g !in views || !Disjoint(keys, views[g]) {
        return false;
      }
      var saved := pending;
      pending := {};
      for i := 0 to |keys|
        invariant pending == Elements(keys[..i]) && saved == old(pending)
        invariant Distinct(keys[..i]) && forall j :: 0 <= j < i ==> keys[j] in bindings
        invariant Now() == old(Now()).(pending := pending)
      {
        ElementsMore(keys, i);
        if keys[i] !in bindings || keys[i] in pending {
          pending := saved;
          return false;
        }
        pending := pending + {keys[i]};
      }
      assert keys[..|keys|] == keys;
      published, active := Some(g), None;
      ok := true;
    }

    method Restart()
      modifies this
      ensures Now() == Apply(old(Now()), Crash)
    {
      views := map[];
    }
  }

  /** The view holds exactly the bound calls whose owner has a result, each with that result. */
  ghost predicate Shows(s: Tables, view: View) {
    && (forall key :: key in view <==>
          key in s.bindings && s.bindings[key].owner in s.owners && s.owners[s.bindings[key].owner].Some?)
    && (forall key :: key in view ==> s.owners[s.bindings[key].owner] == Some(view[key]))
  }

  /** The admission in plain terms. */
  lemma AdmitPlain(s: Tables, fail: bool, recovering: bool)
    ensures Allowed(s, Admit(fail, recovering)) <==>
      && !fail && !s.cancelled && !s.terminal
      && ((recovering && s.active.Some?)
          || (s.active.None? && (s.published.None? || exists key :: key in s.pending && ResultOf(s, key).Some?)))
    ensures Apply(s, Admit(fail, recovering)) ==
      if !Allowed(s, Admit(fail, recovering)) then s
      else
        s.(active := Some(s.newest + 1), newest := s.newest + 1, views := s.views[s.newest + 1 := Visible(s)],
           seen := s.seen[s.newest + 1 := Visible(s)],
           renewals := if s.active.None? && s.published.Some? then s.renewals + 1 else s.renewals)
  {
    hide Visible, ResultOf;
  }

  lemma VisibleShows(s: Tables)
    ensures Shows(s, Visible(s))
  {}

  /** The view depends on the calls and the results alone. */
  lemma SameRows(s: Tables)
    ensures forall t: Tables :: t.bindings == s.bindings && t.owners == s.owners ==> Visible(t) == Visible(s)
  {
    forall t: Tables | t.bindings == s.bindings && t.owners == s.owners ensures Visible(t) == Visible(s) {
      SameVisible(s, t);
    }
  }

  lemma ElementsMore(keys: seq<Key>, i: nat)
    requires i < |keys|
    ensures Elements(keys[..i + 1]) == Elements(keys[..i]) + {keys[i]}
    ensures Distinct(keys[..i]) && keys[i] !in Elements(keys[..i]) ==> Distinct(keys[..i + 1])
    ensures keys[i] in Elements(keys[..i]) ==> !Distinct(keys)
  {
    var more := keys[..i + 1];
    assert forall j :: 0 <= j < i ==> more[j] == keys[..i][j];
    if keys[i] in Elements(keys[..i]) {
      var j :| 0 <= j < i && keys[..i][j] == keys[i];
      assert keys[j] == keys[i];
    }
  }

  // ---------------------------------------------------------------- the invariant

  /** Every call and result of one view is in the other. */
  ghost predicate Within(a: View, b: View) {
    forall key :: key in a ==> key in b && b[key] == a[key]
  }

  ghost predicate Valid(s: Tables) {
    && (forall g :: g in s.seen <==> 1 <= g <= s.newest)
    && (forall g :: g in s.views ==> g in s.seen && s.views[g] == s.seen[g])
    && (forall g :: g in s.seen ==> Within(s.seen[g], Visible(s)))
    && (s.active.Some? ==> s.active.value == s.newest > 0)
    && (s.published.Some? ==> s.published.value in s.seen)
    && (s.published.Some? ==> forall key :: key in s.pending ==> key !in s.seen[s.published.value])
    && (s.published.Some? && s.active.Some? ==> s.published.value < s.active.value)
    && (forall key :: key in s.pending ==> key in s.bindings)
    && (s.active.Some? ==> s.renewals <= |s.seen[s.active.value]|)
    && (s.active.None? && s.published.Some? ==> s.renewals <= |s.seen[s.published.value]|)
    && (s.published.None? ==> s.renewals == 0)
  }

  lemma WithinSize(a: View, b: View)
    requires Within(a, b)
    ensures |a| <= |b|
    ensures (exists key :: key in b && key !in a) ==> |a| < |b|
  {
    assert a.Keys <= b.Keys;
    SubsetSize(a.Keys, b.Keys);
    if key :| key in b && key !in a {
      SubsetSize(a.Keys, b.Keys - {key});
    }
  }

  lemma {:induction false} SubsetSize<T>(a: set<T>, b: set<T>)
    requires a <= b
    ensures |a| <= |b|
  {
    if x :| x in a {
      SubsetSize(a - {x}, b - {x});
    }
  }

  /** Results never change and bindings are never removed, so what was visible stays visible. */
  lemma VisibleGrows(s: Tables, step: Step)
    ensures Within(Visible(s), Visible(Apply(s, step)))
    ensures s.bindings.Keys <= Apply(s, step).bindings.Keys
  {}

  lemma WithinTrans(a: View, b: View, c: View)
    requires Within(a, b) && Within(b, c)
    ensures Within(a, c)
  {}

  /** A normal admission after a publication sees everything the publication's view had, and a pending call besides. */
  lemma AdmissionGrows(s: Tables)
    requires Valid(s) && Eligible(s) && s.published.Some?
    ensures Within(s.seen[s.published.value], Visible(s)) && |s.seen[s.published.value]| < |Visible(s)|
  {
    var key :| key in s.pending && ResultOf(s, key).Some?;
    assert key in Visible(s);
    WithinSize(s.seen[s.published.value], Visible(s));
  }

  lemma AdmitKeepsValid(s: Tables, step: Step)
    requires Valid(s) && step.Admit? && Allowed(s, step)
    ensures Valid(Apply(s, step))
  {
    hide Eligible, Visible, ResultOf, Within;
    var s' := Apply(s, step);
    SameVisible(s, s');
    WithinSelf(Visible(s));
    RenewalCounted(s, step);
  }

  lemma WithinSelf(a: View)
    ensures Within(a, a)
  {}

  lemma SameVisible(s: Tables, s': Tables)
    requires s'.bindings == s.bindings && s'.owners == s.owners
    ensures Visible(s') == Visible(s)
  {}

  lemma RenewalCounted(s: Tables, step: Step)
    requires Valid(s) && step.Admit? && Allowed(s, step)
    ensures Apply(s, step).renewals <= |Visible(s)|
  {
    if s.active.Some? {
      WithinSize(s.seen[s.active.value], Visible(s));
    } else if s.published.Some? {
      AdmissionGrows(s);
    }
  }

  lemma PublishKeepsValid(s: Tables, step: Step)
    requires Valid(s) && step.Publish? && Allowed(s, step)
    ensures Valid(Apply(s, step))
  {
    assert Visible(Apply(s, step)) == Visible(s);
  }

  lemma StepKeepsValid(s: Tables, step: Step)
    requires Valid(s)
    ensures Valid(Apply(s, step))
  {
    if !Allowed(s, step) {
    } else if step.Admit? {
      AdmitKeepsValid(s, step);
    } else if step.Publish? {
      PublishKeepsValid(s, step);
    } else {
      VisibleGrows(s, step);
      forall g | g in s.seen ensures Within(s.seen[g], Visible(Apply(s, step))) {
        WithinTrans(s.seen[g], Visible(s), Visible(Apply(s, step)));
      }
    }
  }

  lemma EmptyValid()
    ensures Valid(EMPTY)
  {}

  lemma {:induction false} RunKeepsValid(s: Tables, steps: seq<Step>)
    requires Valid(s)
    ensures Valid(Run(s, steps))
    decreases |steps|
  {
    hide Valid, Apply;
    if steps != [] {
      StepKeepsValid(s, steps[0]);
      RunKeepsValid(Apply(s, steps[0]), steps[1..]);
    }
  }

  // ---------------------------------------------------------------- what every run guarantees

  /** In every run, a normal admission after a publication sees strictly more than the publication before it saw. */
  lemma NormalAdmissionGrows(steps: seq<Step>, recovering: bool)
    requires var s := Run(EMPTY, steps);
      s.active.None? && s.published.Some? && Allowed(s, Admit(false, recovering))
    ensures
      var s := Run(EMPTY, steps);
      var t := Apply(s, Admit(false, recovering));
      && s.published.value in s.seen && t.active.Some? && t.active.value in t.seen
      && Within(s.seen[s.published.value], t.seen[t.active.value])
      && |s.seen[s.published.value]| < |t.seen[t.active.value]|
  {
    EmptyValid();
    RunKeepsValid(EMPTY, steps);
    AdmissionGrows(Run(EMPTY, steps));
  }

  /** So a run is re-evaluated no more often than it has bound calls, however often it crashes and recovers. */
  lemma RenewalsBounded(steps: seq<Step>)
    ensures Run(EMPTY, steps).renewals <= |Run(EMPTY, steps).bindings|
  {
    EmptyValid();
    RunKeepsValid(EMPTY, steps);
    var s := Run(EMPTY, steps);
    if s.published.Some? {
      var g := if s.active.Some? then s.active.value else s.published.value;
      WithinSize(s.seen[g], Visible(s));
      SubsetSize(Visible(s).Keys, s.bindings.Keys);
    }
  }

  /** One step neither changes an old view, nor brings back a generation that is not active or whose view is gone. */
  lemma StepFixes(s: Tables, step: Step, g: nat)
    requires Valid(s) && g <= s.newest
    ensures
      var t := Apply(s, step);
      && s.newest <= t.newest
      && (g in s.seen ==> g in t.seen && t.seen[g] == s.seen[g])
      && (s.active != Some(g) ==> t.active != Some(g))
      && (g !in s.views ==> g !in t.views)
  {
    hide Eligible, Visible, ResultOf, Within;
  }

  /** A generation's view is fixed: whatever is bound or finished later, it is what its admission captured. */
  lemma {:induction false} ViewsFixed(s: Tables, steps: seq<Step>, g: nat)
    requires Valid(s) && g in s.seen
    ensures g in Run(s, steps).seen && Run(s, steps).seen[g] == s.seen[g]
    ensures g in Run(s, steps).views ==> Run(s, steps).views[g] == s.seen[g]
    decreases |steps|
  {
    hide Apply;
    if steps != [] {
      StepKeepsValid(s, steps[0]);
      StepFixes(s, steps[0], g);
      ViewsFixed(Apply(s, steps[0]), steps[1..], g);
    }
  }

  /** A generation that was replaced, published or never became active again can publish in no later state. */
  lemma {:induction false} ReplacedNeverPublishes(s: Tables, steps: seq<Step>, g: nat, keys: seq<Key>)
    requires Valid(s) && g <= s.newest && s.active != Some(g)
    ensures !Allowed(Run(s, steps), Publish(g, keys))
    decreases |steps|
  {
    hide Apply, Valid;
    if steps != [] {
      StepKeepsValid(s, steps[0]);
      StepFixes(s, steps[0], g);
      ReplacedNeverPublishes(Apply(s, steps[0]), steps[1..], g, keys);
    }
  }

  /** A cancelled run publishes nothing and admits nothing. */
  lemma {:induction false} CancelledStays(s: Tables, steps: seq<Step>, g: nat, keys: seq<Key>, fail: bool, recovering: bool)
    requires s.cancelled
    ensures !Allowed(Run(s, steps), Publish(g, keys)) && !Allowed(Run(s, steps), Admit(fail, recovering))
    decreases |steps|
  {
    if steps != [] {
      CancelledStays(Apply(s, steps[0]), steps[1..], g, keys, fail, recovering);
    }
  }

  /** A crash forgets the views: the interrupted generation cannot publish any more, only be replaced. */
  lemma InterruptedNeverPublishes(s: Tables, steps: seq<Step>, g: nat, keys: seq<Key>)
    requires Valid(s) && g <= s.newest
    ensures !Allowed(Run(Apply(s, Crash), steps), Publish(g, keys))
  {
    var t := Apply(s, Crash);
    StepKeepsValid(s, Crash);
    ForgottenStays(t, steps, g);
  }

  lemma {:induction false} ForgottenStays(s: Tables, steps: seq<Step>, g: nat)
    requires Valid(s) && g <= s.newest && g !in s.views
    ensures g !in Run(s, steps).views
    decreases |steps|
  {
    hide Apply, Valid;
    if steps != [] {
      StepKeepsValid(s, steps[0]);
      StepFixes(s, steps[0], g);
      ForgottenStays(Apply(s, steps[0]), steps[1..], g);
    }
  }

  /** Steps that neither start a generation nor end the run. */
  predicate Quiet(step: Step) {
    step.AddOwner? || step.Bind? || step.Finish? || step.Crash?
  }

  /**
   * No result finished for a call that is pending is lost: from the moment it is there the run stays
   * eligible until the next admission, and that admission's view has it.
   */
  lemma {:induction false} NoResultLost(s: Tables, steps: seq<Step>, key: Key)
    requires Valid(s) && s.active.None? && !s.cancelled && !s.terminal
    requires key in s.pending && ResultOf(s, key).Some?
    requires forall i :: 0 <= i < |steps| ==> Quiet(steps[i])
    ensures
      var e := Run(s, steps);
      var t := Apply(e, Admit(false, false));
      && Eligible(e) && t.active == Some(e.newest + 1)
      && key in t.seen[e.newest + 1] && t.seen[e.newest + 1][key] == ResultOf(s, key).value
    decreases |steps|
  {
    if steps != [] {
      StepKeepsValid(s, steps[0]);
      QuietStep(s, steps[0], key);
      NoResultLost(Apply(s, steps[0]), steps[1..], key);
    }
  }

  lemma QuietStep(s: Tables, step: Step, key: Key)
    requires s.active.None? && !s.cancelled && !s.terminal && Quiet(step)
    requires key in s.pending && ResultOf(s, key).Some?
    ensures
      var t := Apply(s, step);
      && t.active.None? && !t.cancelled && !t.terminal && key in t.pending && ResultOf(t, key) == ResultOf(s, key)
  {}

  /** After a publication the run is eligible exactly when a call it left pending already has its result: results considered do not start it again. */
  lemma PublicationCatches(s: Tables, g: nat, keys: seq<Key>)
    requires Valid(s) && Allowed(s, Publish(g, keys))
    ensures
      var due := exists i :: 0 <= i < |keys| && ResultOf(s, keys[i]).Some?;
      Eligible(Apply(s, Publish(g, keys))) == (!s.terminal && due)
  {
    var t := Apply(s, Publish(g, keys));
    if i :| 0 <= i < |keys| && ResultOf(s, keys[i]).Some? {
      assert keys[i] in t.pending && ResultOf(t, keys[i]).Some?;
    }
    if key :| key in t.pending && ResultOf(t, key).Some? {
      var i :| 0 <= i < |keys| && keys[i] == key;
      assert ResultOf(s, keys[i]).Some?;
    }
  }

  // ---------------------------------------------------------------- terminality does not fence publication

  const TERMINAL_RUN: seq<Step> := [Admit(false, false), Terminate]

  /** Unlike cancellation, a terminal run still lets its active generation publish; nothing is admitted after it. */
  lemma TerminalPublishes()
    ensures Run(EMPTY, TERMINAL_RUN).terminal && Allowed(Run(EMPTY, TERMINAL_RUN), Publish(1, []))
    ensures forall fail, recovering :: !Allowed(Run(EMPTY, TERMINAL_RUN), Admit(fail, recovering))
  {
    var s1 := Apply(EMPTY, TERMINAL_RUN[0]);
    var s2 := Apply(s1, TERMINAL_RUN[1]);
    assert TERMINAL_RUN[1..][1..] == [];
    assert Run(EMPTY, TERMINAL_RUN) == Run(s1, TERMINAL_RUN[1..]) == s2;
  }

  // ---------------------------------------------------------------- when a publication goes through

  /** The state before step `i` of a run. */
  function Before(steps: seq<Step>, i: nat): Tables
    requires i <= |steps|
  {
    Run(EMPTY, steps[..i])
  }

  /** The step ends the generation that was admitted before it: another takes its place, it publishes, or its process crashes. */
  predicate Replaces(s: Tables, step: Step) {
    step.Crash? || ((step.Admit? || step.Publish?) && Allowed(s, step))
  }

  /** Step `i` admitted generation `g`, and nothing has replaced it since. */
  ghost predicate LiveFrom(steps: seq<Step>, i: nat, g: nat) {
    && i < |steps| && steps[i].Admit? && Allowed(Before(steps, i), steps[i]) && g == Before(steps, i).newest + 1
    && forall j: nat :: i < j < |steps| ==> !Replaces(Before(steps, j), steps[j])
  }

  lemma {:induction false} RunMore(s: Tables, steps: seq<Step>, step: Step)
    ensures Run(s, steps + [step]) == Apply(Run(s, steps), step)
    decreases |steps|
  {
    hide Apply;
    if steps == [] {
      assert ([] + [step])[1..] == [];
    } else {
      assert (steps + [step])[1..] == steps[1..] + [step];
      RunMore(Apply(s, steps[0]), steps[1..], step);
    }
  }

  lemma BeforeMore(steps: seq<Step>, step: Step)
    ensures Before(steps + [step], |steps| + 1) == Apply(Before(steps, |steps|), step)
    ensures forall i :: 0 <= i <= |steps| ==> Before(steps + [step], i) == Before(steps, i)
  {
    hide Apply, Run;
    var more := steps + [step];
    assert more[..|steps| + 1] == more && steps[..|steps|] == steps;
    RunMore(EMPTY, steps, step);
    forall i | 0 <= i <= |steps| ensures Before(more, i) == Before(steps, i) {
      assert more[..i] == steps[..i];
    }
  }

  /** What the tables say of the live generation, against what the run did. */
  ghost predicate Tracks(steps: seq<Step>) {
    var s := Before(steps, |steps|);
    && (s.cancelled <==> Cancel in steps)
    && (s.active.Some? && s.active.value in s.views ==>
         exists i: nat :: i < |steps| && LiveFrom(steps, i, s.active.value) && s.views[s.active.value] == Visible(Before(steps, i)))
    && (forall i: nat, g: nat :: LiveFrom(steps, i, g) ==>
         s.active == Some(g) && g in s.views && s.views[g] == Visible(Before(steps, i)))
  }

  lemma LiveMore(steps: seq<Step>, step: Step, i: nat, g: nat)
    requires i < |steps|
    ensures LiveFrom(steps + [step], i, g) <==> LiveFrom(steps, i, g) && !Replaces(Before(steps, |steps|), step)
  {
    hide Before, Allowed, Replaces;
    var more := steps + [step];
    BeforeMore(steps, step);
    if LiveFrom(more, i, g) {
      assert more[|steps|] == step && !Replaces(Before(more, |steps|), more[|steps|]);
      forall j: nat | i < j < |steps| ensures !Replaces(Before(steps, j), steps[j]) {
        assert more[j] == steps[j] && !Replaces(Before(more, j), more[j]);
      }
    }
  }

  lemma LiveLast(steps: seq<Step>, step: Step, g: nat)
    ensures var s := Before(steps, |steps|);
      LiveFrom(steps + [step], |steps|, g) <==> step.Admit? && Allowed(s, step) && g == s.newest + 1
  {
    hide Before, Allowed, Replaces;
    BeforeMore(steps, step);
  }

  /** How one step changes the live generation's place in the tables. */
  lemma StepLive(s: Tables, step: Step)
    requires Valid(s)
    ensures
      var t := Apply(s, step);
      && (t.cancelled <==> s.cancelled || step == Cancel)
      && (!Replaces(s, step) ==> t.active == s.active && t.views == s.views)
      && (Replaces(s, step) && !step.Admit? ==> t.active.None? || t.views == map[])
      && (step.Admit? && Allowed(s, step) ==>
           t.active == Some(s.newest + 1) && s.newest + 1 in t.views && t.views[s.newest + 1] == Visible(s))
  {
    hide Visible, Eligible;
  }

  lemma {:induction false} RunTracks(steps: seq<Step>)
    ensures Tracks(steps)
    decreases |steps|
  {
    hide Apply, Allowed, Visible, Valid, Replaces, Before;
    if steps == [] {
      StartTracks();
    } else {
      var n := |steps| - 1;
      var front, step := steps[..n], steps[n];
      assert steps == front + [step];
      RunTracks(front);
      BeforeValid(front);
      StepTracks(front, step);
    }
  }

  lemma StartTracks()
    ensures Tracks([])
  {}

  lemma BeforeValid(steps: seq<Step>)
    ensures Valid(Before(steps, |steps|))
  {
    assert steps[..|steps|] == steps;
    EmptyValid();
    RunKeepsValid(EMPTY, steps);
  }

  lemma StepTracks(steps: seq<Step>, step: Step)
    requires Tracks(steps) && Valid(Before(steps, |steps|))
    ensures Tracks(steps + [step])
  {
    hide Apply, Visible, Valid, Allowed, Before, LiveFrom;
    var more, s := steps + [step], Before(steps, |steps|);
    var t := Apply(s, step);
    BeforeMore(steps, step);
    StepLive(s, step);
    assert Cancel in more <==> Cancel in steps || step == Cancel;
    LiveInside(more);
    LiveInside(steps);
    forall i: nat, g: nat | i < |more| && LiveFrom(more, i, g)
      ensures t.active == Some(g) && g in t.views && t.views[g] == Visible(Before(more, i))
    {
      if i < |steps| {
        LiveMore(steps, step, i, g);
      } else {
        LiveLast(steps, step, g);
      }
    }
    if t.active.Some? && t.active.value in t.views {
      var g := t.active.value;
      if Replaces(s, step) {
        LiveLast(steps, step, g);
        assert LiveFrom(more, |steps|, g);
      } else {
        var i: nat :| i < |steps| && LiveFrom(steps, i, g) && s.views[g] == Visible(Before(steps, i));
        LiveMore(steps, step, i, g);
        assert LiveFrom(more, i, g);
      }
    }
  }

  lemma LiveInside(steps: seq<Step>)
    ensures forall i: nat, g: nat :: LiveFrom(steps, i, g) ==> i < |steps|
  {}

  /** Distinct bound calls that the generation admitted at step `i` did not see. */
  ghost predicate Unseen(steps: seq<Step>, i: nat, keys: seq<Key>) {
    && i < |steps| && Disjoint(keys, Visible(Before(steps, i))) && Distinct(keys)
    && forall k :: 0 <= k < |keys| ==> keys[k] in Before(steps, |steps|).bindings
  }

  /**
   * When a publication goes through, in terms of the run: its generation was admitted and has not been replaced,
   * published or interrupted since, no one cancelled, and the keys are bound calls it did not see. Terminality is no part of it.
   */
  lemma PublishesExactly(steps: seq<Step>, g: nat, keys: seq<Key>)
    ensures
      Allowed(Before(steps, |steps|), Publish(g, keys)) ==
      (Cancel !in steps && exists i: nat :: LiveFrom(steps, i, g) && Unseen(steps, i, keys))
  {
    hide Visible, Before, LiveFrom;
    RunTracks(steps);
    LiveInside(steps);
    var s := Before(steps, |steps|);
    if Allowed(s, Publish(g, keys)) {
      var i: nat :| i < |steps| && LiveFrom(steps, i, g) && s.views[g] == Visible(Before(steps, i));
      assert Unseen(steps, i, keys);
    }
  }
}
