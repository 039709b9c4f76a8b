/**
 * `prepare` of streaming.py: the request written into bounded scratch, payload by payload,
 * and the exact condition under which it is sealed.
 */
module Prepare {
  import opened Bytes
  import opened Json
  import opened JsonValue
  import opened JsonCopy
  import opened History
  import opened Snapshots
  import opened Selection
  import opened Request
  import opened Streaming
  import opened Refinement
  import opened BuiltRequests

  /** A stored payload is JSON, as the copier requires of what it copies. */
  ghost predicate Parses(s: Store, body: nat) {
    body < |s.payloads| ==> Parse(s.payloads[body].body).Some?
  }

  ghost predicate AllParse(s: Store, bodies: seq<nat>) {
    forall i :: 0 <= i < |bodies| ==> Parses(s, bodies[i])
  }

  ghost predicate RecordParses(s: Store, cutoff: nat, c: Chosen) {
    if IsHostInput(c.entry.kind) then Parses(s, c.entry.key)
    else
      var bodies, answers := ModelOutput(s, cutoff, c.entry.key, c.anchored), ToolResults(s, cutoff, c.entry.key, c.anchored);
      (bodies.Ok? ==> AllParse(s, bodies.value)) && (answers.Ok? ==> AllParse(s, answers.value))
  }

  /** What the request reads is JSON: its settings, and what its records contribute. */
  ghost predicate RequestParses(s: Store, cutoff: nat) {
    && (SettingsOf(s.facts, cutoff).Some? ==> Parses(s, SettingsOf(s.facts, cutoff).value))
    && (Selected(s, cutoff).Ok? ==>
         forall i :: 0 <= i < |Selected(s, cutoff).value| ==> RecordParses(s, cutoff, Selected(s, cutoff).value[i]))
  }

  /** The most bytes the scratch holds while one payload is copied after `size` bytes. */
  function PeakOf(s: Store, e: Emission, size: nat): int {
    match ObjectOf(s, e.body)
    case None => size
    case Some(members) => ObjectPeak(size, members, Target(DropOf(e.provider)), true)
  }

  /** The payloads can be copied in order after `size` bytes without the scratch ever passing the allowance. */
  predicate Good(s: Store, size: nat, ems: seq<Emission>, allowance: nat) {
    ems == [] ||
    var n := |ems| - 1;
    && Good(s, size, ems[..n], allowance)
    && Copyable(s, ems[n].body)
    && PeakOf(s, ems[n], size + |EmittedText(s, ems[..n])| + |Separator(n == 0)|) <= allowance
  }

  lemma {:induction false} GoodPrefix(s: Store, size: nat, ems: seq<Emission>, n: nat, allowance: nat)
    requires n <= |ems| && Good(s, size, ems, allowance)
    ensures Good(s, size, ems[..n], allowance)
    decreases |ems|
  {
    hide PeakOf, Copyable, EmittedText, Separator;
    if n < |ems| {
      assert ems[..|ems| - 1][..n] == ems[..n];
      GoodPrefix(s, size, ems[..|ems| - 1], n, allowance);
    } else {
      assert ems[..n] == ems;
    }
  }

  /** The whole plan fits: the settings, the fixed members, every payload at its peak, and the ending. */
  predicate PlanFits(s: Store, plan: Plan, allowance: nat) {
    && HeadFits(plan.settings, allowance)
    && Good(s, |Head(Kept(plan.settings, None))|, plan.ems, allowance)
    && |RequestText(s, plan)| <= allowance
  }

  /** Copies one stored payload through a fresh reader. */
  method CopyPayload(s: Store, sink: Sink, body: nat, drop: Option<Bytes>, braces: bool) returns (r: Result<bool>)
    requires Parses(s, body) && sink.Valid() && (drop.Some? ==> Ascii7(drop.value))
    modifies sink
    ensures sink.Valid()
    ensures r.Ok? <==>
      Copyable(s, body) && ObjectPeak(|old(sink.Contents())|, ObjectOf(s, body).value, Target(drop), braces) <= sink.allowance
    ensures r.Ok? ==>
      && sink.Contents() == old(sink.Contents()) + CopiedText(ObjectOf(s, body).value, Target(drop), braces)
      && (r.value <==> Kept(ObjectOf(s, body).value, Target(drop)).Member?)
    ensures Copyable(s, body) && r.Err? ==> r.error == ResourceExceeded
  {
    hide Sink.Valid, Sink.Contents, ObjectPeak, CopiedText, Kept;
    if body >= |s.payloads| {
      return Err(Unavailable);
    }
    ghost var (lead, d, trail) := Parse(s.payloads[body].body).value;
    ParseSound(s.payloads[body].body);
    var source := new Source(ChunksOf(s.payloads[body].body), Intact(s, body));
    r := CopyObject(source, sink, drop, braces, lead, d, trail);
  }

  /** Writes a comma unless this is the first payload, then copies it. */
  method Emit(s: Store, sink: Sink, e: Emission, first: bool) returns (r: Result<()>)
    requires Parses(s, e.body) && sink.Valid()
    modifies sink
    ensures sink.Valid()
    ensures r.Ok? <==> Copyable(s, e.body) && PeakOf(s, e, |old(sink.Contents())| + |Separator(first)|) <= sink.allowance
    ensures r.Ok? ==> sink.Contents() == old(sink.Contents()) + (Separator(first) + CopyOf(s, e))
    ensures Copyable(s, e.body) && r.Err? ==> r.error == ResourceExceeded
  {
    hide Sink.Valid, Sink.Contents, CopiedText, Kept;
    ghost var start := sink.Contents();
    if !first {
      var ok := sink.Write([COMMA]);
      if !ok {
        return Err(ResourceExceeded);
      }
    }
    assert sink.Contents() == start + Separator(first);
    assert |sink.Contents()| == |start| + |Separator(first)|;
    CreatedByAscii();
    Regroup(start, Separator(first), CopyOf(s, e));
    var copied := CopyPayload(s, sink, e.body, DropOf(e.provider), true);
    r := if copied.Ok? then Ok(()) else Err(copied.error);
  }

  lemma CreatedByAscii()
    ensures Ascii7(CREATED_BY)
  {}

  lemma EmittedMore(s: Store, done: seq<Emission>, e: Emission)
    ensures EmittedText(s, done + [e]) == EmittedText(s, done) + (Separator(done == []) + CopyOf(s, e))
  {
    assert (done + [e])[..|done|] == done;
  }

  lemma GoodMore(s: Store, size: nat, done: seq<Emission>, e: Emission, allowance: nat)
    requires Good(s, size, done, allowance)
    ensures Good(s, size, done + [e], allowance) <==>
      Copyable(s, e.body) && PeakOf(s, e, size + |EmittedText(s, done)| + |Separator(done == [])|) <= allowance
  {
    hide PeakOf, Copyable, EmittedText, Separator;
    assert (done + [e])[..|done|] == done && (done + [e])[|done|] == e;
  }

  /** Copies a run of payloads after what is done already. */
  method EmitAll(s: Store, sink: Sink, ghost head: Bytes, ghost done: seq<Emission>, first: bool, ems: seq<Emission>)
      returns (r: Result<()>)
    requires (forall i :: 0 <= i < |ems| ==> Parses(s, ems[i].body)) && sink.Valid() && Good(s, |head|, done, sink.allowance)
    requires sink.Contents() == head + EmittedText(s, done) && (first <==> done == [])
    modifies sink
    ensures sink.Valid()
    ensures r.Ok? <==> Good(s, |head|, done + ems, sink.allowance)
    ensures r.Ok? ==> sink.Contents() == head + EmittedText(s, done + ems)
    ensures AllCopyable(s, ems) && r.Err? ==> r.error == ResourceExceeded
  {
    hide Sink.Valid, Sink.Contents, Good, EmittedText, PeakOf, CopyOf, Copyable, Separator, Parses;
    var start := first;
    ghost var all := done;
    assert done + ems[..0] == done;
    for i := 0 to |ems|
      invariant sink.Valid() && all == done + ems[..i] && Good(s, |head|, all, sink.allowance)
      invariant start <==> all == []
      invariant sink.Contents() == head + EmittedText(s, all)
    {
      ghost var e := ems[i];
      GoodMore(s, |head|, all, e, sink.allowance);
      EmittedMore(s, all, e);
      Regroup(head, EmittedText(s, all), Separator(start) + CopyOf(s, e));
      assert all + [e] == done + ems[..i + 1];
      r := Emit(s, sink, ems[i], start);
      if r.Err? {
        NotGood(s, |head|, all, e, done + ems, sink.allowance);
        return;
      }
      all := all + [e];
      start := false;
    }
    assert ems[..|ems|] == ems;
    r := Ok(());
  }

  lemma NotGood(s: Store, size: nat, done: seq<Emission>, e: Emission, ems: seq<Emission>, allowance: nat)
    requires done + [e] <= ems && !Good(s, size, done + [e], allowance)
    ensures !Good(s, size, ems, allowance)
  {
    assert ems[..|done| + 1] == done + [e];
    if Good(s, size, ems, allowance) {
      GoodPrefix(s, size, ems, |done| + 1, allowance);
    }
  }

  /** Copies what one selected record contributes: a host payload, or a result's items and then its tool results. */
  method EmitRecord(s: Store, cutoff: nat, sink: Sink, ghost head: Bytes, ghost done: seq<Emission>, first: bool, c: Chosen)
      returns (r: Result<nat>)
    requires RecordParses(s, cutoff, c) && sink.Valid() && Good(s, |head|, done, sink.allowance)
    requires sink.Contents() == head + EmittedText(s, done) && (first <==> done == [])
    modifies sink
    ensures sink.Valid()
    ensures r.Ok? <==>
      RecordEmissions(s, cutoff, c).Ok? && Good(s, |head|, done + RecordEmissions(s, cutoff, c).value, sink.allowance)
    ensures r.Ok? ==> sink.Contents() == head + EmittedText(s, done + RecordEmissions(s, cutoff, c).value)
    ensures r.Ok? ==> r.value == |RecordEmissions(s, cutoff, c).value|
    ensures RecordEmissions(s, cutoff, c).Ok? && AllCopyable(s, RecordEmissions(s, cutoff, c).value) && r.Err? ==>
      r.error == ResourceExceeded
  {
    hide Sink.Valid, Sink.Contents, Good, EmittedText, Copyable, Parses;
    var copied: Result<()>;
    if IsHostInput(c.entry.kind) {
      copied := EmitAll(s, sink, head, done, first, [Emission(c.entry.key, false)]);
      return if copied.Ok? then Ok(1) else Err(copied.error);
    }
    var bodies := ModelOutput(s, cutoff, c.entry.key, c.anchored);
    if bodies.Err? {
      return Err(bodies.error);
    }
    var items := Emitted(bodies.value, true);
    copied := EmitAll(s, sink, head, done, first, items);
    var answers := ToolResults(s, cutoff, c.entry.key, c.anchored);
    if copied.Err? {
      if answers.Ok? {
        AllCopyableParts(s, items, Emitted(answers.value, false));
        NotGoodAll(s, |head|, done + items, done + (items + Emitted(answers.value, false)), sink.allowance);
      }
      return Err(copied.error);
    }
    if answers.Err? {
      return Err(answers.error);
    }
    var more := Emitted(answers.value, false);
    AllCopyableParts(s, items, more);
    assert done + items + more == done + (items + more);
    copied := EmitAll(s, sink, head, done + items, first && items == [], more);
    r := if copied.Ok? then Ok(|items| + |more|) else Err(copied.error);
  }

  lemma AllCopyableParts(s: Store, a: seq<Emission>, b: seq<Emission>)
    ensures AllCopyable(s, a + b) <==> AllCopyable(s, a) && AllCopyable(s, b)
  {
    hide Copyable;
    if AllCopyable(s, a + b) {
      forall i | 0 <= i < |a| ensures Copyable(s, a[i].body) {
        assert (a + b)[i] == a[i];
      }
      forall i | 0 <= i < |b| ensures Copyable(s, b[i].body) {
        assert (a + b)[|a| + i] == b[i];
      }
    }
  }

  lemma NotGoodAll(s: Store, size: nat, done: seq<Emission>, ems: seq<Emission>, allowance: nat)
    requires done <= ems && !Good(s, size, done, allowance)
    ensures !Good(s, size, ems, allowance)
  {
    assert ems[..|done|] == done;
    if Good(s, size, ems, allowance) {
      GoodPrefix(s, size, ems, |done|, allowance);
    }
  }

  /** The emissions of the first records are the first emissions. */
  lemma {:induction false} EmissionsPrefix(s: Store, cutoff: nat, records: seq<Chosen>, n: nat)
    requires n <= |records| && Emissions(s, cutoff, records).Ok?
    ensures Emissions(s, cutoff, records[..n]).Ok?
    ensures Emissions(s, cutoff, records[..n]).value <= Emissions(s, cutoff, records).value
    decreases |records|
  {
    if n < |records| {
      var front := records[..|records| - 1];
      assert front[..n] == records[..n];
      EmissionsPrefix(s, cutoff, front, n);
    } else {
      assert records[..n] == records;
    }
  }

  lemma EmissionsStep(s: Store, cutoff: nat, records: seq<Chosen>, i: nat)
    requires i < |records| && Emissions(s, cutoff, records[..i]).Ok?
    ensures Emissions(s, cutoff, records[..i + 1]).Ok? <==> RecordEmissions(s, cutoff, records[i]).Ok?
    ensures RecordEmissions(s, cutoff, records[i]).Ok? ==>
      Emissions(s, cutoff, records[..i + 1]) == Ok(Emissions(s, cutoff, records[..i]).value + RecordEmissions(s, cutoff, records[i]).value)
  {
    assert records[..i + 1][..i] == records[..i];
  }

  /** The loop of `prepare` over the selected records. */
  method EmitRecords(s: Store, cutoff: nat, sink: Sink, ghost head: Bytes, records: seq<Chosen>) returns (r: Result<()>)
    requires (forall i :: 0 <= i < |records| ==> RecordParses(s, cutoff, records[i])) && sink.Valid() && sink.Contents() == head
    modifies sink
    ensures sink.Valid()
    ensures r.Ok? <==>
      Emissions(s, cutoff, records).Ok? && Good(s, |head|, Emissions(s, cutoff, records).value, sink.allowance)
    ensures r.Ok? ==> sink.Contents() == head + EmittedText(s, Emissions(s, cutoff, records).value)
    ensures Emissions(s, cutoff, records).Ok? && AllCopyable(s, Emissions(s, cutoff, records).value) && r.Err? ==>
      r.error == ResourceExceeded
  {
    hide Sink.Valid, Sink.Contents, EmittedText, RecordEmissions, Copyable, PeakOf, Good, RecordParses;
    var first := true;
    ghost var done: seq<Emission> := [];
    NothingEmitted(s, head, sink.allowance);
    for i := 0 to |records|
      invariant sink.Valid() && Emissions(s, cutoff, records[..i]) == Ok(done)
      invariant Good(s, |head|, done, sink.allowance) && (first <==> done == [])
      invariant sink.Contents() == head + EmittedText(s, done)
    {
      EmissionsStep(s, cutoff, records, i);
      var added := EmitRecord(s, cutoff, sink, head, done, first, records[i]);
      if added.Err? {
        RecordFails(s, cutoff, records, i, |head|, sink.allowance);
        return Err(added.error);
      }
      done := done + RecordEmissions(s, cutoff, records[i]).value;
      first := first && added.value == 0;
    }
    assert records[..|records|] == records;
    r := Ok(());
  }

  /** A record that cannot be emitted leaves no request; if all of it could be copied, the allowance is what failed. */
  lemma RecordFails(s: Store, cutoff: nat, records: seq<Chosen>, i: nat, size: nat, allowance: nat)
    requires i < |records| && Emissions(s, cutoff, records[..i]).Ok?
    requires RecordEmissions(s, cutoff, records[i]).Ok? ==>
      !Good(s, size, Emissions(s, cutoff, records[..i]).value + RecordEmissions(s, cutoff, records[i]).value, allowance)
    ensures Emissions(s, cutoff, records).Ok? ==>
      && RecordEmissions(s, cutoff, records[i]).Ok?
      && !Good(s, size, Emissions(s, cutoff, records).value, allowance)
      && (AllCopyable(s, Emissions(s, cutoff, records).value) ==> AllCopyable(s, RecordEmissions(s, cutoff, records[i]).value))
  {
    hide RecordEmissions, Copyable, Good;
    EmissionsStep(s, cutoff, records, i);
    if Emissions(s, cutoff, records).Ok? {
      EmissionsPrefix(s, cutoff, records, i + 1);
      var ems, front := Emissions(s, cutoff, records).value, Emissions(s, cutoff, records[..i + 1]).value;
      NotGoodAll(s, size, front, ems, allowance);
      assert ems == front + ems[|front|..];
      AllCopyableParts(s, front, ems[|front|..]);
      AllCopyableParts(s, Emissions(s, cutoff, records[..i]).value, RecordEmissions(s, cutoff, records[i]).value);
    }
  }

  lemma NothingEmitted(s: Store, head: Bytes, allowance: nat)
    ensures head + EmittedText(s, []) == head && Good(s, |head|, [], allowance)
  {}

  /** Writes everything up to the input's opening bracket. */
  method WriteHead(s: Store, cutoff: nat, sink: Sink) returns (r: Result<()>)
    requires (SettingsOf(s.facts, cutoff).Some? ==> Parses(s, SettingsOf(s.facts, cutoff).value))
    requires sink.Valid() && sink.Contents() == []
    modifies sink
    ensures sink.Valid()
    ensures r.Ok? <==>
      && SettingsOf(s.facts, cutoff).Some? && Copyable(s, SettingsOf(s.facts, cutoff).value)
      && HeadFits(ObjectOf(s, SettingsOf(s.facts, cutoff).value).value, sink.allowance)
    ensures r.Ok? ==> sink.Contents() == Head(Kept(ObjectOf(s, SettingsOf(s.facts, cutoff).value).value, None))
    ensures SettingsOf(s.facts, cutoff).Some? && Copyable(s, SettingsOf(s.facts, cutoff).value) && r.Err? ==>
      r.error == ResourceExceeded
  {
    hide Sink.Valid, Sink.Contents, FIXED, Peak, Kept, Intact, MembersText, ObjectOf;
    var ok := sink.Write([OPEN_OBJECT]);
    if !ok {
      return Err(ResourceExceeded);
    }
    assert sink.Contents() == [OPEN_OBJECT];
    var key := SettingsOf(s.facts, cutoff);
    if key.None? {
      return Err(Unavailable);
    }
    var present := CopyPayload(s, sink, key.value, None, false);
    if present.Err? {
      return Err(present.error);
    }
    ghost var kept := Kept(ObjectOf(s, key.value).value, None);
    assert sink.Contents() == [OPEN_OBJECT] + MembersText(kept);
    if present.value {
      ok := sink.Write([COMMA]);
      if !ok {
        return Err(ResourceExceeded);
      }
    }
    assert sink.Contents() == [OPEN_OBJECT] + MembersText(kept) + Separator(kept.NoMember?);
    ok := sink.Write(FIXED);
    r := if ok then Ok(()) else Err(ResourceExceeded);
  }

  predicate HeadFits(settings: Members, allowance: nat) {
    ObjectPeak(1, settings, None, false) <= allowance && |Head(Kept(settings, None))| <= allowance
  }

  /** The bytes decode to the settings, the fixed members and the input of a built request. */
  ghost predicate Carries(sealed: Bytes, request: SimpleRequest) {
    request.settings.Dict? && Loads(sealed) == Some(Envelope(request.settings.m, request.input))
  }

  /** What is sealed carries the built request exactly on streamable views, and those can be sealed but for space. */
  lemma SealedCarries(s: Store, cutoff: nat)
    requires Valid(s) && RequestOf(s, cutoff).Ok?
    ensures Streamable(s, cutoff) ==> PlanOf(s, cutoff).Ok?
    ensures PlanOf(s, cutoff).Ok? ==>
      (Carries(RequestText(s, PlanOf(s, cutoff).value), RequestOf(s, cutoff).value) <==> Streamable(s, cutoff))
  {
    hide Valid, Streamable, RequestOf, PlanOf, RequestText, Envelope;
    StreamingRefines(s, cutoff);
  }

  /** Writes all of it, and seals it if everything went through. */
  method WriteRequest(view: View, allowance: nat) returns (r: Result<Bytes>)
    requires !view.closed && RequestParses(view.core.Tables(), view.cutoff)
    ensures
      var s, plan := view.core.Tables(), PlanOf(view.core.Tables(), view.cutoff);
      && (r.Ok? <==> plan.Ok? && PlanFits(s, plan.value, allowance))
      && (r.Ok? ==> r.value == RequestText(s, plan.value) && |r.value| <= allowance)
      && (plan.Ok? && r.Err? ==> r.error == ResourceExceeded)
  {
    hide Sink.Contents, Good, Parses, RecordParses, Head, ObjectPeak, Kept, EmittedText, Selected, AllCopyable;
    var s := view.core.Tables();
    var sink := new Sink(allowance);
    var started := WriteHead(s, view.cutoff, sink);
    if started.Err? {
      return Err(started.error);
    }
    ghost var head := sink.Contents();
    var records := view.SelectedRecords();
    if records.Err? {
      return Err(records.error);
    }
    var emitted := EmitRecords(s, view.cutoff, sink, head, records.value);
    if Emissions(s, view.cutoff, records.value).Ok? && Good(s, |head|, Emissions(s, view.cutoff, records.value).value, allowance) {
      GoodCopyable(s, |head|, Emissions(s, view.cutoff, records.value).value, allowance);
    }
    if emitted.Err? {
      return Err(emitted.error);
    }
    var ok := sink.Write(ENDING);
    if !ok {
      return Err(ResourceExceeded);
    }
    sink.Flush();
    r := Ok(sink.file);
  }

  /**
   * The complete request in scratch, or no request: it is sealed exactly when every payload it
   * needs is visible, undamaged and an object, and the scratch never has to pass the allowance.
   * On a store of a run, it is the latest settings and what each selected record contributes.
   * Where the builder builds a request, what is sealed carries it exactly on a streamable view,
   * and on such a view only the allowance can keep it from being sealed.
   */
  method Prepare(view: View, allowance: nat) returns (r: Result<Bytes>)
    requires !view.closed && RequestParses(view.core.Tables(), view.cutoff)
    ensures
      var s, plan := view.core.Tables(), PlanOf(view.core.Tables(), view.cutoff);
      && (r.Ok? <==> plan.Ok? && PlanFits(s, plan.value, allowance))
      && (r.Ok? ==> r.value == RequestText(s, plan.value) && |r.value| <= allowance)
      && (plan.Ok? && r.Err? ==> r.error == ResourceExceeded)
    ensures
      var s, cutoff := view.core.Tables(), view.cutoff;
      Valid(s) && RequestOf(s, cutoff).Ok? ==>
        && (r.Ok? ==> (Carries(r.value, RequestOf(s, cutoff).value) <==> Streamable(s, cutoff)))
        && (r.Err? && Streamable(s, cutoff) ==> r.error == ResourceExceeded)
    ensures
      var s, cutoff := view.core.Tables(), view.cutoff;
      Valid(s) ==>
        && (r.Ok? ==> exists plan :: Planned(s, cutoff, plan) && r.value == RequestText(s, plan))
        && (r.Err? ==> r.error == ResourceExceeded || NotPlannable(s, cutoff))
  {
    hide RequestOf, PlanOf, PlanFits, Streamable, Carries, Valid, RequestText, Planned, NotPlannable;
    if Valid(view.core.Tables()) {
      PlanExact(view.core.Tables(), view.cutoff);
    }
    if Valid(view.core.Tables()) && RequestOf(view.core.Tables(), view.cutoff).Ok? {
      SealedCarries(view.core.Tables(), view.cutoff);
    }
    r := WriteRequest(view, allowance);
  }

  lemma {:induction false} GoodCopyable(s: Store, size: nat, ems: seq<Emission>, allowance: nat)
    requires Good(s, size, ems, allowance)
    ensures AllCopyable(s, ems)
    decreases |ems|
  {
    hide PeakOf, Copyable, EmittedText;
    if ems != [] {
      GoodCopyable(s, size, ems[..|ems| - 1], allowance);
    }
  }
}
