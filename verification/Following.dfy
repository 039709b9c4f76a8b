/**
 * A follower of the feed and the writes of its session, together: the page loop of feed.ts and the
 * notifications of notifications.ts, while local writes and others append rows to the Host's log.
 *
 * A local write commits its rows at the Host, and is notified here at some later time, in any order.
 * The reply to a page request was made at some moment between the request and its arrival.
 */
module Following {
  import opened Bytes
  import opened Feed
  import N = Notifications

  /** Where the feed starts and which rows it wants. */
  datatype Filter = Filter(start: Spot, kinds: set<nat>)

  /**
   * `marks[k]` is the length of the log once local write `k` had committed; `servedLog` and `servedEnd` are
   * the log and the end the last reply was made from.
   */
  datatype State = State(n: N.State, log: seq<Row>, end: nat, marks: seq<nat>, notified: set<nat>,
    place: Place, reply: Option<Reply>, servedLog: seq<Row>, servedEnd: nat)

  datatype Step =
    | Write(log: seq<Row>, end: nat)
    | Others(log: seq<Row>, end: nat)
    | Notify(k: nat)
    | Capture
    | Serve(page: Reply)
    | Decide(aborted: bool)
    | Fail
    | Abort

  ghost predicate Enabled(f: Filter, s: State, step: Step) {
    match step
    case Write(log, end) => Grew(s.log, s.end, log, end)
    case Others(log, end) => Grew(s.log, s.end, log, end)
    case Notify(k) => k < |s.marks| && k !in s.notified
    case Capture => s.n.turn.Asking?
    case Serve(page) => s.n.turn.Captured? && Answers(s.log, s.end, s.place.pinned, s.place.at, f.kinds, s.place.since, page)
    case Decide(_) => s.n.turn.Served? && s.reply.Some?
    case _ => true
  }

  function Apply(s: State, step: Step): State {
    match step
    case Write(log, end) => s.(log := log, end := end, marks := s.marks + [|log|], n := N.Apply(s.n, N.Commit))
    case Others(log, end) => s.(log := log, end := end)
    case Notify(k) => s.(notified := s.notified + {k}, n := N.Apply(s.n, N.Notify))
    case Capture => s.(n := N.Apply(s.n, N.Capture))
    case Serve(page) =>
      s.(reply := Some(page), servedLog := s.log, servedEnd := s.end,
         n := N.Apply(s.n, N.Serve(AfterReply(true, s.place, page).1 == Sleep)))
    case Decide(aborted) =>
      if s.reply.None? then s
      else s.(place := AfterReply(true, s.place, s.reply.value).0, reply := None, n := N.Apply(s.n, N.Decide(aborted)))
    case Fail => s.(n := N.Apply(s.n, N.Fail))
    case Abort => s.(n := N.Apply(s.n, N.Abort))
  }

  ghost predicate Follows(f: Filter, s: State, steps: seq<Step>)
    decreases |steps|
  {
    steps != [] ==> Enabled(f, s, steps[0]) && Follows(f, Apply(s, steps[0]), steps[1..])
  }

  function Run(s: State, steps: seq<Step>): State
    decreases |steps|
  {
    if steps == [] then s else Run(Apply(s, steps[0]), steps[1..])
  }

  /** A follower that just took out its watch; some writes may have committed, and some of those been notified, before. */
  ghost predicate Initial(f: Filter, s: State) {
    && OkLog(s.log, s.end) && f.start.position <= s.end
    && s.place == Place(f.start, None, None, FIRST_POLL, false, []) && s.reply == None
    && N.Initial(s.n) && s.n.committed == |s.marks| && s.n.base == |s.notified|
    && (forall k :: k in s.notified ==> k < |s.marks|)
    && (forall k :: 0 <= k < |s.marks| ==> s.marks[k] <= |s.log|)
  }

  // ---------------------------------------------------------------- the invariant

  ghost predicate OkWrites(s: State) {
    && N.Valid(s.n) && s.n.committed == |s.marks|
    && (forall k :: 0 <= k < |s.marks| ==> s.marks[k] <= |s.log|)
    && (forall k :: k in s.notified ==> k < |s.marks|)
    && |s.notified| + s.n.pending == |s.marks|
  }

  /** The writes counted when the reply was made are in the log it was made from. */
  ghost predicate Seen(s: State, seen: nat) {
    && seen <= |s.marks| && Grew(s.servedLog, s.servedEnd, s.log, s.end) && OkLog(s.servedLog, s.servedEnd)
    && forall k :: 0 <= k < seen ==> s.marks[k] <= |s.servedLog|
  }

  ghost predicate AllSeen(s: State, seen: nat) {
    forall k :: k in s.notified ==> k < seen
  }

  ghost predicate OkFollower(f: Filter, s: State) {
    && OkPlace(s.place, f.start, f.kinds, true, s.log, s.end)
    && (s.n.turn.Served? ==>
          && s.reply.Some? && Seen(s, s.n.turn.seen)
          && OkPlace(s.place, f.start, f.kinds, true, s.servedLog, s.servedEnd)
          && Answers(s.servedLog, s.servedEnd, s.place.pinned, s.place.at, f.kinds, s.place.since, s.reply.value)
          && (s.n.turn.dormant ==> AfterReply(true, s.place, s.reply.value).1 == Sleep)
          && (s.n.watch.revision == s.n.turn.revision ==> AllSeen(s, s.n.turn.seen)))
    && (s.n.turn.Sleeping? ==>
          && Seen(s, s.n.turn.seen) && AllSeen(s, s.n.turn.seen)
          && s.place.yielded == Rows(s.servedLog, f.start, EndSpot(s.servedEnd), f.kinds))
  }

  ghost predicate Valid(f: Filter, s: State) {
    OkWrites(s) && OkFollower(f, s)
  }

  lemma {:induction false} Below(ns: set<nat>, n: nat)
    requires forall k :: k in ns ==> k < n
    ensures |ns| <= n
    ensures (exists k :: 0 <= k < n && k !in ns) ==> |ns| < n
  {
    if n > 0 {
      var rest := ns - {n - 1};
      Below(rest, n - 1);
      if n - 1 in ns {
        assert |ns| == |rest| + 1;
        if k :| 0 <= k < n && k !in ns {
          assert 0 <= k < n - 1 && k !in rest;
        }
      } else {
        assert rest == ns;
      }
    } else {
      assert ns == {};
    }
  }

  /** A committed write that was not notified is pending. */
  lemma SomePending(s: State, k: nat)
    requires OkWrites(s) && k < |s.marks| && k !in s.notified
    ensures s.n.pending > 0
  {
    Below(s.notified, |s.marks|);
  }

  lemma StepKeepsWrites(f: Filter, s: State, step: Step)
    requires Valid(f, s) && Enabled(f, s, step)
    ensures OkWrites(Apply(s, step))
  {
    hide OkFollower, OkLog, Answers, AfterReply, N.Valid, N.Apply, N.Enabled;
    if step.Notify? {
      SomePending(s, step.k);
    }
    if !step.Others? {
      WatchKeeps(s.n, WatchStep(s, step));
    }
  }

  /** What a step is to the watch. */
  function WatchStep(s: State, step: Step): N.Step
    requires !step.Others?
  {
    match step
    case Write(_, _) => N.Commit
    case Notify(_) => N.Notify
    case Capture => N.Capture
    case Serve(page) => N.Serve(AfterReply(true, s.place, page).1 == Sleep)
    case Decide(aborted) => N.Decide(aborted)
    case Fail => N.Fail
    case Abort => N.Abort
  }

  lemma WatchKeeps(n: N.State, step: N.Step)
    requires N.Valid(n) && (step.Notify? ==> n.pending > 0) && (step.Capture? ==> n.turn.Asking?)
    requires (step.Serve? ==> n.turn.Captured?) && (step.Decide? ==> n.turn.Served?)
    ensures var m := N.Apply(n, step);
      && N.Valid(m) && m.committed == n.committed + (if step.Commit? then 1 else 0)
      && m.pending == n.pending + (if step.Commit? then 1 else 0) - (if step.Notify? then 1 else 0)
  {
    N.StepKeepsValid(n, step);
  }

  lemma GrowKeeps(f: Filter, s: State, step: Step)
    requires Valid(f, s) && Enabled(f, s, step) && (step.Write? || step.Others?)
    ensures OkFollower(f, Apply(s, step))
  {
    hide Rows, Answers, AfterReply, OkPlace;
    PlaceGrows(s.place, f.start, f.kinds, true, s.log, s.end, step.log, step.end);
  }

  lemma DecideKeeps(f: Filter, s: State, aborted: bool)
    requires Valid(f, s) && Enabled(f, s, Decide(aborted))
    ensures OkFollower(f, Apply(s, Decide(aborted)))
  {
    hide Rows, Answers, AfterReply, OkPlace, OkLog;
    FollowKeeps(s.place, s.reply.value, f.start, f.kinds, s.servedLog, s.servedEnd);
    var q := AfterReply(true, s.place, s.reply.value).0;
    PlaceGrows(q, f.start, f.kinds, true, s.servedLog, s.servedEnd, s.log, s.end);
  }

  lemma ServeKeeps(f: Filter, s: State, page: Reply)
    requires Valid(f, s) && Enabled(f, s, Serve(page))
    ensures OkFollower(f, Apply(s, Serve(page)))
  {
    hide Rows, Answers, AfterReply;
  }

  lemma OthersKeep(f: Filter, s: State, step: Step)
    requires Valid(f, s) && Enabled(f, s, step) && (step.Notify? || step.Capture? || step.Fail? || step.Abort?)
    ensures OkFollower(f, Apply(s, step))
  {
    hide Rows, Answers, AfterReply, OkPlace, OkLog;
    if step.Notify? {
      SomePending(s, step.k);
    }
  }

  lemma StepKeepsValid(f: Filter, s: State, step: Step)
    requires Valid(f, s) && Enabled(f, s, step)
    ensures Valid(f, Apply(s, step))
  {
    hide OkFollower, OkWrites, Apply, Enabled;
    StepKeepsWrites(f, s, step);
    if step.Write? || step.Others? {
      GrowKeeps(f, s, step);
    } else if step.Serve? {
      ServeKeeps(f, s, step.page);
    } else if step.Decide? {
      DecideKeeps(f, s, step.aborted);
    } else {
      OthersKeep(f, s, step);
    }
  }

  lemma {:induction false} RunKeepsValid(f: Filter, s: State, steps: seq<Step>)
    requires Valid(f, s) && Follows(f, s, steps)
    ensures Valid(f, Run(s, steps))
    decreases |steps|
  {
    hide Valid, Enabled, Apply;
    if steps != [] {
      StepKeepsValid(f, s, steps[0]);
      RunKeepsValid(f, Apply(s, steps[0]), steps[1..]);
    }
  }

  lemma InitialValid(f: Filter, s: State)
    requires Initial(f, s)
    ensures Valid(f, s)
  {
    NothingBetween(s.log, f.start, f.kinds);
  }

  // ---------------------------------------------------------------- what every interleaving guarantees

  /** The row was in the log when the write had committed, and the feed wants it. */
  ghost predicate WrittenRow(f: Filter, s: State, k: nat, r: Row) {
    k < |s.marks| && s.marks[k] <= |s.log| && r in s.log[..s.marks[k]] && After(r, f.start) && r.kind in f.kinds
  }

  /** What a follower has yielded is exactly the wanted rows up to its place, once each, in order. */
  lemma YieldedExactly(f: Filter, s: State, steps: seq<Step>)
    requires Initial(f, s) && Follows(f, s, steps)
    ensures
      var e := Run(s, steps);
      && InOrder(e.place.yielded)
      && forall r :: r in e.place.yielded <==> r in e.log && After(r, f.start) && !After(r, e.place.at) && r.kind in f.kinds
  {
    hide N.Valid;
    InitialValid(f, s);
    RunKeepsValid(f, s, steps);
    var e := Run(s, steps);
    RowsIn(e.log, f.start, e.place.at, f.kinds);
  }

  /**
   * In every interleaving, a sleeping follower has yielded every wanted row of every write notified so far.
   */
  lemma SleepsUpToDate(f: Filter, s: State, steps: seq<Step>, k: nat, r: Row)
    requires Initial(f, s) && Follows(f, s, steps)
    requires var e := Run(s, steps); e.n.turn.Sleeping? && k in e.notified && WrittenRow(f, e, k, r)
    ensures r in Run(s, steps).place.yielded
  {
    InitialValid(f, s);
    RunKeepsValid(f, s, steps);
    var e := Run(s, steps);
    var served := e.servedLog;
    assert e.marks[k] <= |served|;
    assert r in served by {
      var i :| 0 <= i < e.marks[k] && e.log[..e.marks[k]][i] == r;
      assert served[i] == r;
    }
    RowsIn(served, f.start, EndSpot(e.servedEnd), f.kinds);
  }
}
