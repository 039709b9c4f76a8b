/**
 * The client's Host lifecycle (client.ts): callers that wait for a Host, restarts with capped
 * backoff, the close, and calls that are sent once more when the Host they were sent to is gone.
 *
 * A step is what runs between two awaits. When children start or exit, how a post ends, and
 * whether an exit listener closes the client are the environment's; listeners that throw or that
 * start calls of their own are left out.
 */
module Client {
  import opened Bytes

  const FIRST_RESTART := 500
  const MAX_RESTART := 30000

  /** A restart is a pending timer, or a start in flight. */
  datatype Restart = Off | Scheduled(delay: nat) | Starting

  /** A call waits under a ticket, has posted to a Host, or is over. */
  datatype Phase = Waiting(ticket: nat) | Posted(host: nat) | Over(answered: bool)

  /** A call and the Hosts it posted to, in order. */
  datatype Call = Call(phase: Phase, posts: seq<nat>)

  datatype State = State(
    host: Option<nat>, hosts: nat, exited: set<nat>, restart: Restart, backoff: nat, closing: bool, dead: bool,
    waiters: seq<nat>, calls: map<nat, Call>, tickets: nat, settled: seq<nat>)

  datatype Step =
    | Begin(c: nat)
    | Answered(c: nat)
    | Lost(c: nat, noticed: bool)
    | HostExits(h: nat, listenerCloses: bool)
    | TimerFires
    | Started
    | StartFails(retryable: bool, exit: bool, listenerCloses: bool)
    | Close

  /** The client as `connect` returns it, with Host 0. */
  const CONNECTED: State := State(Some(0), 1, {}, Off, FIRST_RESTART, false, false, [], map[], 0, [])

  // ---------------------------------------------------------------- the methods

  /** `#ready`, and the post that follows when a Host is there. */
  function Ready(s: State, c: nat, posts: seq<nat>): State {
    match s.host
    case Some(h) => s.(calls := s.calls[c := Call(Posted(h), posts + [h])])
    case None =>
      if s.dead || s.closing then s.(calls := s.calls[c := Call(Over(false), posts)])
      else s.(calls := s.calls[c := Call(Waiting(s.tickets), posts)], waiters := s.waiters + [s.tickets], tickets := s.tickets + 1)
  }

  /** What a settled waiter's call does: post to the Host it was given, or end. */
  function Resume(call: Call, host: Option<nat>): Call {
    if !call.phase.Waiting? then call
    else if host.Some? then Call(Posted(host.value), call.posts + [host.value])
    else Call(Over(false), call.posts)
  }

  /** Every waiter is taken out of the queue and settled. */
  function SettleAll(s: State, host: Option<nat>): State {
    s.(waiters := [], settled := s.settled + s.waiters,
       calls := map c | c in s.calls :: Resume(s.calls[c], host))
  }

  function Adopt(s: State): State {
    SettleAll(s.(host := Some(s.hosts), hosts := s.hosts + 1, backoff := FIRST_RESTART, restart := Off), Some(s.hosts))
  }

  function Fail(s: State): State {
    SettleAll(s, None)
  }

  function ScheduleRestart(s: State): State {
    if s.closing then s
    else s.(restart := Scheduled(s.backoff), backoff := if s.backoff * 2 < MAX_RESTART then s.backoff * 2 else MAX_RESTART)
  }

  function AfterClose(s: State): State {
    if s.closing then s
    else Fail(s.(restart := if s.restart.Scheduled? then Off else s.restart)).(host := None, closing := true)
  }

  function Heard(s: State, listenerCloses: bool): State {
    if listenerCloses then AfterClose(s) else s
  }

  /** The handler of an adopted Host's exit. */
  function AfterExit(s: State, h: nat, listenerCloses: bool): State {
    var t := s.(exited := s.exited + {h});
    if t.closing || t.host != Some(h) then t
    else ScheduleRestart(Heard(t.(host := None), listenerCloses))
  }

  function AfterStarted(s: State): State {
    if s.closing then s.(restart := Off, hosts := s.hosts + 1) else Adopt(s)
  }

  function AfterStartFails(s: State, retryable: bool, exit: bool, listenerCloses: bool): State {
    var t := s.(restart := Off);
    if t.closing then t
    else
      var u := Fail(if exit then Heard(t, listenerCloses) else t);
      if retryable then ScheduleRestart(u) else u.(dead := true)
  }

  predicate Enabled(s: State, step: Step) {
    match step
    case Begin(c) => c !in s.calls
    case Answered(c) => c in s.calls && s.calls[c].phase.Posted?
    case Lost(c, noticed) => c in s.calls && s.calls[c].phase.Posted? && (noticed ==> s.calls[c].phase.host in s.exited)
    case HostExits(h, _) => h < s.hosts && h !in s.exited
    case TimerFires => s.restart.Scheduled?
    case Started => s.restart.Starting?
    case StartFails(_, _, _) => s.restart.Starting?
    case Close => true
  }

  function Apply(s: State, step: Step): State {
    match step
    case Begin(c) => Ready(s, c, [])
    case Answered(c) => if c !in s.calls then s else s.(calls := s.calls[c := s.calls[c].(phase := Over(true))])
    case Lost(c, noticed) =>
      if c !in s.calls then s
      else if !noticed || |s.calls[c].posts| > 1 then s.(calls := s.calls[c := s.calls[c].(phase := Over(false))])
      else Ready(s, c, s.calls[c].posts)
    case HostExits(h, listenerCloses) => AfterExit(s, h, listenerCloses)
    case TimerFires => s.(restart := Starting)
    case Started => AfterStarted(s)
    case StartFails(retryable, exit, listenerCloses) => AfterStartFails(s, retryable, exit, listenerCloses)
    case Close => AfterClose(s)
  }

  ghost predicate Follows(s: State, steps: seq<Step>)
    decreases |steps|
  {
    steps != [] ==> Enabled(s, steps[0]) && Follows(Apply(s, steps[0]), steps[1..])
  }

  function Run(s: State, steps: seq<Step>): State
    decreases |steps|
  {
    if steps == [] then s else Run(Apply(s, steps[0]), steps[1..])
  }

  /** What becomes of a call whose waiter is settled: it posts to the Host it is given, or is over without an answer. */
  ghost predicate Resumed(before: Call, after: Call, given: Option<nat>) {
    match before.phase
    case Waiting(_) =>
      if given.Some? then after.phase == Posted(given.value) && after.posts == before.posts + [given.value]
      else after.phase == Over(false) && after.posts == before.posts
    case _ => after == before
  }

  ghost predicate AllResumed(before: map<nat, Call>, after: map<nat, Call>, given: Option<nat>) {
    before.Keys == after.Keys && forall c :: c in before ==> Resumed(before[c], after[c], given)
  }

  /** A caller is given the Host at once, refused, or queued under a new ticket. */
  ghost predicate Reached(s: State, c: nat, posts: seq<nat>, t: State) {
    match s.host
    case Some(h) => t == s.(calls := s.calls[c := Call(Posted(h), posts + [h])])
    case None =>
      if s.dead || s.closing then t == s.(calls := s.calls[c := Call(Over(false), posts)])
      else t == s.(calls := s.calls[c := Call(Waiting(s.tickets), posts)], waiters := s.waiters + [s.tickets], tickets := s.tickets + 1)
  }

  /** A restart after the current backoff, which doubles up to half a minute; none once the client is closing. */
  ghost predicate Rescheduled(closing: bool, before: (Restart, nat), after: (Restart, nat)) {
    if closing then after == before
    else after.0 == Scheduled(before.1) && after.1 == if before.1 >= 15000 then 30000 else 2 * before.1
  }

  // ---------------------------------------------------------------- the client in place

  class Rui {
    var host: Option<nat>
    var hosts: nat
    var restart: Restart
    var backoff: nat
    var closing: bool
    var dead: bool
    var waiters: seq<nat>
    var tickets: nat
    var calls: map<nat, Call>
    ghost var exited: set<nat>
    ghost var settled: seq<nat>

    ghost function Now(): State
      reads this
    {
      State(host, hosts, exited, restart, backoff, closing, dead, waiters, calls, tickets, settled)
    }

    constructor ()
      ensures Now() == CONNECTED
    {
      host, hosts, restart, backoff, closing, dead := Some(0), 1, Off, FIRST_RESTART, false, false;
      waiters, tickets, calls, exited, settled := [], 0, map[], {}, [];
    }

    method WaitReady(c: nat, posts: seq<nat>)
      modifies this
      ensures Now() == Ready(old(Now()), c, posts) && Reached(old(Now()), c, posts, Now())
    {
      if host.Some? {
        calls := calls[c := Call(Posted(host.value), posts + [host.value])];
        return;
      }
      if dead || closing {
        calls := calls[c := Call(Over(false), posts)];
        return;
      }
      calls := calls[c := Call(Waiting(tickets), posts)];
      waiters := waiters + [tickets];
      tickets := tickets + 1;
    }

    method SettleWaiters(given: Option<nat>)
      modifies this`waiters, this`calls, this`settled
      ensures Now() == SettleAll(old(Now()), given)
      ensures waiters == [] && settled == old(settled) + old(waiters) && AllResumed(old(calls), calls, given)
    {
      settled := settled + waiters;
      waiters := [];
      calls := map c | c in calls :: Resume(calls[c], given);
    }

    method AdoptHost()
      modifies this
      ensures Now() == Adopt(old(Now()))
      ensures host == Some(old(hosts)) && hosts == old(hosts) + 1 && backoff == 500 && restart == Off
      ensures waiters == [] && settled == old(settled) + old(waiters) && AllResumed(old(calls), calls, host)
    {
      var h := hosts;
      hosts := hosts + 1;
      host := Some(h);
      backoff := FIRST_RESTART;
      restart := Off;
      SettleWaiters(Some(h));
    }

    method Schedule()
      modifies this
      ensures Now() == ScheduleRestart(old(Now()))
      ensures Rescheduled(closing, (old(restart), old(backoff)), (restart, backoff))
      ensures Now() == old(Now()).(restart := restart, backoff := backoff)
    {
      if closing {
        return;
      }
      var delay := backoff;
      backoff := if backoff * 2 < MAX_RESTART then backoff * 2 else MAX_RESTART;
      restart := Scheduled(delay);
    }

    method CloseClient()
      modifies this
      ensures Now() == AfterClose(old(Now()))
      ensures old(closing) ==> Now() == old(Now())
      ensures closing && (!old(closing) ==> host == None && waiters == [] && !restart.Scheduled?)
      ensures !old(closing) ==> settled == old(settled) + old(waiters) && AllResumed(old(calls), calls, None)
      ensures !old(restart).Scheduled? ==> restart == old(restart)
      ensures backoff == old(backoff) && dead == old(dead) && tickets == old(tickets) && hosts == old(hosts) && exited == old(exited)
    {
      if closing {
        return;
      }
      if restart.Scheduled? {
        restart := Off;
      }
      SettleWaiters(None);
      host := None;
      closing := true;
    }

    /** The listener of `exit` runs before the restart is scheduled, and may close. */
    method HostExited(h: nat, listenerCloses: bool)
      modifies this
      ensures Now() == AfterExit(old(Now()), h, listenerCloses)
      ensures exited == old(exited) + {h}
      ensures old(closing) || old(host) != Some(h) ==> Now() == old(Now()).(exited := exited)
      ensures !old(closing) && old(host) == Some(h) ==>
        && host == None && closing == listenerCloses
        && (if closing then !restart.Scheduled? && waiters == []
            else Rescheduled(false, (old(restart), old(backoff)), (restart, backoff)) && waiters == old(waiters) && calls == old(calls))
    {
      exited := exited + {h};
      if closing || host != Some(h) {
        return;
      }
      host := None;
      if listenerCloses {
        CloseClient();
      }
      Schedule();
    }

    method RestartStarted()
      requires restart.Starting?
      modifies this
      ensures Now() == AfterStarted(old(Now()))
      ensures hosts == old(hosts) + 1 && restart == Off && closing == old(closing)
      ensures old(closing) ==> host == old(host) && calls == old(calls)
      ensures !old(closing) ==> host == Some(old(hosts)) && waiters == [] && AllResumed(old(calls), calls, host)
    {
      if closing {
        restart, hosts := Off, hosts + 1;
        return;
      }
      AdoptHost();
    }

    method RestartFailed(retryable: bool, exit: bool, listenerCloses: bool)
      requires restart.Starting?
      modifies this
      ensures Now() == AfterStartFails(old(Now()), retryable, exit, listenerCloses)
      ensures old(closing) ==> Now() == old(Now()).(restart := Off)
      ensures !old(closing) ==>
        && closing == (exit && listenerCloses) && waiters == [] && AllResumed(old(calls), calls, None)
        && dead == (old(dead) || !retryable)
        && (if retryable then Rescheduled(closing, (Off, old(backoff)), (restart, backoff))
            else restart == Off && backoff == old(backoff))
    {
      ResumedTwice(calls);
      restart := Off;
      if closing {
        return;
      }
      if exit && listenerCloses {
        CloseClient();
      }
      SettleWaiters(None);
      if retryable {
        Schedule();
        return;
      }
      dead := true;
    }
  }

  /** Settling twice in a row is settling once. */
  lemma ResumedTwice(calls: map<nat, Call>)
    ensures forall a, b: map<nat, Call> :: AllResumed(calls, a, None) && AllResumed(a, b, None) ==> AllResumed(calls, b, None)
  {}

  // ---------------------------------------------------------------- the invariant

  /** Every ticket ever given is queued or settled, and once. */
  ghost predicate OkTickets(s: State) {
    && Distinct(s.settled + s.waiters)
    && (forall n :: n in s.settled + s.waiters <==> 0 <= n < s.tickets)
    && (forall c :: c in s.calls && s.calls[c].phase.Waiting? ==> s.calls[c].phase.ticket in s.waiters)
    && (forall n :: n in s.waiters ==> exists c :: c in s.calls && s.calls[c].phase == Waiting(n))
  }

  /** One call: at most two posts, and before the second the first Host had exited. */
  ghost predicate OkCall(call: Call, exited: set<nat>, hosts: nat) {
    && |call.posts| <= 2
    && (forall i :: 0 <= i < |call.posts| ==> call.posts[i] < hosts)
    && (|call.posts| == 2 ==> call.posts[0] in exited && call.posts[1] != call.posts[0])
    && (call.phase.Posted? ==> call.posts != [] && call.phase.host == call.posts[|call.posts| - 1])
    && (call.phase.Waiting? ==> |call.posts| <= 1 && (call.posts != [] ==> call.posts[0] in exited))
  }

  ghost predicate OkCalls(s: State) {
    forall c :: c in s.calls ==> OkCall(s.calls[c], s.exited, s.hosts)
  }

  ghost predicate OkHost(s: State) {
    && (s.host.Some? ==> s.host.value < s.hosts && s.host.value !in s.exited && s.restart == Off && !s.closing && !s.dead && s.waiters == [])
    && (forall h :: h in s.exited ==> h < s.hosts)
    && (s.host.None? && !s.closing && !s.dead ==> s.restart != Off)
    && (s.closing || s.dead ==> s.waiters == [] && s.host.None? && !s.restart.Scheduled?)
    && (s.dead && !s.closing ==> s.restart == Off)
    && FIRST_RESTART <= s.backoff <= MAX_RESTART
    && (s.restart.Scheduled? ==> FIRST_RESTART <= s.restart.delay <= MAX_RESTART)
    && (s.host.Some? ==> s.backoff == FIRST_RESTART)
  }

  ghost predicate Valid(s: State) {
    OkTickets(s) && OkCalls(s) && OkHost(s)
  }

  lemma SettleKeeps(s: State, host: Option<nat>)
    requires OkTickets(s)
    ensures OkTickets(SettleAll(s, host)) && SettleAll(s, host).waiters == []
  {
    assert s.settled + s.waiters + [] == s.settled + s.waiters;
  }

  lemma DistinctMore(ns: seq<nat>, n: nat)
    requires Distinct(ns) && n !in ns
    ensures Distinct(ns + [n])
  {}

  lemma ReadyTickets(s: State, c: nat, posts: seq<nat>)
    requires OkTickets(s) && (c in s.calls ==> !s.calls[c].phase.Waiting?)
    ensures OkTickets(Ready(s, c, posts))
  {
    var t := Ready(s, c, posts);
    if t.tickets > s.tickets {
      assert t.settled + t.waiters == s.settled + s.waiters + [s.tickets];
      DistinctMore(s.settled + s.waiters, s.tickets);
      assert t.calls[c].phase == Waiting(s.tickets);
    }
    forall n | n in t.waiters ensures exists d :: d in t.calls && t.calls[d].phase == Waiting(n) {
      if n in s.waiters {
        var d :| d in s.calls && s.calls[d].phase == Waiting(n);
        assert d != c && t.calls[d] == s.calls[d];
      } else {
        assert t.calls[c].phase == Waiting(n);
      }
    }
  }

  /** A call that is not waiting may change in any way that does not make it wait. */
  lemma PhaseTickets(s: State, c: nat, call: Call)
    requires OkTickets(s) && c in s.calls && !s.calls[c].phase.Waiting? && !call.phase.Waiting?
    ensures OkTickets(s.(calls := s.calls[c := call]))
  {
    var t := s.(calls := s.calls[c := call]);
    forall n | n in t.waiters ensures exists d :: d in t.calls && t.calls[d].phase == Waiting(n) {
      var d :| d in s.calls && s.calls[d].phase == Waiting(n);
      assert d != c && t.calls[d] == s.calls[d];
    }
  }

  /** Fields other than the queue's do not matter to the tickets. */
  lemma SameTickets(s: State, t: State)
    requires OkTickets(s) && t.settled == s.settled && t.waiters == s.waiters && t.calls == s.calls && t.tickets == s.tickets
    ensures OkTickets(t)
  {}

  lemma CloseTickets(s: State)
    requires OkTickets(s)
    ensures OkTickets(AfterClose(s))
  {
    hide OkTickets, SettleAll;
    if !s.closing {
      var t := s.(restart := if s.restart.Scheduled? then Off else s.restart);
      SameTickets(s, t);
      SettleKeeps(t, None);
      SameTickets(Fail(t), AfterClose(s));
    }
  }

  lemma FailsTickets(s: State, retryable: bool, exit: bool, listenerCloses: bool)
    requires OkTickets(s)
    ensures OkTickets(AfterStartFails(s, retryable, exit, listenerCloses))
  {
    hide OkTickets, SettleAll, AfterClose;
    var t := s.(restart := Off);
    SameTickets(s, t);
    if !t.closing {
      CloseTickets(t);
      var h := if exit then Heard(t, listenerCloses) else t;
      SettleKeeps(h, None);
      SameTickets(Fail(h), AfterStartFails(s, retryable, exit, listenerCloses));
    }
  }

  lemma ExitTickets(s: State, h: nat, listenerCloses: bool)
    requires OkTickets(s)
    ensures OkTickets(AfterExit(s, h, listenerCloses))
  {
    hide OkTickets, AfterClose;
    var t := s.(exited := s.exited + {h});
    SameTickets(s, t);
    if !t.closing && t.host == Some(h) {
      var u := t.(host := None);
      SameTickets(t, u);
      CloseTickets(u);
      SameTickets(Heard(u, listenerCloses), AfterExit(s, h, listenerCloses));
    }
  }

  lemma StepTickets(s: State, step: Step)
    requires OkTickets(s) && Enabled(s, step)
    ensures OkTickets(Apply(s, step))
  {
    hide OkTickets, Ready, SettleAll, AfterClose, AfterStartFails, AfterExit;
    match step
    case Begin(c) => ReadyTickets(s, c, []);
    case Answered(c) => PhaseTickets(s, c, s.calls[c].(phase := Over(true)));
    case Lost(c, noticed) =>
      if !noticed || |s.calls[c].posts| > 1 {
        PhaseTickets(s, c, s.calls[c].(phase := Over(false)));
      } else {
        ReadyTickets(s, c, s.calls[c].posts);
      }
    case HostExits(h, closes) => ExitTickets(s, h, closes);
    case TimerFires => SameTickets(s, Apply(s, step));
    case Started =>
      if s.closing {
        SameTickets(s, Apply(s, step));
      } else {
        var t := s.(host := Some(s.hosts), hosts := s.hosts + 1, backoff := FIRST_RESTART, restart := Off);
        SameTickets(s, t);
        SettleKeeps(t, Some(s.hosts));
      }
    case StartFails(retryable, exit, closes) => FailsTickets(s, retryable, exit, closes);
    case Close => CloseTickets(s);
  }

  lemma StepHost(s: State, step: Step)
    requires OkHost(s) && Enabled(s, step)
    ensures OkHost(Apply(s, step))
  {}

  /** A call whose first Host is gone is given another one. */
  lemma ReadyCalls(s: State, c: nat, posts: seq<nat>)
    requires OkCalls(s) && OkHost(s) && |posts| <= 1 && (posts != [] ==> posts[0] in s.exited)
    ensures OkCalls(Ready(s, c, posts))
  {}

  lemma SettleCalls(s: State, host: Option<nat>)
    requires OkCalls(s) && (host.Some? ==> host.value < s.hosts && host.value !in s.exited)
    ensures OkCalls(SettleAll(s, host))
  {
    var t := SettleAll(s, host);
    forall c | c in t.calls ensures OkCall(t.calls[c], t.exited, t.hosts) {
      assert OkCall(s.calls[c], s.exited, s.hosts);
    }
  }

  /** More Hosts, or more of them gone, are no harm to a call. */
  lemma MoreHosts(s: State, t: State)
    requires OkCalls(s) && t.calls == s.calls && s.exited <= t.exited && s.hosts <= t.hosts
    ensures OkCalls(t)
  {
    forall c | c in t.calls ensures OkCall(t.calls[c], t.exited, t.hosts) {
      assert OkCall(s.calls[c], s.exited, s.hosts);
    }
  }

  lemma CloseCalls(s: State)
    requires OkCalls(s)
    ensures OkCalls(AfterClose(s))
  {
    hide OkCalls, SettleAll;
    if !s.closing {
      var t := s.(restart := if s.restart.Scheduled? then Off else s.restart);
      MoreHosts(s, t);
      SettleCalls(t, None);
      MoreHosts(Fail(t), AfterClose(s));
    }
  }

  lemma ExitCalls(s: State, h: nat, closes: bool)
    requires OkCalls(s)
    ensures OkCalls(AfterExit(s, h, closes))
  {
    hide OkCalls, AfterClose;
    var t := s.(exited := s.exited + {h});
    MoreHosts(s, t);
    if !t.closing && t.host == Some(h) {
      MoreHosts(t, t.(host := None));
      CloseCalls(t.(host := None));
      MoreHosts(Heard(t.(host := None), closes), AfterExit(s, h, closes));
    }
  }

  lemma FailsCalls(s: State, retryable: bool, exit: bool, closes: bool)
    requires OkCalls(s)
    ensures OkCalls(AfterStartFails(s, retryable, exit, closes))
  {
    hide OkCalls, AfterClose, SettleAll;
    var t := s.(restart := Off);
    MoreHosts(s, t);
    if !t.closing {
      CloseCalls(t);
      var h := if exit then Heard(t, closes) else t;
      SettleCalls(h, None);
      MoreHosts(Fail(h), AfterStartFails(s, retryable, exit, closes));
    }
  }

  lemma OneCall(s: State, c: nat, answered: bool)
    requires OkCalls(s) && c in s.calls
    ensures OkCalls(s.(calls := s.calls[c := s.calls[c].(phase := Over(answered))]))
    ensures s.calls[c].phase.Posted? && s.calls[c].phase.host in s.exited && |s.calls[c].posts| <= 1 ==>
      s.calls[c].posts != [] && s.calls[c].posts[0] in s.exited
  {
    assert OkCall(s.calls[c], s.exited, s.hosts);
  }

  lemma StepCalls(s: State, step: Step)
    requires OkCalls(s) && OkHost(s) && Enabled(s, step)
    ensures OkCalls(Apply(s, step))
  {
    hide OkCalls, Ready, SettleAll, AfterClose, AfterStartFails, AfterExit, OkCall;
    match step
    case Begin(c) => ReadyCalls(s, c, []);
    case Answered(c) => OneCall(s, c, true);
    case Lost(c, noticed) =>
      OneCall(s, c, false);
      if noticed && |s.calls[c].posts| <= 1 {
        ReadyCalls(s, c, s.calls[c].posts);
      }
    case HostExits(h, closes) => ExitCalls(s, h, closes);
    case TimerFires => MoreHosts(s, Apply(s, step));
    case Started =>
      if s.closing {
        MoreHosts(s, Apply(s, step));
      } else {
        var t := s.(host := Some(s.hosts), hosts := s.hosts + 1, backoff := FIRST_RESTART, restart := Off);
        MoreHosts(s, t);
        SettleCalls(t, Some(s.hosts));
      }
    case StartFails(retryable, exit, closes) => FailsCalls(s, retryable, exit, closes);
    case Close => CloseCalls(s);
  }

  lemma StepKeepsValid(s: State, step: Step)
    requires Valid(s) && Enabled(s, step)
    ensures Valid(Apply(s, step))
  {
    hide Apply, Enabled, OkTickets, OkCalls, OkHost;
    StepTickets(s, step);
    StepHost(s, step);
    StepCalls(s, step);
  }

  lemma {:induction false} RunKeepsValid(s: State, steps: seq<Step>)
    requires Valid(s) && Follows(s, steps)
    ensures Valid(Run(s, steps))
    decreases |steps|
  {
    hide Valid, Enabled, Apply;
    if steps != [] {
      StepKeepsValid(s, steps[0]);
      RunKeepsValid(Apply(s, steps[0]), steps[1..]);
    }
  }

  lemma ConnectedValid()
    ensures Valid(CONNECTED)
  {}

  /** What a step does to one call that it does not start, answer or lose. */
  lemma StepResumes(s: State, step: Step, c: nat)
    requires Valid(s) && Enabled(s, step) && c in s.calls && step != Answered(c) && !(step.Lost? && step.c == c)
    ensures c in Apply(s, step).calls
    ensures step.Started? && !s.closing ==> Resumed(s.calls[c], Apply(s, step).calls[c], Some(s.hosts))
    ensures (step.StartFails? || step.Close?) && !s.closing ==> Resumed(s.calls[c], Apply(s, step).calls[c], None)
    ensures !Ends(step) || s.closing ==> Apply(s, step).calls[c] == s.calls[c]
  {
    hide OkTickets, OkCalls;
    if step.HostExits? && s.host == Some(step.h) && s.calls[c].phase.Waiting? {
      NoneWaits(s, c);
    }
  }

  /** Nobody waits while a Host is there. */
  lemma NoneWaits(s: State, c: nat)
    requires Valid(s) && s.host.Some? && c in s.calls
    ensures !s.calls[c].phase.Waiting?
  {}

  /** What a call does when it begins, is answered, or loses its Host: it is sent once more only if its first Host was seen to exit. */
  lemma CallMoves(s: State, c: nat, step: Step)
    requires Enabled(s, step)
    ensures step == Begin(c) ==> Reached(s, c, [], Apply(s, step))
    ensures step == Answered(c) ==> Apply(s, step) == s.(calls := s.calls[c := Call(Over(true), s.calls[c].posts)])
    ensures step.Lost? && step.c == c ==>
      if step.noticed && |s.calls[c].posts| <= 1 then Reached(s, c, s.calls[c].posts, Apply(s, step))
      else Apply(s, step) == s.(calls := s.calls[c := Call(Over(false), s.calls[c].posts)])
  {}

  // ---------------------------------------------------------------- what every run guarantees

  /**
   * In every run: each caller that queued is still queued or was settled, and settled once; while one is queued
   * a restart is scheduled or in flight; the backoff stays within its bounds, and is at its first value while a Host is adopted.
   */
  lemma WaitersSettledOnce(steps: seq<Step>)
    requires Follows(CONNECTED, steps)
    ensures
      var s := Run(CONNECTED, steps);
      && Distinct(s.settled + s.waiters)
      && (forall n :: 0 <= n < s.tickets <==> n in s.settled + s.waiters)
      && (s.waiters != [] ==> s.restart != Off && s.host.None? && !s.closing && !s.dead)
      && FIRST_RESTART <= s.backoff <= MAX_RESTART && (s.host.Some? ==> s.backoff == FIRST_RESTART)
  {
    ConnectedValid();
    RunKeepsValid(CONNECTED, steps);
  }

  /** In every run a call posts at most twice, and the second time only after the first Host had exited, to another one. */
  lemma PostedTwiceAtMost(steps: seq<Step>, c: nat)
    requires Follows(CONNECTED, steps) && c in Run(CONNECTED, steps).calls
    ensures
      var s := Run(CONNECTED, steps);
      var posts := s.calls[c].posts;
      |posts| <= 2 && (|posts| == 2 ==> posts[0] in s.exited && posts[1] != posts[0])
  {
    ConnectedValid();
    RunKeepsValid(CONNECTED, steps);
    assert OkCall(Run(CONNECTED, steps).calls[c], Run(CONNECTED, steps).exited, Run(CONNECTED, steps).hosts);
  }

  lemma ClosedStep(s: State, step: Step)
    requires Valid(s) && s.closing && Enabled(s, step)
    ensures
      var t := Apply(s, step);
      t.closing && t.host.None? && !t.restart.Scheduled? && t.waiters == [] && t.tickets == s.tickets
  {
    hide OkTickets, OkCalls;
  }

  /** Once close has begun, no child is adopted, no restart is scheduled and no caller queues, in any later state. */
  lemma {:induction false} ClosedStays(s: State, steps: seq<Step>)
    requires Valid(s) && s.closing && Follows(s, steps)
    ensures
      var t := Run(s, steps);
      t.closing && t.host.None? && !t.restart.Scheduled? && t.waiters == [] && t.tickets == s.tickets
    decreases |steps|
  {
    hide Apply, Enabled, OkTickets, OkCalls;
    if steps != [] {
      StepKeepsValid(s, steps[0]);
      ClosedStep(s, steps[0]);
      ClosedStays(Apply(s, steps[0]), steps[1..]);
    }
  }

  /** A client that is neither closed nor dead always has a Host or is getting one. */
  lemma NeverIdleWithoutHost(steps: seq<Step>)
    requires Follows(CONNECTED, steps)
    ensures
      var s := Run(CONNECTED, steps);
      s.host.Some? || s.closing || s.dead || s.restart != Off
  {
    ConnectedValid();
    RunKeepsValid(CONNECTED, steps);
  }

  /** A step that takes every waiter out of the queue: a start that ended either way, or the close. */
  predicate Ends(step: Step) {
    step.Started? || step.StartFails? || step.Close?
  }

  /** In every run, a restart that succeeds on an open client posts every waiting call to the new Host; one that fails ends them. */
  lemma AdoptionPosts(steps: seq<Step>, c: nat, retryable: bool)
    requires Follows(CONNECTED, steps)
    requires var s := Run(CONNECTED, steps);
      s.restart.Starting? && !s.closing && c in s.calls && s.calls[c].phase.Waiting?
    ensures
      var s := Run(CONNECTED, steps);
      var t, u := Apply(s, Started), Apply(s, StartFails(retryable, false, false));
      && t.host == Some(s.hosts) && c in t.calls && t.calls[c] == Call(Posted(s.hosts), s.calls[c].posts + [s.hosts])
      && c in u.calls && u.calls[c] == Call(Over(false), s.calls[c].posts)
      && (if retryable then u.restart == Scheduled(s.backoff) && !u.dead else u.restart == Off && u.dead)
  {
    ConnectedValid();
    RunKeepsValid(CONNECTED, steps);
    var s := Run(CONNECTED, steps);
    StepResumes(s, Started, c);
    StepResumes(s, StartFails(retryable, false, false), c);
  }

  lemma EndsQueue(s: State, step: Step)
    requires Valid(s) && Enabled(s, step) && s.waiters != []
    ensures s.settled <= Apply(s, step).settled
    ensures Ends(step) ==> forall n :: n in s.waiters ==> n in Apply(s, step).settled
    ensures !Ends(step) ==> forall n :: n in s.waiters ==> n in Apply(s, step).waiters
  {
    hide OkTickets, OkCalls;
  }

  lemma SettledStays(s: State, step: Step)
    requires Enabled(s, step)
    ensures s.settled <= Apply(s, step).settled
  {}

  lemma {:induction false} RunSettles(s: State, steps: seq<Step>, n: nat)
    requires Valid(s) && Follows(s, steps) && (n in s.waiters || n in s.settled)
    ensures n in s.settled || (exists i :: 0 <= i < |steps| && Ends(steps[i])) ==> n in Run(s, steps).settled
    ensures !(n in s.settled || (exists i :: 0 <= i < |steps| && Ends(steps[i]))) ==> n in Run(s, steps).waiters
    decreases |steps|
  {
    hide Valid, Apply, Enabled;
    if steps != [] {
      var t := Apply(s, steps[0]);
      StepKeepsValid(s, steps[0]);
      SettledStays(s, steps[0]);
      if n in s.waiters {
        EndsQueue(s, steps[0]);
      }
      StillIn(s.settled, t.settled, n);
      QueuedOnce(t, n);
      RunSettles(t, steps[1..], n);
      SomeEnd(steps);
    }
  }

  lemma StillIn(a: seq<nat>, b: seq<nat>, n: nat)
    requires a <= b
    ensures n in a ==> n in b
  {
    if i :| 0 <= i < |a| && a[i] == n {
      assert b[i] == n;
    }
  }

  lemma SomeEnd(steps: seq<Step>)
    requires steps != []
    ensures (exists i :: 0 <= i < |steps| && Ends(steps[i])) <==>
      Ends(steps[0]) || exists i :: 0 <= i < |steps[1..]| && Ends(steps[1..][i])
  {
    if i :| 0 <= i < |steps| && Ends(steps[i]) {
      if i > 0 {
        assert Ends(steps[1..][i - 1]);
      }
    }
    if i :| 0 <= i < |steps[1..]| && Ends(steps[1..][i]) {
      assert Ends(steps[i + 1]);
    }
  }

  /** From wherever a caller is queued, it is settled by exactly those runs in which a start ends, well or badly, or the client closes. */
  lemma RestartSettles(before: seq<Step>, after: seq<Step>, n: nat)
    requires Follows(CONNECTED, before) && Follows(Run(CONNECTED, before), after) && n in Run(CONNECTED, before).waiters
    ensures
      var e := Run(Run(CONNECTED, before), after);
      && (n in e.settled <==> exists i :: 0 <= i < |after| && (after[i].Started? || after[i].StartFails? || after[i].Close?))
      && (n in e.settled <==> n !in e.waiters)
  {
    hide Valid;
    ConnectedValid();
    RunKeepsValid(CONNECTED, before);
    var s := Run(CONNECTED, before);
    QueuedOnce(s, n);
    RunSettles(s, after, n);
    RunKeepsValid(s, after);
    QueuedOnce(Run(s, after), n);
    assert forall i :: 0 <= i < |after| ==> (Ends(after[i]) <==> after[i].Started? || after[i].StartFails? || after[i].Close?);
  }

  lemma QueuedOnce(s: State, n: nat)
    requires Valid(s)
    ensures n in s.waiters ==> n !in s.settled
  {
    if n in s.waiters {
      var j :| 0 <= j < |s.waiters| && s.waiters[j] == n;
      var all := s.settled + s.waiters;
      forall i | 0 <= i < |s.settled| ensures s.settled[i] != n {
        assert all[i] == s.settled[i] && all[|s.settled| + j] == n;
      }
    }
  }
}
