/**
 * Write notifications of notifications.ts, and why a follower of the feed never sleeps past a write:
 * it captures the revision before it asks for its page, and sleeps only on that revision.
 */
module Notifications {
  import opened Bytes

  datatype Outcome = Fulfilled | Refused

  /** One follower's watch; `armed` while its wait is pending, and otherwise `last` is how the last wait ended. */
  datatype Watch = Watch(session: string, revision: nat, armed: bool, failed: bool, last: Option<Outcome>)

  function Woken(w: Watch, outcome: Outcome): Watch {
    if w.armed then w.(armed := false, last := Some(outcome)) else w
  }

  function Notified(w: Watch): Watch {
    Woken(w.(revision := w.revision + 1), Fulfilled)
  }

  function Failed(w: Watch): Watch {
    Woken(w.(failed := true), Refused)
  }

  /** `wait`: settled at once, or armed until a notification, a failure, an abort or the close. */
  function Waited(w: Watch, revision: nat, aborted: bool): Watch {
    if aborted then w.(last := Some(Fulfilled))
    else if w.failed then w.(last := Some(Refused))
    else if w.revision != revision then w.(last := Some(Fulfilled))
    else w.(armed := true, last := None)
  }

  class SessionNotifications {
    var sessions: map<string, set<nat>>
    var watches: map<nat, Watch>
    var next: nat

    /** Only sessions with active followers are in the map, each follower under its session. */
    ghost predicate Valid()
      reads this
    {
      && (forall s :: s in sessions ==> sessions[s] != {})
      && (forall s, id :: s in sessions && id in sessions[s] ==> id in watches && watches[id].session == s)
      && (forall id :: id in watches ==> id < next)
    }

    function Followers(session: string): set<nat>
      reads this
    {
      if session in sessions then sessions[session] else {}
    }

    constructor ()
      ensures Valid() && sessions == map[] && watches == map[]
    {
      sessions, watches, next := map[], map[], 0;
    }

    method Follow(session: string) returns (id: nat)
      requires Valid()
      modifies this
      ensures Valid() && id !in old(watches)
      ensures watches == old(watches)[id := Watch(session, 0, false, false, None)]
      ensures Followers(session) == old(Followers(session)) + {id}
      ensures forall s :: s != session ==> Followers(s) == old(Followers(s))
    {
      id := next;
      next := next + 1;
      watches := watches[id := Watch(session, 0, false, false, None)];
      sessions := sessions[session := Followers(session) + {id}];
    }

    /** Wakes every follower of the session and moves its revision on; no one else notices. */
    method Notify(session: string)
      requires Valid()
      modifies this`watches
      ensures Valid() && watches.Keys == old(watches).Keys
      ensures forall id :: id in watches ==>
        watches[id] == if id in Followers(session) then Notified(old(watches)[id]) else old(watches)[id]
      ensures forall id :: id in Followers(session) ==>
        && watches[id].revision == old(watches)[id].revision + 1 && !watches[id].armed
        && watches[id].failed == old(watches)[id].failed
        && watches[id].last == if old(watches)[id].armed then Some(Fulfilled) else old(watches)[id].last
    {
      var todo := Followers(session);
      while todo != {}
        invariant todo <= Followers(session) && watches.Keys == old(watches).Keys
        invariant forall id :: id in watches ==>
          watches[id] == if id in Followers(session) && id !in todo then Notified(old(watches)[id]) else old(watches)[id]
        decreases |todo|
      {
        var id :| id in todo;
        watches := watches[id := Notified(watches[id])];
        todo := todo - {id};
      }
    }

    /** Takes a watch out of its session, and the session out of the map with its last one. */
    method Release(id: nat)
      requires Valid() && id in watches
      modifies this`sessions
      ensures Valid() && Followers(watches[id].session) == old(Followers(watches[id].session)) - {id}
      ensures forall s :: s != watches[id].session ==> Followers(s) == old(Followers(s))
    {
      var session := watches[id].session;
      if session in sessions {
        var left := sessions[session] - {id};
        if left == {} {
          sessions := sessions - {session};
        } else {
          sessions := sessions[session := left];
        }
      }
    }

    method Close(id: nat)
      requires Valid() && id in watches
      modifies this`sessions, this`watches
      ensures Valid() && watches == old(watches)[id := Woken(old(watches)[id], Fulfilled)]
      ensures forall s :: Followers(s) == old(Followers(s)) - (if s == old(watches)[id].session then {id} else {})
    {
      watches := watches[id := Woken(watches[id], Fulfilled)];
      Release(id);
    }

    /** Rejects and releases one follower, waiting or not. */
    method Fail(id: nat)
      requires Valid() && id in watches
      modifies this`sessions, this`watches
      ensures Valid() && watches == old(watches)[id := Failed(old(watches)[id])]
      ensures watches[id].failed && !watches[id].armed && watches[id].revision == old(watches)[id].revision
      ensures watches[id].last == if old(watches)[id].armed then Some(Refused) else old(watches)[id].last
      ensures forall s :: Followers(s) == old(Followers(s)) - (if s == old(watches)[id].session then {id} else {})
    {
      watches := watches[id := Failed(watches[id])];
      Release(id);
    }

    /** Who is under its session in the map. */
    ghost predicate Listed(id: nat)
      reads this
    {
      id in watches && id in Followers(watches[id].session)
    }

    /** Rejects and releases every follower of every session, also one still reading its page. */
    method FailAll()
      requires Valid()
      modifies this`sessions, this`watches
      ensures Valid() && sessions == map[] && watches.Keys == old(watches).Keys
      ensures forall id :: id in watches ==>
        watches[id] == if old(Listed(id)) then Failed(old(watches)[id]) else old(watches)[id]
    {
      ghost var left := set id | id in watches && Listed(id);
      while sessions != map[]
        invariant Valid() && watches.Keys == old(watches).Keys
        invariant forall id :: id in left <==> Listed(id)
        invariant forall id :: id in left ==> old(Listed(id))
        invariant forall id :: id in watches ==>
          watches[id] == if old(Listed(id)) && id !in left then Failed(old(watches)[id]) else old(watches)[id]
        decreases left
      {
        var session :| session in sessions;
        var id :| id in sessions[session];
        assert Listed(id);
        Fail(id);
        left := left - {id};
      }
      assert forall id :: !Listed(id);
    }

    /** A follower waits for one thing at a time. */
    method Wait(id: nat, revision: nat, aborted: bool) returns (settled: bool)
      requires Valid() && id in watches && !watches[id].armed
      modifies this`watches
      ensures Valid() && watches == old(watches)[id := Waited(old(watches)[id], revision, aborted)]
      ensures settled == !watches[id].armed
      ensures settled <==> aborted || old(watches)[id].failed || old(watches)[id].revision != revision
      ensures watches[id].last ==
        if !settled then None else if old(watches)[id].failed && !aborted then Some(Refused) else Some(Fulfilled)
    {
      var w := watches[id];
      if aborted {
        watches := watches[id := w.(last := Some(Fulfilled))];
        return true;
      }
      if w.failed {
        watches := watches[id := w.(last := Some(Refused))];
        return true;
      }
      if w.revision != revision {
        watches := watches[id := w.(last := Some(Fulfilled))];
        return true;
      }
      watches := watches[id := w.(armed := true, last := None)];
      settled := false;
    }
  }

  // ---------------------------------------------------------------- no lost wakeup

  /** Where a follower is in one turn of its loop. `seen` is how many writes the Host had committed when it served the page. */
  datatype Turn = Asking | Captured(revision: nat) | Served(revision: nat, seen: nat, dormant: bool) | Sleeping(seen: nat)

  /**
   * Writes to the session commit at the Host, and are notified here afterwards, `pending` of them not yet;
   * the follower's page is served at some moment between the request and the reply.
   */
  datatype State = State(committed: nat, pending: nat, base: nat, watch: Watch, turn: Turn)

  datatype Step = Commit | Notify | Capture | Serve(dormant: bool) | Decide(aborted: bool) | Fail | Abort

  predicate Enabled(s: State, step: Step) {
    match step
    case Commit => true
    case Notify => s.pending > 0
    case Capture => s.turn.Asking?
    case Serve(_) => s.turn.Captured?
    case Decide(_) => s.turn.Served?
    case Fail => true
    case Abort => true
  }

  /** A sleeping follower resumes as soon as its wait has settled. */
  function Settle(s: State): State {
    if s.turn.Sleeping? && !s.watch.armed then s.(turn := Asking) else s
  }

  function Apply(s: State, step: Step): State {
    match step
    case Commit => s.(committed := s.committed + 1, pending := s.pending + 1)
    case Notify => if s.pending == 0 then s else Settle(s.(pending := s.pending - 1, watch := Notified(s.watch)))
    case Capture => s.(turn := Captured(s.watch.revision))
    case Serve(dormant) => if s.turn.Captured? then s.(turn := Served(s.turn.revision, s.committed, dormant)) else s
    case Decide(aborted) =>
      if !s.turn.Served? then s
      else if !s.turn.dormant then s.(turn := Asking)
      else Settle(s.(watch := Waited(s.watch, s.turn.revision, aborted), turn := Sleeping(s.turn.seen)))
    case Fail => Settle(s.(watch := Failed(s.watch)))
    case Abort => Settle(s.(watch := Woken(s.watch, Fulfilled)))
  }

  ghost predicate Follows(s: State, steps: seq<Step>)
    decreases |steps|
  {
    steps != [] ==> Enabled(s, steps[0]) && Follows(Apply(s, steps[0]), steps[1..])
  }

  function Run(s: State, steps: seq<Step>): State
    decreases |steps|
  {
    if steps == [] then s else Run(Apply(s, steps[0]), steps[1..])
  }

  /** `base` writes had been notified when the watch was taken out. */
  ghost predicate Initial(s: State) {
    s.turn == Asking && s.watch.revision == 0 && !s.watch.armed && s.committed == s.base + s.pending
  }

  ghost predicate Valid(s: State) {
    && s.committed == s.base + s.watch.revision + s.pending
    && (s.watch.armed <==> s.turn.Sleeping?)
    && (s.turn.Captured? ==> s.turn.revision <= s.watch.revision)
    && (s.turn.Served? ==> s.turn.revision <= s.watch.revision && s.base + s.turn.revision <= s.turn.seen)
    && (s.turn.Sleeping? ==> s.base + s.watch.revision <= s.turn.seen)
  }

  lemma StepKeepsValid(s: State, step: Step)
    requires Valid(s) && Enabled(s, step)
    ensures Valid(Apply(s, step))
  {}

  lemma {:induction false} RunKeepsValid(s: State, steps: seq<Step>)
    requires Valid(s) && Follows(s, steps)
    ensures Valid(Run(s, steps))
    decreases |steps|
  {
    hide Valid, Enabled, Apply;
    if steps != [] {
      StepKeepsValid(s, steps[0]);
      RunKeepsValid(Apply(s, steps[0]), steps[1..]);
    }
  }

  /**
   * In every interleaving, a follower that sleeps has seen every write notified so far: the page it slept on
   * was served after they committed. Any further notification, a failure or an abort wakes it.
   */
  lemma NeverSleepsPast(s: State, steps: seq<Step>)
    requires Initial(s) && Follows(s, steps)
    ensures
      var e := Run(s, steps);
      && (e.turn.Sleeping? ==> e.committed - e.pending <= e.turn.seen)
      && (e.turn.Sleeping? && e.pending > 0 ==> Apply(e, Notify).turn == Asking)
      && (e.turn.Sleeping? ==> Apply(e, Fail).turn == Asking && Apply(e, Fail).watch.last == Some(Refused))
      && (e.turn.Sleeping? ==> Apply(e, Abort).turn == Asking)
  {
    RunKeepsValid(s, steps);
  }
}
