/**
 * The Session feed of feed.ts: paging through a growing log of rows, resuming from a cursor,
 * and following new rows.
 *
 * The Host is a log that only grows, past every end it has named, and answers a page request
 * with the first of the rows asked for. Row contents, which are read on their own, are left out.
 */
module Feed {
  import opened Bytes

  const PAGE_ROWS := 16
  const FIRST_POLL := 250
  const MAX_POLL := 2000

  datatype Row = Row(position: nat, ordinal: nat, kind: nat)

  /** A place between rows: after a row, or without an ordinal after every row of a position. */
  datatype Spot = Spot(position: nat, ordinal: Option<nat>)

  function SpotOf(r: Row): Spot {
    Spot(r.position, Some(r.ordinal))
  }

  function EndSpot(end: nat): Spot {
    Spot(end, None)
  }

  predicate After(r: Row, s: Spot) {
    r.position > s.position || (r.position == s.position && s.ordinal.Some? && r.ordinal > s.ordinal.value)
  }

  predicate NotPast(a: Spot, b: Spot) {
    || a.position < b.position
    || (a.position == b.position && (b.ordinal.None? || (a.ordinal.Some? && a.ordinal.value <= b.ordinal.value)))
  }

  predicate InOrder(log: seq<Row>) {
    forall i, j :: 0 <= i < j < |log| ==> After(log[j], SpotOf(log[i]))
  }

  /** Rows are ordered by position and then by ordinal, and the end of a position lies after all of its rows. */
  lemma SpotsExact(r: Row, q: Row, end: nat)
    ensures After(r, SpotOf(q)) <==> q.position < r.position || (q.position == r.position && q.ordinal < r.ordinal)
    ensures After(r, EndSpot(end)) <==> end < r.position
    ensures NotPast(SpotOf(q), SpotOf(r)) <==> !After(q, SpotOf(r))
  {}

  /** The wanted rows after one spot and not after another, in log order. */
  function Rows(log: seq<Row>, from': Spot, upto: Spot, kinds: set<nat>): seq<Row> {
    if log == [] then []
    else
      var n := |log| - 1;
      Rows(log[..n], from', upto, kinds)
      + (if After(log[n], from') && !After(log[n], upto) && log[n].kind in kinds then [log[n]] else [])
  }

  // ---------------------------------------------------------------- rows between spots

  lemma {:induction false} RowsIn(log: seq<Row>, a: Spot, b: Spot, kinds: set<nat>)
    requires InOrder(log)
    ensures InOrder(Rows(log, a, b, kinds))
    ensures forall r :: r in Rows(log, a, b, kinds) <==> r in log && After(r, a) && !After(r, b) && r.kind in kinds
  {
    if log != [] {
      var n := |log| - 1;
      RowsIn(log[..n], a, b, kinds);
      var front := Rows(log[..n], a, b, kinds);
      assert log == log[..n] + [log[n]];
      forall i | 0 <= i < |front| ensures After(log[n], SpotOf(front[i])) {
        assert front[i] in front && front[i] in log[..n];
      }
    }
  }

  /** The rows up to a middle spot, then the rows from it. */
  lemma {:induction false} RowsSplit(log: seq<Row>, a: Spot, b: Spot, c: Spot, kinds: set<nat>)
    requires InOrder(log) && NotPast(a, b) && NotPast(b, c)
    ensures Rows(log, a, c, kinds) == Rows(log, a, b, kinds) + Rows(log, b, c, kinds)
  {
    if log != [] {
      var n := |log| - 1;
      RowsSplit(log[..n], a, b, c, kinds);
      if !After(log[n], b) {
        NoneAfter(log[..n], b, c, kinds);
      }
    }
  }

  lemma {:induction false} NoneAfter(log: seq<Row>, b: Spot, c: Spot, kinds: set<nat>)
    requires forall i :: 0 <= i < |log| ==> !After(log[i], b)
    ensures Rows(log, b, c, kinds) == []
  {
    if log != [] {
      NoneAfter(log[..|log| - 1], b, c, kinds);
    }
  }

  /** Rows appended past the end of a range are not in it. */
  lemma {:induction false} RowsGrow(log: seq<Row>, more: seq<Row>, a: Spot, b: Spot, kinds: set<nat>)
    requires log <= more && forall i :: |log| <= i < |more| ==> After(more[i], b)
    ensures Rows(more, a, b, kinds) == Rows(log, a, b, kinds)
    decreases |more|
  {
    if |more| > |log| {
      RowsGrow(log, more[..|more| - 1], a, b, kinds);
    } else {
      assert log == more;
    }
  }

  /** The first row of a range, and the range after it. */
  lemma RowsFirst(log: seq<Row>, a: Spot, c: Spot, kinds: set<nat>)
    requires InOrder(log) && Rows(log, a, c, kinds) != []
    ensures
      var rows := Rows(log, a, c, kinds);
      var b := SpotOf(rows[0]);
      && NotPast(a, b) && NotPast(b, c)
      && Rows(log, a, b, kinds) == [rows[0]] && Rows(log, b, c, kinds) == rows[1..]
  {
    var rows := Rows(log, a, c, kinds);
    var r := rows[0];
    var b := SpotOf(r);
    RowsIn(log, a, c, kinds);
    assert r in rows;
    RowsSplit(log, a, b, c, kinds);
    var left := Rows(log, a, b, kinds);
    RowsIn(log, a, b, kinds);
    assert r in left;
    assert rows == left + Rows(log, b, c, kinds) && left[0] == rows[0];
    OnlyOne(left, r);
  }

  lemma OnlyOne(left: seq<Row>, r: Row)
    requires InOrder(left) && left != [] && left[0] == r && forall x :: x in left ==> !After(x, SpotOf(r))
    ensures left == [r]
  {
    var last := left[|left| - 1];
    assert last in left;
    assert After(last, SpotOf(left[0])) || |left| == 1;
  }

  /** Resuming after any row of a range gives exactly the rest of it. */
  lemma {:induction false} ResumeSuffix(log: seq<Row>, a: Spot, c: Spot, kinds: set<nat>, i: nat)
    requires InOrder(log) && i < |Rows(log, a, c, kinds)|
    ensures Rows(log, SpotOf(Rows(log, a, c, kinds)[i]), c, kinds) == Rows(log, a, c, kinds)[i + 1..]
    decreases i
  {
    RowsFirst(log, a, c, kinds);
    if i > 0 {
      ResumeSuffix(log, SpotOf(Rows(log, a, c, kinds)[0]), c, kinds, i - 1);
    }
  }

  // ---------------------------------------------------------------- the Host's side

  /** The Host's log and the end it names: every row is at or before it. */
  predicate OkLog(log: seq<Row>, end: nat) {
    InOrder(log) && forall i :: 0 <= i < |log| ==> 0 < log[i].position <= end
  }

  /** The log grew: nothing changed, and what is new lies past the end named before. */
  predicate Grew(log: seq<Row>, end: nat, log': seq<Row>, end': nat) {
    && OkLog(log', end') && log <= log' && end <= end'
    && forall i :: |log| <= i < |log'| ==> log'[i].position > end
  }

  datatype Reply =
    | NotModified(token: nat)
    | Page(items: seq<Row>, more: bool, end: nat, token: nat, dormant: bool)

  /**
   * The page contract: at most sixteen of the first rows after the spot, up to the end asked for or the
   * current one, and whether there are more; or, to a request with a token, that nothing has changed.
   */
  ghost predicate Answers(log: seq<Row>, end: nat, pinned: Option<nat>, at: Spot, kinds: set<nat>, since: Option<nat>, reply: Reply) {
    match reply
    case NotModified(_) => since.Some? && Rows(log, at, EndSpot(end), kinds) == []
    case Page(items, more, named, _, _) =>
      && named == (if pinned.Some? then pinned.value else end)
      && items <= Rows(log, at, EndSpot(named), kinds) && |items| <= PAGE_ROWS
      && (more <==> items != Rows(log, at, EndSpot(named), kinds))
      && (more ==> items != [])
  }

  // ---------------------------------------------------------------- the client's side

  /** What the iterator does after a reply: ask again at once, after a pause or a notification, or end. */
  datatype Next = Again | Pause(ms: nat) | Sleep | Done | Aborted

  /** The iterator's variables between two requests, and what it has yielded. */
  datatype Place = Place(at: Spot, pinned: Option<nat>, since: Option<nat>, wait: nat, idle: bool, yielded: seq<Row>)

  /** Every wanted row from the start to the place was yielded, once, in order. */
  ghost predicate OkPlace(p: Place, start: Spot, kinds: set<nat>, follow: bool, log: seq<Row>, end: nat) {
    && OkLog(log, end)
    && NotPast(start, p.at) && p.at.position <= end
    && p.yielded == Rows(log, start, p.at, kinds)
    && (p.pinned.Some? ==> !follow && NotPast(p.at, EndSpot(p.pinned.value)) && p.pinned.value <= end)
    && FIRST_POLL <= p.wait <= MAX_POLL
  }

  function Read(p: Place, items: seq<Row>): Place {
    if items == [] then p else p.(at := SpotOf(items[|items| - 1]), yielded := p.yielded + items)
  }

  /** With nothing received: asleep until a write when the work is dormant, and otherwise a pause that grows. */
  function Idle(p: Place): (Place, Next) {
    if p.idle then (p.(wait := FIRST_POLL), Sleep)
    else (p.(wait := if p.wait * 2 < MAX_POLL then p.wait * 2 else MAX_POLL), Pause(p.wait))
  }

  /** A turn of the loop from a reply on, if the consumer does not stop it. */
  function AfterReply(follow: bool, p: Place, reply: Reply): (Place, Next) {
    match reply
    case NotModified(token) => Idle(p.(since := Some(token)))
    case Page(items, more, end, token, dormant) =>
      var q := Read(p, items);
      if more then (q.(pinned := if follow then None else Some(end), since := None, wait := FIRST_POLL), Again)
      else if !follow then (q, Done)
      else
        var e := q.(pinned := None, at := Spot(end, None), since := Some(token), idle := dormant);
        if items != [] then (e.(wait := FIRST_POLL), Again) else Idle(e)
  }

  class Listing {
    const kinds: set<nat>
    const follow: bool
    const start: Spot
    var at: Spot
    var pinned: Option<nat>
    var since: Option<nat>
    var wait: nat
    var idle: bool
    var yielded: seq<Row>

    function Now(): Place
      reads this
    {
      Place(at, pinned, since, wait, idle, yielded)
    }

    ghost predicate Valid(log: seq<Row>, end: nat)
      reads this
    {
      OkPlace(Now(), start, kinds, follow, log, end)
    }

    constructor (start: Spot, kinds: set<nat>, follow: bool, ghost log: seq<Row>, ghost end: nat)
      requires OkLog(log, end) && start.position <= end
      ensures Valid(log, end) && this.start == start && this.kinds == kinds && this.follow == follow
      ensures yielded == [] && at == start && pinned == None && since == None
    {
      this.start, this.kinds, this.follow := start, kinds, follow;
      at, pinned, since, wait, idle, yielded := start, None, None, FIRST_POLL, false, [];
      new;
      NothingBetween(log, start, kinds);
    }

    /** Yields the rows of a page. `stop` is the item before which the consumer's signal was seen, if it was. */
    method YieldItems(items: seq<Row>, stop: Option<nat>, ghost log: seq<Row>, ghost end: nat, ghost upto: Spot) returns (all: bool)
      requires Valid(log, end) && NotPast(at, upto) && upto.position <= end
      requires items <= Rows(log, at, upto, kinds)
      requires pinned.Some? ==> upto == EndSpot(pinned.value)
      modifies this`at, this`yielded
      ensures Valid(log, end) && NotPast(at, upto)
      ensures old(yielded) <= yielded <= old(yielded) + items
      ensures all <==> stop.None? || stop.value >= |items|
      ensures all ==> Rows(log, at, upto, kinds) == Rows(log, old(at), upto, kinds)[|items|..]
      ensures all ==> Now() == Read(old(Now()), items)
    {
      hide Rows, InOrder;
      var i := 0;
      assert yielded + items[..0] == yielded;
      while i < |items|
        invariant 0 <= i <= |items| && Valid(log, end) && NotPast(at, upto)
        invariant stop.Some? ==> i <= stop.value
        invariant Rows(log, at, upto, kinds) == Rows(log, old(at), upto, kinds)[i..]
        invariant yielded == old(yielded) + items[..i]
        invariant i > 0 ==> at == SpotOf(items[i - 1])
        invariant i == 0 ==> at == old(at)
      {
        if stop == Some(i) {
          return false;
        }
        var row := items[i];
        ghost var rows := Rows(log, at, upto, kinds);
        assert rows[0] == row;
        RowsFirst(log, at, upto, kinds);
        RowsSplit(log, start, at, SpotOf(row), kinds);
        yielded := yielded + [row];
        at := Spot(row.position, Some(row.ordinal));
        i := i + 1;
      }
      assert items[..|items|] == items;
      all := true;
    }

    /** What a turn of the loop guarantees. */
    ghost predicate Turned(next: Next, reply: Reply, log: seq<Row>, end: nat, before: seq<Row>)
      reads this
    {
      match next
      case Again => yielded != before && (!follow ==> reply.Page? && pinned == Some(reply.end))
      case Done => !follow && reply.Page? && yielded == Rows(log, start, EndSpot(reply.end), kinds)
      case Pause(ms) =>
        && follow && yielded == before == Rows(log, start, EndSpot(end), kinds)
        && FIRST_POLL <= ms <= MAX_POLL && !idle
      case Sleep => follow && yielded == before == Rows(log, start, EndSpot(end), kinds) && idle
      case Aborted => true
    }

    /** One turn of the loop, from a reply on. */
    method Turn(reply: Reply, stop: Option<nat>, ghost log: seq<Row>, ghost end: nat) returns (next: Next)
      requires Valid(log, end) && Answers(log, end, pinned, at, kinds, since, reply)
      requires since.Some? ==> follow
      modifies this
      ensures Valid(log, end) && (since.Some? ==> follow)
      ensures stop.None? ==> (Now(), next) == AfterReply(follow, old(Now()), reply)
      ensures Turned(next, reply, log, end, old(yielded)) && (next == Aborted ==> stop.Some?)
      ensures reply.Page? ==> old(yielded) <= yielded <= old(yielded) + reply.items
      ensures next.Pause? ==> next.ms == old(wait) && wait == (if 2 * old(wait) < MAX_POLL then 2 * old(wait) else MAX_POLL)
      ensures next == Again || next == Sleep ==> wait == FIRST_POLL
      ensures next == Again && reply.Page? && reply.more ==> since == None
      ensures reply.NotModified? ==> at == old(at) && idle == old(idle) && since == Some(reply.token)
      ensures next != Aborted && next != Done && reply.Page? && !reply.more ==>
        at == EndSpot(reply.end) && since == Some(reply.token) && idle == reply.dormant && pinned == None
    {
      hide Rows;
      if reply.NotModified? {
        since := Some(reply.token);
        SettledAtEnd(log, end);
      } else {
        var all := YieldItems(reply.items, stop, log, end, EndSpot(reply.end));
        if !all {
          return Aborted;
        }
        if reply.more {
          pinned := if follow then None else Some(reply.end);
          since := None;
          wait := FIRST_POLL;
          return Again;
        }
        ToTheEnd(log, end, reply.end);
        if !follow {
          return Done;
        }
        pinned := None;
        at := Spot(reply.end, None);
        since := Some(reply.token);
        idle := reply.dormant;
        if reply.items != [] {
          wait := FIRST_POLL;
          return Again;
        }
      }
      if idle {
        wait := FIRST_POLL;
        return Sleep;
      }
      next := Pause(wait);
      wait := if wait * 2 < MAX_POLL then wait * 2 else MAX_POLL;
    }

    lemma ToTheEnd(log: seq<Row>, end: nat, upto: nat)
      requires Valid(log, end) && NotPast(at, EndSpot(upto)) && Rows(log, at, EndSpot(upto), kinds) == []
      ensures yielded == Rows(log, start, EndSpot(upto), kinds) && NotPast(start, EndSpot(upto))
    {
      RowsSplit(log, start, at, EndSpot(upto), kinds);
    }

    lemma SettledAtEnd(log: seq<Row>, end: nat)
      requires Valid(log, end) && Rows(log, at, EndSpot(end), kinds) == []
      ensures yielded == Rows(log, start, EndSpot(end), kinds)
    {
      RowsSplit(log, start, at, EndSpot(end), kinds);
    }
  }

  lemma {:induction false} NothingBetween(log: seq<Row>, at: Spot, kinds: set<nat>)
    ensures Rows(log, at, at, kinds) == []
  {
    if log != [] {
      NothingBetween(log[..|log| - 1], at, kinds);
    }
  }

  // ---------------------------------------------------------------- a turn on values

  /** The spot after a page's last item: before it lie the items, after it the rest. */
  lemma ItemsRead(log: seq<Row>, at: Spot, upto: Spot, kinds: set<nat>, items: seq<Row>)
    requires InOrder(log) && items != [] && items <= Rows(log, at, upto, kinds)
    ensures
      var b := SpotOf(items[|items| - 1]);
      && NotPast(at, b) && NotPast(b, upto) && b.position <= upto.position
      && Rows(log, at, b, kinds) == items
      && Rows(log, b, upto, kinds) == Rows(log, at, upto, kinds)[|items|..]
  {
    hide Rows, InOrder;
    var rows, last := Rows(log, at, upto, kinds), items[|items| - 1];
    assert rows[|items| - 1] == last && last in rows;
    RowsIn(log, at, upto, kinds);
    ResumeSuffix(log, at, upto, kinds, |items| - 1);
    RowsSplit(log, at, SpotOf(last), upto, kinds);
    assert rows == items + rows[|items|..];
  }

  lemma ReadKeeps(p: Place, items: seq<Row>, upto: Spot, start: Spot, kinds: set<nat>, follow: bool, log: seq<Row>, end: nat)
    requires OkPlace(p, start, kinds, follow, log, end) && upto.position <= end
    requires items <= Rows(log, p.at, upto, kinds) && (p.pinned.Some? ==> upto == EndSpot(p.pinned.value))
    requires NotPast(p.at, upto)
    ensures OkPlace(Read(p, items), start, kinds, follow, log, end) && NotPast(Read(p, items).at, upto)
    ensures Rows(log, Read(p, items).at, upto, kinds) == Rows(log, p.at, upto, kinds)[|items|..]
  {
    hide Rows;
    if items != [] {
      ItemsRead(log, p.at, upto, kinds, items);
      RowsSplit(log, start, p.at, SpotOf(items[|items| - 1]), kinds);
    }
  }

  /** A follower's turn keeps the place, and sleeps only with everything up to the Host's end yielded. */
  lemma FollowKeeps(p: Place, reply: Reply, start: Spot, kinds: set<nat>, log: seq<Row>, end: nat)
    requires OkPlace(p, start, kinds, true, log, end) && Answers(log, end, p.pinned, p.at, kinds, p.since, reply)
    ensures
      var (q, next) := AfterReply(true, p, reply);
      OkPlace(q, start, kinds, true, log, end) && (next == Sleep ==> q.yielded == Rows(log, start, EndSpot(end), kinds))
  {
    hide Rows;
    var upto := EndSpot(end);
    if reply.Page? {
      ReadKeeps(p, reply.items, upto, start, kinds, true, log, end);
      RowsSplit(log, start, Read(p, reply.items).at, upto, kinds);
    } else {
      RowsSplit(log, start, p.at, upto, kinds);
    }
  }

  /** The log may grow while a request is on its way. */
  lemma PlaceGrows(p: Place, start: Spot, kinds: set<nat>, follow: bool, log: seq<Row>, end: nat, log': seq<Row>, end': nat)
    requires OkPlace(p, start, kinds, follow, log, end) && Grew(log, end, log', end')
    ensures OkPlace(p, start, kinds, follow, log', end')
  {
    RowsGrow(log, log', start, p.at, kinds);
  }

  // ---------------------------------------------------------------- whole reads

  lemma GrewOk(log: seq<Row>, end: nat, log': seq<Row>, end': nat)
    requires Grew(log, end, log', end')
    ensures OkLog(log', end') && end <= end' && log <= log'
  {}

  /** A Host whose log may grow before each reply, within the page contract. */
  class Host {
    var log: seq<Row>
    var end: nat

    ghost predicate Valid()
      reads this
    {
      OkLog(log, end)
    }

    /** Rows are appended past the end named so far, any number of them. */
    method Grow()
      requires Valid()
      modifies this
      ensures Grew(old(log), old(end), log, end)
    {
      assert log + [] == log && Grew(log, end, log + [], end);
      var log', end' :| Grew(log, end, log', end');
      log, end := log', end';
    }

    method Exchange(pinned: Option<nat>, at: Spot, kinds: set<nat>, since: Option<nat>) returns (reply: Reply)
      requires Valid() && (pinned.Some? ==> pinned.value <= end)
      modifies this
      ensures Valid() && Grew(old(log), old(end), log, end)
      ensures Answers(log, end, pinned, at, kinds, since, reply)
    {
      hide Rows, Grew;
      Grow();
      GrewOk(old(log), old(end), log, end);
      var named := if pinned.Some? then pinned.value else end;
      var rows := Rows(log, at, EndSpot(named), kinds);
      if since.Some? && Rows(log, at, EndSpot(end), kinds) == [] {
        return NotModified(since.value);
      }
      var most := if |rows| < PAGE_ROWS then |rows| else PAGE_ROWS;
      var n :| 0 <= n <= most && (n > 0 || most == 0);
      var dormant: bool := *;
      reply := Page(rows[..n], n < |rows|, named, 0, dormant);
    }
  }

  /** A read that does not follow: it ends, with exactly the wanted rows up to the end its first page named. */
  method ReadAll(host: Host, after: Spot, kinds: set<nat>) returns (out: seq<Row>, ghost pinned: nat, ghost log: seq<Row>)
    requires host.Valid() && after.position <= host.end
    modifies host
    ensures old(host.log) <= log <= host.log && old(host.end) <= pinned <= host.end && OkLog(log, pinned)
    ensures out == Rows(log, after, EndSpot(pinned), kinds) == Rows(host.log, after, EndSpot(pinned), kinds)
  {
    var listing := new Listing(after, kinds, false, host.log, host.end);
    log, pinned := host.log, host.end;
    ghost var first := true;
    while true
      invariant host.Valid() && listing.Valid(host.log, host.end) && fresh(listing)
      invariant !listing.follow && listing.since.None? && listing.start == after && listing.kinds == kinds
      invariant old(host.log) <= log <= host.log && old(host.end) <= pinned <= host.end && OkLog(log, pinned)
      invariant first <==> listing.pinned.None?
      invariant first ==> log == host.log && pinned == host.end && listing.at == after
      invariant !first ==> listing.pinned == Some(pinned) && Grew(log, pinned, host.log, host.end)
      invariant first ==> listing.yielded == []
      invariant !first ==> |listing.yielded| <= |Rows(log, after, EndSpot(pinned), kinds)|
      decreases if first then 1 else 0, if first then 0 else |Rows(log, after, EndSpot(pinned), kinds)| - |listing.yielded|
    {
      ghost var before, end := host.log, host.end;
      var reply := host.Exchange(listing.pinned, listing.at, kinds, listing.since);
      if first {
        log, pinned := host.log, host.end;
      }
      PlaceGrows(listing.Now(), after, kinds, false, before, end, host.log, host.end);
      var next := listing.Turn(reply, None, host.log, host.end);
      RowsGrow(log, host.log, after, EndSpot(pinned), kinds);
      first := false;
      if next == Done {
        out := listing.yielded;
        return;
      }
      RowsSplit(host.log, after, listing.at, EndSpot(pinned), kinds);
    }
  }
}
