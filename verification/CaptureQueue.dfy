/**
 * The bounded capture queue of capture.c: transfer callbacks put chunks into a ring under a
 * lock, one consumer writes them to capture files outside it, and a full ring pauses transfers.
 *
 * A step is what one thread does between two points where the other may run. The response
 * bodies, the sizes curl delivers and the outcome of each file write are the environment's;
 * what a callback did not accept is delivered again.
 */
module CaptureQueue {
  import opened Bytes

  const CHUNK := 16384

  datatype Chunk = Chunk(owner: nat, data: Bytes)

  /** One transfer: the response it is to receive, what it accepted of it, and its capture file. */
  datatype Transfer = Transfer(body: Bytes, accepted: nat, written: nat, file: Bytes, failed: bool, paused: bool, done: bool)

  /** Where the callback is: outside it, or past its check of `failed` with `length` bytes to place. */
  datatype Producer = Outside | Placing(owner: nat, length: nat)

  /** Where the consumer is: outside, holding an occupied slot, or done writing it. */
  datatype Consumer = Idle | Holding(slot: nat) | Wrote

  datatype Strategy = Direct | Inline | Worker

  datatype State = State(strategy: Strategy, slots: seq<Chunk>, head: nat, count: nat, bytes: nat, written: nat,
    transfers: seq<Transfer>, producer: Producer, consumer: Consumer)

  datatype Outcome = Stored | Broken(part: nat)

  datatype Step =
    | Offer(owner: nat, length: nat)
    | Place
    | PlaceDirect(outcome: Outcome)
    | Hold
    | WriteHeld(outcome: Outcome)
    | Pop
    | Resume(owner: nat)
    | Finish(owner: nat)

  // ---------------------------------------------------------------- the ring

  predicate OkRing(s: State) {
    s.head < |s.slots| && s.count <= |s.slots|
  }

  function SlotAt(s: State, k: nat): (i: nat)
    requires OkRing(s)
    ensures i < |s.slots|
  {
    (s.head + k) % |s.slots|
  }

  /** The occupied slots, oldest first. */
  function Queue(s: State): (q: seq<Chunk>)
    requires OkRing(s)
    ensures |q| == s.count && forall k :: 0 <= k < |q| ==> q[k] == s.slots[SlotAt(s, k)]
  {
    seq(s.count, k requires 0 <= k < s.count => s.slots[SlotAt(s, k)])
  }

  lemma Wrap(a: nat, k: nat, n: nat)
    requires a < n && k <= n
    ensures (a + k) % n == if a + k < n then a + k else a + k - n
  {
    if a + k >= n {
      assert a + k == n + (a + k - n);
      ModSum(a + k - n, n);
    }
  }

  lemma ModSum(r: nat, n: nat)
    requires 0 < n && r <= n
    ensures (n + r) % n == if r < n then r else 0
  {
    if r < n {
      assert (n + r) / n == 1;
    } else {
      assert n + r == 2 * n && (2 * n) / n == 2;
    }
  }

  // ---------------------------------------------------------------- the steps

  function Pending(s: State): seq<Chunk>
    requires OkRing(s) && (s.consumer.Wrote? ==> s.count > 0)
  {
    if s.consumer.Wrote? then Queue(s)[1..] else Queue(s)
  }

  /** The bytes queued for one transfer, in queue order. */
  function Of(q: seq<Chunk>, owner: nat): Bytes {
    if q == [] then []
    else Of(q[..|q| - 1], owner) + (if q[|q| - 1].owner == owner then q[|q| - 1].data else [])
  }

  function Total(q: seq<Chunk>): nat {
    if q == [] then 0 else Total(q[..|q| - 1]) + |q[|q| - 1].data|
  }

  function WrittenTotal(ts: seq<Transfer>): nat {
    if ts == [] then 0 else WrittenTotal(ts[..|ts| - 1]) + ts[|ts| - 1].written
  }

  /** `capture_write`: a failed transfer writes nothing; a write that breaks may leave part of the data. */
  function AfterWrite(t: Transfer, data: Bytes, outcome: Outcome): Transfer {
    if t.failed then t
    else
      match outcome
      case Stored => t.(written := t.written + |data|, file := t.file + data)
      case Broken(part) => t.(failed := true, file := t.file + data[..if part < |data| then part else |data|])
  }

  function Gain(t: Transfer, data: Bytes, outcome: Outcome): nat {
    if t.failed || outcome.Broken? then 0 else |data|
  }

  function Offered(t: Transfer, length: nat): Bytes {
    if t.accepted + length <= |t.body| then t.body[t.accepted..t.accepted + length] else []
  }

  predicate Enabled(s: State, step: Step) {
    match step
    case Offer(owner, length) =>
      && s.producer.Outside? && owner < |s.transfers| && length <= CHUNK
      && !s.transfers[owner].paused && !s.transfers[owner].done
      && s.transfers[owner].accepted + length <= |s.transfers[owner].body|
    case Place => s.producer.Placing? && s.strategy != Direct && s.producer.owner < |s.transfers|
    case PlaceDirect(_) => s.producer.Placing? && s.strategy == Direct && s.producer.owner < |s.transfers|
    case Hold => s.consumer.Idle? && s.strategy != Direct && s.count > 0
    case WriteHeld(_) =>
      && s.consumer.Holding? && s.consumer.slot < |s.slots|
      && s.slots[s.consumer.slot].owner < |s.transfers|
    case Pop => s.consumer.Wrote? && s.count > 0 && s.slots != [] && s.head < |s.slots| && s.bytes >= |s.slots[s.head].data|
    case Resume(owner) =>
      s.producer.Outside? && owner < |s.transfers| && s.transfers[owner].paused && !s.transfers[owner].done && s.count < |s.slots|
    case Finish(owner) =>
      && s.producer.Outside? && owner < |s.transfers| && !s.transfers[owner].done
      && (s.transfers[owner].failed || (!s.transfers[owner].paused && s.transfers[owner].accepted == |s.transfers[owner].body|))
  }

  function WithTransfer(s: State, owner: nat, t: Transfer): State
    requires owner < |s.transfers|
  {
    s.(transfers := s.transfers[owner := t])
  }

  /** The locked part of the callback: the slot after the last occupied one, or a pause. */
  function AfterPlace(s: State): State
    requires Enabled(s, Place) && OkRing(s)
  {
    var owner, t := s.producer.owner, s.transfers[s.producer.owner];
    var data := Offered(t, s.producer.length);
    if s.count == |s.slots| then WithTransfer(s, owner, t.(paused := true)).(producer := Outside)
    else
      WithTransfer(s, owner, t.(accepted := t.accepted + |data|)).(
        slots := s.slots[SlotAt(s, s.count) := Chunk(owner, data)],
        count := s.count + 1, bytes := s.bytes + |data|, producer := Outside)
  }

  function AfterDirect(s: State, outcome: Outcome): State
    requires Enabled(s, PlaceDirect(outcome))
  {
    var owner, t := s.producer.owner, s.transfers[s.producer.owner];
    var data := Offered(t, s.producer.length);
    var wrote := AfterWrite(t, data, outcome);
    var accepted := if wrote.failed then t.accepted else t.accepted + |data|;
    WithTransfer(s, owner, wrote.(accepted := accepted)).(written := s.written + Gain(t, data, outcome), producer := Outside)
  }

  function AfterHeld(s: State, outcome: Outcome): State
    requires Enabled(s, WriteHeld(outcome))
  {
    var c := s.slots[s.consumer.slot];
    var t := s.transfers[c.owner];
    WithTransfer(s, c.owner, AfterWrite(t, c.data, outcome)).(written := s.written + Gain(t, c.data, outcome), consumer := Wrote)
  }

  function Apply(s: State, step: Step): State
    requires Enabled(s, step) && OkRing(s)
  {
    match step
    case Offer(owner, length) => if s.transfers[owner].failed then s else s.(producer := Placing(owner, length))
    case Place => AfterPlace(s)
    case PlaceDirect(outcome) => AfterDirect(s, outcome)
    case Hold => s.(consumer := Holding(s.head))
    case WriteHeld(outcome) => AfterHeld(s, outcome)
    case Pop =>
      s.(bytes := s.bytes - |s.slots[s.head].data|, count := s.count - 1, head := (s.head + 1) % |s.slots|, consumer := Idle)
    case Resume(owner) => WithTransfer(s, owner, s.transfers[owner].(paused := false))
    case Finish(owner) => WithTransfer(s, owner, s.transfers[owner].(done := true))
  }

  // ---------------------------------------------------------------- the invariant

  /** One transfer against the bytes still to be written for it. */
  ghost predicate OkTransfer(t: Transfer, queued: Bytes) {
    && t.accepted <= |t.body|
    && t.written <= |t.file|
    && (!t.failed ==> |t.file| == t.written && t.file + queued == t.body[..t.accepted])
    && (t.failed ==> t.file <= t.body)
    && (t.done ==> t.failed || t.accepted == |t.body|)
  }

  ghost predicate OkPlaces(s: State) {
    && OkRing(s)
    && (s.consumer != Idle ==> s.count > 0)
    && (s.consumer.Holding? ==> s.consumer.slot == s.head)
    && (s.strategy == Direct ==> s.count == 0)
    && (s.producer.Placing? ==>
          && s.producer.owner < |s.transfers| && s.producer.length <= CHUNK
          && !s.transfers[s.producer.owner].done && !s.transfers[s.producer.owner].paused
          && s.transfers[s.producer.owner].accepted + s.producer.length <= |s.transfers[s.producer.owner].body|)
  }

  ghost predicate OkChunks(q: seq<Chunk>, transfers: nat) {
    forall k :: 0 <= k < |q| ==> q[k].owner < transfers && |q[k].data| <= CHUNK
  }

  ghost predicate Valid(s: State) {
    && OkPlaces(s)
    && OkChunks(Queue(s), |s.transfers|)
    && s.bytes == Total(Queue(s))
    && s.written == WrittenTotal(s.transfers)
    && forall i :: 0 <= i < |s.transfers| ==> OkTransfer(s.transfers[i], Of(Pending(s), i))
  }

  // ---------------------------------------------------------------- the ring is a queue

  lemma PlacedQueue(s: State)
    requires OkRing(s) && Enabled(s, Place) && s.count < |s.slots|
    ensures
      var t := s.transfers[s.producer.owner];
      OkRing(AfterPlace(s)) && Queue(AfterPlace(s)) == Queue(s) + [Chunk(s.producer.owner, Offered(t, s.producer.length))]
  {
    var s' := AfterPlace(s);
    var n := |s.slots|;
    Wrap(s.head, s.count, n);
    forall k | 0 <= k < s.count ensures SlotAt(s', k) == SlotAt(s, k) != SlotAt(s, s.count) {
      Wrap(s.head, k, n);
    }
    assert Queue(s') == Queue(s) + [Chunk(s.producer.owner, Offered(s.transfers[s.producer.owner], s.producer.length))];
  }

  lemma PoppedQueue(s: State)
    requires OkRing(s) && Enabled(s, Pop)
    ensures OkRing(Apply(s, Pop)) && Queue(Apply(s, Pop)) == Queue(s)[1..]
    ensures Queue(s)[0] == s.slots[s.head]
  {
    var s' := Apply(s, Pop);
    var n := |s.slots|;
    Wrap(s.head, 1, n);
    Wrap(s.head, 0, n);
    forall k | 0 <= k < s.count - 1 ensures SlotAt(s', k) == SlotAt(s, k + 1) {
      Wrap(s'.head, k, n);
      Wrap(s.head, k + 1, n);
    }
    assert Queue(s') == Queue(s)[1..];
  }

  lemma HeadIsFirst(s: State)
    requires OkRing(s) && s.count > 0
    ensures Queue(s)[0] == s.slots[s.head]
  {
    Wrap(s.head, 0, |s.slots|);
  }

  // ---------------------------------------------------------------- sums over the queue

  lemma OfLast(q: seq<Chunk>, c: Chunk, owner: nat)
    ensures Of(q + [c], owner) == Of(q, owner) + (if c.owner == owner then c.data else [])
    ensures Total(q + [c]) == Total(q) + |c.data|
  {
    assert (q + [c])[..|q|] == q;
  }

  lemma {:induction false} OfFirst(q: seq<Chunk>, owner: nat)
    requires q != []
    ensures Of(q, owner) == (if q[0].owner == owner then q[0].data else []) + Of(q[1..], owner)
    ensures Total(q) == |q[0].data| + Total(q[1..])
  {
    var n := |q| - 1;
    if n > 0 {
      OfFirst(q[..n], owner);
      assert q[..n][1..] == q[1..][..n - 1] && q[1..][n - 1] == q[n];
      Regroup(if q[0].owner == owner then q[0].data else [], Of(q[1..][..n - 1], owner),
        if q[n].owner == owner then q[n].data else []);
    } else {
      assert q[..0] == [] && q[1..] == [];
    }
  }

  lemma {:induction false} TotalBound(q: seq<Chunk>, transfers: nat)
    requires OkChunks(q, transfers)
    ensures Total(q) <= |q| * CHUNK
  {
    if q != [] {
      TotalBound(q[..|q| - 1], transfers);
    }
  }

  lemma {:induction false} WrittenUpdate(ts: seq<Transfer>, i: nat, t: Transfer)
    requires i < |ts|
    ensures WrittenTotal(ts[i := t]) == WrittenTotal(ts) - ts[i].written + t.written
    ensures WrittenTotal(ts) >= ts[i].written
  {
    var n := |ts| - 1;
    if i == n {
      assert ts[i := t][..n] == ts[..n];
    } else {
      assert ts[i := t][..n] == ts[..n][i := t];
      WrittenUpdate(ts[..n], i, t);
    }
  }

  // ---------------------------------------------------------------- every step keeps the invariant

  /** Placing more of the response: the queue gains what the transfer accepted. */
  lemma Accepts(t: Transfer, queued: Bytes, length: nat)
    requires OkTransfer(t, queued) && !t.done && t.accepted + length <= |t.body|
    ensures OkTransfer(t.(accepted := t.accepted + length), queued + Offered(t, length))
  {
    if !t.failed {
      Regroup(t.file, queued, Offered(t, length));
      assert t.body[..t.accepted + length] == t.body[..t.accepted] + Offered(t, length);
    }
  }

  /** Writing the oldest queued chunk: the file gains what the queue loses, or the transfer fails. */
  lemma Writes(t: Transfer, data: Bytes, rest: Bytes, outcome: Outcome)
    requires OkTransfer(t, data + rest)
    ensures OkTransfer(AfterWrite(t, data, outcome), rest)
  {
    if !t.failed {
      Regroup(t.file, data, rest);
      if outcome.Broken? {
        var file := AfterWrite(t, data, outcome).file;
        assert file == (t.file + (data + rest))[..|file|] == t.body[..t.accepted][..|file|];
      }
    }
  }

  lemma PlaceKeeps(s: State)
    requires Valid(s) && Enabled(s, Place)
    ensures Valid(AfterPlace(s))
  {
    hide OkTransfer, Of, Total, WrittenTotal, SlotAt, Queue;
    var s' := AfterPlace(s);
    var owner, t := s.producer.owner, s.transfers[s.producer.owner];
    var data := Offered(t, s.producer.length);
    var c := Chunk(owner, data);
    WrittenUpdate(s.transfers, owner, s'.transfers[owner]);
    if s.count == |s.slots| {
      SameQueue(s, s');
      PausedOk(t, Of(Pending(s), owner));
    } else {
      PlacedQueue(s);
      OfLast(Queue(s), c, owner);
      assert Pending(s') == Pending(s) + [c];
      Accepts(t, Of(Pending(s), owner), s.producer.length);
      forall i | 0 <= i < |s'.transfers| ensures OkTransfer(s'.transfers[i], Of(Pending(s'), i)) {
        OfLast(Pending(s), c, i);
        assert Of(Pending(s), i) + [] == Of(Pending(s), i);
      }
    }
  }

  lemma PausedOk(t: Transfer, queued: Bytes)
    requires OkTransfer(t, queued)
    ensures OkTransfer(t.(paused := true), queued) && OkTransfer(t.(paused := false), queued)
  {}

  lemma SameQueue(s: State, s': State)
    requires OkRing(s) && s'.slots == s.slots && s'.head == s.head && s'.count == s.count
    ensures OkRing(s') && Queue(s') == Queue(s)
  {}

  lemma DirectKeeps(s: State, outcome: Outcome)
    requires Valid(s) && Enabled(s, PlaceDirect(outcome))
    ensures Valid(AfterDirect(s, outcome))
  {
    hide Total, WrittenTotal;
    var s' := AfterDirect(s, outcome);
    var owner, t := s.producer.owner, s.transfers[s.producer.owner];
    var data := Offered(t, s.producer.length);
    WrittenUpdate(s.transfers, owner, s'.transfers[owner]);
    assert Queue(s') == Queue(s) == [];
    Accepts(t, [], s.producer.length);
    assert [] + data == data && data + [] == data;
    Writes(t.(accepted := t.accepted + |data|), data, [], outcome);
  }

  lemma HeldKeeps(s: State, outcome: Outcome)
    requires Valid(s) && Enabled(s, WriteHeld(outcome))
    ensures Valid(AfterHeld(s, outcome))
  {
    hide OkTransfer, Of, Total, WrittenTotal, SlotAt, Queue;
    var s' := AfterHeld(s, outcome);
    var c := s.slots[s.consumer.slot];
    SameQueue(s, s');
    HeadIsFirst(s);
    WrittenUpdate(s.transfers, c.owner, s'.transfers[c.owner]);
    OfFirst(Queue(s), c.owner);
    Writes(s.transfers[c.owner], c.data, Of(Queue(s)[1..], c.owner), outcome);
    forall i | 0 <= i < |s'.transfers| ensures OkTransfer(s'.transfers[i], Of(Pending(s'), i)) {
      OfFirst(Queue(s), i);
      assert [] + Of(Pending(s'), i) == Of(Pending(s'), i);
    }
  }

  lemma PopKeeps(s: State)
    requires Valid(s) && Enabled(s, Pop)
    ensures Valid(Apply(s, Pop))
  {
    hide OkTransfer, Of, Total, WrittenTotal, SlotAt, Queue;
    PoppedQueue(s);
    OfFirst(Queue(s), 0);
  }

  lemma OwnerKeeps(s: State, step: Step)
    requires Valid(s) && Enabled(s, step) && (step.Resume? || step.Finish?)
    ensures Valid(Apply(s, step))
  {
    hide Of, Total, WrittenTotal, SlotAt, Queue;
    var s' := Apply(s, step);
    SameQueue(s, s');
    WrittenUpdate(s.transfers, step.owner, s'.transfers[step.owner]);
  }

  lemma StepKeepsValid(s: State, step: Step)
    requires Valid(s) && Enabled(s, step)
    ensures Valid(Apply(s, step))
  {
    match step
    case Place => PlaceKeeps(s);
    case PlaceDirect(outcome) => DirectKeeps(s, outcome);
    case WriteHeld(outcome) => HeldKeeps(s, outcome);
    case Pop => PopKeeps(s);
    case Resume(_) => OwnerKeeps(s, step);
    case Finish(_) => OwnerKeeps(s, step);
    case _ =>
      hide OkTransfer, Of, Total, WrittenTotal, SlotAt, Queue;
      SameQueue(s, Apply(s, step));
  }

  /** A run: each step possible where it is taken. */
  ghost predicate Follows(s: State, steps: seq<Step>)
    decreases |steps|
  {
    steps != [] ==> OkRing(s) && Enabled(s, steps[0]) && Follows(Apply(s, steps[0]), steps[1..])
  }

  function Run(s: State, steps: seq<Step>): State
    requires Follows(s, steps)
    decreases |steps|
  {
    if steps == [] then s else Run(Apply(s, steps[0]), steps[1..])
  }

  ghost predicate Initial(s: State) {
    && s.slots != [] && s.head == 0 && s.count == 0 && s.bytes == 0 && s.written == 0
    && s.producer == Outside && s.consumer == Idle
    && forall i :: 0 <= i < |s.transfers| ==>
      s.transfers[i] == Transfer(s.transfers[i].body, 0, 0, [], false, false, false)
  }

  lemma {:induction false} NothingWritten(ts: seq<Transfer>)
    requires forall i :: 0 <= i < |ts| ==> ts[i].written == 0
    ensures WrittenTotal(ts) == 0
  {
    if ts != [] {
      NothingWritten(ts[..|ts| - 1]);
    }
  }

  lemma InitialValid(s: State)
    requires Initial(s)
    ensures Valid(s)
  {
    NothingWritten(s.transfers);
    assert Queue(s) == [];
  }

  lemma {:induction false} RunKeepsValid(s: State, steps: seq<Step>)
    requires Valid(s) && Follows(s, steps)
    ensures Valid(Run(s, steps))
    decreases |steps|
  {
    hide Valid, Enabled, Apply;
    if steps != [] {
      StepKeepsValid(s, steps[0]);
      RunKeepsValid(Apply(s, steps[0]), steps[1..]);
    }
  }

  // ---------------------------------------------------------------- what every run guarantees

  /** The bytes the transfer's file has, then those queued for it, are those it accepted; the queue is bounded. */
  lemma CaptureExact(s: State, steps: seq<Step>)
    requires Initial(s) && Follows(s, steps)
    ensures
      var e := Run(s, steps);
      && OkRing(e) && e.bytes == Total(Queue(e)) <= |e.slots| * CHUNK
      && e.written == WrittenTotal(e.transfers)
      && (e.consumer.Wrote? ==> e.count > 0)
      && (forall i :: 0 <= i < |e.transfers| ==>
           var t := e.transfers[i];
           && t.accepted <= |t.body|
           && (if t.failed then t.file <= t.body else t.file + Of(Pending(e), i) == t.body[..t.accepted]))
  {
    InitialValid(s);
    RunKeepsValid(s, steps);
    var e := Run(s, steps);
    TotalBound(Queue(e), |e.transfers|);
    assert e.count * CHUNK <= |e.slots| * CHUNK;
  }

  lemma HeldSlotStep(s: State, step: Step)
    requires Valid(s) && s.consumer.Holding? && Enabled(s, step) && !step.WriteHeld?
    ensures
      var e := Apply(s, step);
      && e.consumer == s.consumer && s.consumer.slot < |s.slots| == |e.slots|
      && e.slots[s.consumer.slot] == s.slots[s.consumer.slot]
  {
    if step.Place? && s.count < |s.slots| {
      Wrap(s.head, s.count, |s.slots|);
    }
  }

  /** The slot the consumer holds keeps its chunk, and stays its own, over any run of other steps up to its own write. */
  lemma {:induction false} HeldSlotKept(s: State, steps: seq<Step>)
    requires Valid(s) && s.consumer.Holding? && Follows(s, steps)
    requires forall i :: 0 <= i < |steps| ==> !steps[i].WriteHeld?
    ensures
      var e := Run(s, steps);
      && e.consumer == s.consumer && s.consumer.slot < |s.slots| == |e.slots|
      && e.slots[s.consumer.slot] == s.slots[s.consumer.slot]
    decreases |steps|
  {
    hide Enabled, Apply;
    if steps != [] {
      StepKeepsValid(s, steps[0]);
      HeldSlotStep(s, steps[0]);
      HeldSlotKept(Apply(s, steps[0]), steps[1..]);
    }
  }

  /** No step overwrites an occupied slot that stays occupied. */
  lemma OccupiedKept(s: State, step: Step, k: nat)
    requires Valid(s) && Enabled(s, step) && k < s.count && (step.Pop? ==> k > 0)
    ensures SlotAt(s, k) < |Apply(s, step).slots| && Apply(s, step).slots[SlotAt(s, k)] == s.slots[SlotAt(s, k)]
  {
    if step.Place? && s.count < |s.slots| {
      Wrap(s.head, s.count, |s.slots|);
      Wrap(s.head, k, |s.slots|);
    }
  }

  /** The loop of `main` is left: every transfer is finished and the queue is empty. */
  ghost predicate Over(s: State) {
    s.count == 0 && s.producer == Outside && forall i :: 0 <= i < |s.transfers| ==> s.transfers[i].done
  }

  /** When the loop is left, every transfer that did not fail has its whole response in its file. */
  lemma CaptureComplete(s: State, steps: seq<Step>)
    requires Initial(s) && Follows(s, steps) && Over(Run(s, steps))
    ensures
      var e := Run(s, steps);
      forall i :: 0 <= i < |e.transfers| && !e.transfers[i].failed ==>
        var t := e.transfers[i];
        t.file == t.body && t.written == t.accepted == |t.body|
  {
    InitialValid(s);
    RunKeepsValid(s, steps);
    var e := Run(s, steps);
    forall i | 0 <= i < |e.transfers| && !e.transfers[i].failed ensures e.transfers[i].file == e.transfers[i].body {
      assert Pending(e) == [] && Of(Pending(e), i) == [];
      assert OkTransfer(e.transfers[i], []);
    }
  }

  /** Backpressure never wedges: until the loop can be left, a step that does something can be taken. */
  lemma NeverStuck(s: State)
    requires Valid(s) && !Over(s)
    ensures exists step :: Enabled(s, step) && Apply(s, step) != s
  {
    if s.producer.Placing? {
      var step := if s.strategy == Direct then PlaceDirect(Stored) else Place;
      assert Enabled(s, step) && Apply(s, step).producer == Outside;
    } else if s.count > 0 {
      HeadIsFirst(s);
      OfFirst(Queue(s), 0);
      assert Enabled(s, if s.consumer.Idle? then Hold else if s.consumer.Holding? then WriteHeld(Stored) else Pop);
    } else {
      var i :| 0 <= i < |s.transfers| && !s.transfers[i].done;
      var t := s.transfers[i];
      if t.failed || (!t.paused && t.accepted == |t.body|) {
        assert Enabled(s, Finish(i));
      } else if t.paused {
        assert Enabled(s, Resume(i));
      } else {
        var left := |t.body| - t.accepted;
        assert Enabled(s, Offer(i, if left < CHUNK then left else CHUNK));
      }
    }
  }

  // ---------------------------------------------------------------- the ring in place

  datatype Answer = Accepted | Pause | WriteError

  /** The shared sink. Each method is one step: what its thread does while holding the lock, or between two locks. */
  class Sink {
    const slots: array<Chunk>
    const strategy: Strategy
    var head: nat
    var count: nat
    var bytes: nat
    var written: nat
    var transfers: seq<Transfer>
    ghost var producer: Producer
    ghost var consumer: Consumer

    ghost function Now(): State
      reads this, slots
    {
      State(strategy, slots[..], head, count, bytes, written, transfers, producer, consumer)
    }

    constructor (capacity: nat, strategy: Strategy, bodies: seq<Bytes>)
      requires capacity > 0
      ensures fresh(slots) && slots.Length == capacity && this.strategy == strategy
      ensures Initial(Now()) && |transfers| == |bodies|
      ensures forall i :: 0 <= i < |bodies| ==> transfers[i].body == bodies[i]
    {
      slots := new Chunk[capacity](_ => Chunk(0, []));
      this.strategy := strategy;
      head, count, bytes, written := 0, 0, 0, 0;
      transfers := seq(|bodies|, i requires 0 <= i < |bodies| => Transfer(bodies[i], 0, 0, [], false, false, false));
      producer, consumer := Outside, Idle;
    }

    /** The callback's check of `failed`, before it takes the lock. */
    method CheckFailed(owner: nat, length: nat) returns (failed: bool)
      requires OkRing(Now()) && Enabled(Now(), Offer(owner, length))
      modifies this
      ensures Now() == Apply(old(Now()), Offer(owner, length))
      ensures failed == old(transfers)[owner].failed
      ensures failed ==> Now() == old(Now())
      ensures !failed ==> Now() == old(Now()).(producer := Placing(owner, length))
    {
      failed := transfers[owner].failed;
      if !failed {
        producer := Placing(owner, length);
      }
    }

    /** The callback under the lock. */
    method PlaceChunk(owner: nat, data: Bytes) returns (answer: Answer)
      requires OkRing(Now()) && Enabled(Now(), Place) && producer == Placing(owner, |data|)
      requires data == Offered(transfers[owner], |data|)
      modifies this, slots
      ensures Now() == Apply(old(Now()), Place)
      ensures answer == if old(count) == slots.Length then Pause else Accepted
      ensures producer == Outside && old(transfers)[owner].body == transfers[owner].body
      ensures answer == Pause ==>
        && transfers == old(transfers)[owner := old(transfers)[owner].(paused := true)]
        && slots[..] == old(slots[..]) && count == old(count) && bytes == old(bytes)
      ensures answer == Accepted ==>
        && transfers == old(transfers)[owner := old(transfers)[owner].(accepted := old(transfers)[owner].accepted + |data|)]
        && OkRing(Now()) && Queue(Now()) == Queue(old(Now())) + [Chunk(owner, data)] && bytes == old(bytes) + |data|
    {
      if count < slots.Length {
        PlacedQueue(Now());
      }
      var t := transfers[owner];
      producer := Outside;
      if count == slots.Length {
        transfers := transfers[owner := t.(paused := true)];
        return Pause;
      }
      slots[(head + count) % slots.Length] := Chunk(owner, data);
      count := count + 1;
      bytes := bytes + |data|;
      transfers := transfers[owner := t.(accepted := t.accepted + |data|)];
      answer := Accepted;
    }

    /** `capture_write`, with what the file system made of it. */
    method CaptureWrite(owner: nat, data: Bytes, outcome: Outcome)
      requires owner < |transfers|
      modifies this`transfers, this`written
      ensures transfers == old(transfers)[owner := AfterWrite(old(transfers)[owner], data, outcome)]
      ensures written == old(written) + Gain(old(transfers)[owner], data, outcome)
      ensures |transfers| == |old(transfers)|
      ensures old(transfers)[owner].failed ==> transfers == old(transfers) && written == old(written)
      ensures !old(transfers)[owner].failed && outcome.Stored? ==>
        var t := old(transfers)[owner];
        && transfers == old(transfers)[owner := t.(written := t.written + |data|, file := t.file + data)]
        && written == old(written) + |data|
      ensures !old(transfers)[owner].failed && outcome.Broken? ==>
        && transfers == old(transfers)[owner := old(transfers)[owner].(failed := true, file := transfers[owner].file)]
        && old(transfers)[owner].file <= transfers[owner].file <= old(transfers)[owner].file + data
        && written == old(written)
    {
      var t := transfers[owner];
      if !t.failed {
        match outcome
        case Stored =>
          transfers := transfers[owner := t.(written := t.written + |data|, file := t.file + data)];
          written := written + |data|;
        case Broken(part) =>
          var kept := if part < |data| then part else |data|;
          transfers := transfers[owner := t.(failed := true, file := t.file + data[..kept])];
      }
    }

    /** The callback of the strategy that writes at once. */
    method PlaceAtOnce(owner: nat, data: Bytes, outcome: Outcome) returns (answer: Answer)
      requires OkRing(Now()) && Enabled(Now(), PlaceDirect(outcome)) && producer == Placing(owner, |data|)
      requires data == Offered(transfers[owner], |data|)
      modifies this
      ensures Now() == Apply(old(Now()), PlaceDirect(outcome))
      ensures answer == if transfers[owner].failed then WriteError else Accepted
      ensures answer == WriteError <==> old(transfers)[owner].failed || outcome.Broken?
      ensures answer == Accepted ==>
        && transfers[owner].file == old(transfers)[owner].file + data
        && transfers[owner].accepted == old(transfers)[owner].accepted + |data|
      ensures answer == WriteError ==> transfers[owner].accepted == old(transfers)[owner].accepted && written == old(written)
      ensures producer == Outside
    {
      CaptureWrite(owner, data, outcome);
      producer := Outside;
      var t := transfers[owner];
      if t.failed {
        return WriteError;
      }
      transfers := transfers[owner := t.(accepted := t.accepted + |data|)];
      answer := Accepted;
    }

    /** The first locked part of `drain_one`: whether there is a chunk, and the slot it is in. */
    method HoldHead() returns (slot: Option<nat>)
      requires OkRing(Now()) && consumer.Idle? && strategy != Direct
      modifies this`consumer
      ensures old(count) == 0 ==> slot.None? && Now() == old(Now())
      ensures old(count) > 0 ==> slot == Some(head) && Now() == Apply(old(Now()), Hold) && consumer == Holding(head)
    {
      if count == 0 {
        return None;
      }
      consumer := Holding(head);
      slot := Some(head);
    }

    /** The part of `drain_one` outside the lock. */
    method WriteSlot(slot: nat, outcome: Outcome)
      requires OkRing(Now()) && Enabled(Now(), WriteHeld(outcome)) && consumer == Holding(slot)
      modifies this
      ensures Now() == Apply(old(Now()), WriteHeld(outcome))
      ensures
        var c := old(slots[slot]);
        var t := old(transfers)[c.owner];
        && consumer == Wrote && |transfers| == |old(transfers)|
        && transfers[c.owner].failed == (t.failed || outcome.Broken?)
        && (!t.failed && outcome.Stored? ==> transfers[c.owner].file == t.file + c.data && written == old(written) + |c.data|)
    {
      var c := slots[slot];
      CaptureWrite(c.owner, c.data, outcome);
      consumer := Wrote;
    }

    /** The second locked part of `drain_one`. */
    method PopHead()
      requires OkRing(Now()) && Enabled(Now(), Pop)
      modifies this
      ensures Now() == Apply(old(Now()), Pop)
      ensures OkRing(Now()) && Queue(Now()) == Queue(old(Now()))[1..] && consumer == Idle
      ensures bytes == old(bytes) - |Queue(old(Now()))[0].data| && transfers == old(transfers)
    {
      PoppedQueue(Now());
      bytes := bytes - |slots[head].data|;
      count := count - 1;
      head := (head + 1) % slots.Length;
      consumer := Idle;
    }
  }
}
