/**
 * The exact-launch handshake of host_launch.c: a detached grandchild reports its pid, waits for a
 * release byte, confirms, and executes the Host; the parent stores the process generation between
 * the two receipts, and reads receipts over any split of the bytes.
 *
 * Receipts are two 32-bit integers, least significant byte first. The process-generation query,
 * the outcome of system calls and a kill at any moment are the environment's.
 */
module LaunchHandshake {
  import opened Bytes
  import opened Words

  const PID := 1
  const ERROR := 2
  const CONFIRM := 3
  const EIO := 5
  const SIZE := 8

  type Int32 = n: int | -0x8000_0000 <= n < 0x8000_0000

  // ---------------------------------------------------------------- receipts

  function Word(n: Int32): (w: Bytes)
    ensures |w| == 4
  {
    Little(n % 0x1_0000_0000, 4)
  }

  function Number(w: Bytes): (n: Int32)
    requires |w| == 4
  {
    LittleUnsigned(w);
    Range32();
    var u := Unsigned(w);
    if u < 0x8000_0000 then u else u - 0x1_0000_0000
  }

  function Receipt(kind: Int32, value: Int32): (r: Bytes)
    ensures |r| == SIZE
  {
    Word(kind) + Word(value)
  }

  function KindOf(r: Bytes): Int32
    requires |r| == SIZE
  {
    Number(r[..4])
  }

  function ValueOf(r: Bytes): Int32
    requires |r| == SIZE
  {
    Number(r[4..])
  }

  lemma NumberOfWord(n: Int32)
    ensures Number(Word(n)) == n
  {
    Range32();
    UnsignedLittle(n % 0x1_0000_0000, 4);
  }

  lemma WordOfNumber(w: Bytes)
    requires |w| == 4
    ensures Word(Number(w)) == w
  {
    hide Little, Unsigned;
    LittleUnsigned(w);
    Range32();
    assert Number(w) % 0x1_0000_0000 == Unsigned(w);
  }

  lemma ReceiptParts(kind: Int32, value: Int32)
    ensures KindOf(Receipt(kind, value)) == kind && ValueOf(Receipt(kind, value)) == value
  {
    var r := Receipt(kind, value);
    assert r[..4] == Word(kind) && r[4..] == Word(value);
    NumberOfWord(kind);
    NumberOfWord(value);
  }

  lemma ReceiptOf(r: Bytes)
    requires |r| == SIZE
    ensures r == Receipt(KindOf(r), ValueOf(r))
  {
    WordOfNumber(r[..4]);
    WordOfNumber(r[4..]);
    assert r == r[..4] + r[4..];
  }

  // ---------------------------------------------------------------- the parent's judgement

  /** What the parent stored: the pid, the process generation, and whether it was confirmed. */
  datatype Stored = Stored(pid: Int32, started: nat, confirmed: bool)

  const NOTHING: Stored := Stored(0, 0, false)

  datatype Verdict = Continue(p: Stored) | Look(p: Stored) | Fail(error: Int32)

  /** What the environment says of the process generation and of the release write; zero is no error. */
  datatype Reply = Reply(error: Int32, generation: nat, releaseError: Int32)

  function Judge(p: Stored, kind: Int32, value: Int32): Verdict {
    if kind == ERROR && value > 0 then Fail(value)
    else if kind == CONFIRM && value == p.pid && p.started != 0 && !p.confirmed then Continue(p.(confirmed := true))
    else if kind != PID || value <= 0 || p.pid != 0 then Fail(EIO)
    else Look(p.(pid := value))
  }

  function Looked(p: Stored, reply: Reply): Verdict {
    if reply.error != 0 then Fail(reply.error)
    else if reply.generation == 0 then Fail(EIO)
    else if reply.releaseError != 0 then Fail(reply.releaseError)
    else Continue(p.(started := reply.generation))
  }

  function OnReceipt(p: Stored, kind: Int32, value: Int32, reply: Reply): (v: Verdict)
    ensures !v.Look?
  {
    var verdict := Judge(p, kind, value);
    if verdict.Look? then Looked(verdict.p, reply) else verdict
  }

  function AtEnd(p: Stored, rest: Bytes): Int32 {
    if rest == [] && p.confirmed then 0 else EIO
  }

  /** The error the parent ends with, given all the bytes it would read; zero is success. */
  function Outcome(p: Stored, content: Bytes, reply: Reply): Int32
    decreases |content|
  {
    if |content| < SIZE then AtEnd(p, content)
    else
      var verdict := OnReceipt(p, KindOf(content[..SIZE]), ValueOf(content[..SIZE]), reply);
      if verdict.Fail? then verdict.error else Outcome(verdict.p, content[SIZE..], reply)
  }

  /** One pid receipt, one confirmation of it, and the end: the only bytes the parent accepts. */
  ghost predicate Accepted(content: Bytes, pid: Int32) {
    pid > 0 && content == Receipt(PID, pid) + Receipt(CONFIRM, pid)
  }

  /** Success is exactly that, with a nonzero generation stored and the release written. */
  lemma SuccessExactly(content: Bytes, reply: Reply)
    ensures
      (Outcome(NOTHING, content, reply) == 0) ==
      (reply.error == 0 && reply.generation != 0 && reply.releaseError == 0 && exists pid :: Accepted(content, pid))
  {
    if |content| >= SIZE {
      var first, rest := content[..SIZE], content[SIZE..];
      var pid := ValueOf(first);
      ReceiptOf(first);
      assert content == first + rest;
      if Judge(NOTHING, KindOf(first), pid).Look? && Looked(Stored(pid, 0, false), reply).Continue? {
        var p := Stored(pid, reply.generation, false);
        AfterPid(p, rest, reply);
        if Outcome(p, rest, reply) == 0 {
          assert Accepted(content, pid);
        }
      }
    }
    if pid :| Accepted(content, pid) {
      AcceptedFirst(content, pid);
    }
  }

  lemma AcceptedFirst(content: Bytes, pid: Int32)
    requires Accepted(content, pid)
    ensures |content| == 2 * SIZE && content[..SIZE] == Receipt(PID, pid) && content[SIZE..] == Receipt(CONFIRM, pid)
    ensures KindOf(content[..SIZE]) == PID && ValueOf(content[..SIZE]) == pid
  {
    ReceiptParts(PID, pid);
  }

  lemma AfterPid(p: Stored, rest: Bytes, reply: Reply)
    requires p.pid > 0 && p.started != 0 && !p.confirmed
    ensures Outcome(p, rest, reply) == 0 <==> rest == Receipt(CONFIRM, p.pid)
  {
    ReceiptParts(CONFIRM, p.pid);
    if |rest| >= SIZE {
      var first, more := rest[..SIZE], rest[SIZE..];
      ReceiptOf(first);
      assert rest == first + more;
      if KindOf(first) == CONFIRM && ValueOf(first) == p.pid {
        AfterConfirm(p.(confirmed := true), more, reply);
        assert first + [] == first;
      }
    }
    if rest == Receipt(CONFIRM, p.pid) {
      assert rest[..SIZE] == rest && rest[SIZE..] == [];
    }
  }

  lemma AfterConfirm(p: Stored, rest: Bytes, reply: Reply)
    requires p.pid > 0 && p.confirmed
    ensures Outcome(p, rest, reply) == 0 <==> rest == []
  {}

  /** The error that a receipt the parent did not expect ends it with. */
  function ErrorIn(kind: Int32, value: Int32): Int32 {
    if kind == 2 && value > 0 then value else 5
  }

  lemma HeadReceipt(p: Stored, kind: Int32, value: Int32, rest: Bytes, reply: Reply)
    ensures
      var verdict := OnReceipt(p, kind, value, reply);
      Outcome(p, Receipt(kind, value) + rest, reply) == if verdict.Fail? then verdict.error else Outcome(verdict.p, rest, reply)
  {
    hide Outcome, OnReceipt;
    ReceiptParts(kind, value);
    OutcomeStep(p, Receipt(kind, value), rest, reply);
  }

  /** With which error the parent ends before any receipt is whole, and on its first one. */
  lemma FirstReceipt(content: Bytes, kind: Int32, value: Int32, rest: Bytes, reply: Reply)
    ensures |content| < 8 ==> Outcome(NOTHING, content, reply) == 5
    ensures !(kind == 1 && value > 0) ==> Outcome(NOTHING, Receipt(kind, value) + rest, reply) == ErrorIn(kind, value)
    ensures kind == 1 && value > 0 && (reply.error != 0 || reply.generation == 0 || reply.releaseError != 0) ==>
      Outcome(NOTHING, Receipt(kind, value) + rest, reply) ==
        if reply.error != 0 then reply.error else if reply.generation == 0 then 5 else reply.releaseError
  {
    HeadReceipt(NOTHING, kind, value, rest, reply);
  }

  /** With which error it ends after a pid receipt that went well. */
  lemma SecondReceipt(pid: Int32, content: Bytes, kind: Int32, value: Int32, rest: Bytes, reply: Reply)
    requires pid > 0 && reply.error == 0 && reply.generation != 0 && reply.releaseError == 0
    ensures |content| < 8 ==> Outcome(NOTHING, Receipt(1, pid) + content, reply) == 5
    ensures !(kind == 3 && value == pid) ==>
      Outcome(NOTHING, Receipt(1, pid) + (Receipt(kind, value) + rest), reply) == ErrorIn(kind, value)
  {
    var p := Stored(pid, reply.generation, false);
    HeadReceipt(NOTHING, 1, pid, content, reply);
    HeadReceipt(NOTHING, 1, pid, Receipt(kind, value) + rest, reply);
    HeadReceipt(p, kind, value, rest, reply);
  }

  /** After the confirmation there is no third receipt that does not end it with an error. */
  lemma ThirdReceipt(pid: Int32, content: Bytes, kind: Int32, value: Int32, rest: Bytes, reply: Reply)
    requires pid > 0 && reply.error == 0 && reply.generation != 0 && reply.releaseError == 0
    ensures |content| < 8 ==>
      Outcome(NOTHING, Receipt(1, pid) + (Receipt(3, pid) + content), reply) == if content == [] then 0 else 5
    ensures Outcome(NOTHING, Receipt(1, pid) + (Receipt(3, pid) + (Receipt(kind, value) + rest)), reply) == ErrorIn(kind, value)
  {
    var p := Stored(pid, reply.generation, false);
    var q, more := Stored(pid, reply.generation, true), Receipt(kind, value) + rest;
    HeadReceipt(NOTHING, 1, pid, Receipt(3, pid) + content, reply);
    HeadReceipt(NOTHING, 1, pid, Receipt(3, pid) + more, reply);
    HeadReceipt(p, 3, pid, content, reply);
    HeadReceipt(p, 3, pid, more, reply);
    HeadReceipt(q, kind, value, rest, reply);
  }

  // ---------------------------------------------------------------- the loops over the pipe

  /** How the helper process ended: the parent could not wait for it, or it did or did not exit with zero. */
  datatype Helper = WaitFailed(error: Int32) | Exited(well: bool)

  /** What `launch_detached` returns after its receipts: a helper that ended badly spoils a success. */
  function Returned(error: Int32, helper: Helper): Int32 {
    match helper
    case WaitFailed(e) => e
    case Exited(well) => if !well && error == 0 then EIO else error
  }

  /** The read end of the report pipe: what is to come, in pieces of any size; or a read that fails, for good. */
  class Channel {
    const content: Bytes
    var at: nat
    ghost var failure: Int32

    constructor (content: Bytes)
      ensures this.content == content && at == 0 && failure == 0
    {
      this.content, at, failure := content, 0, 0;
    }

    /** An interrupted read is retried by the caller, and makes no difference. */
    method Read(room: nat) returns (bytes: Bytes, error: Int32)
      requires at <= |content| && room > 0 && failure == 0
      modifies this
      ensures error >= 0 && failure == error
      ensures error != 0 ==> bytes == [] && at == old(at)
      ensures error == 0 ==> at == old(at) + |bytes| <= |content| && |bytes| <= room && bytes == content[old(at)..at]
      ensures error == 0 ==> (bytes == [] <==> old(at) == |content|)
    {
      var code: Int32 := *;
      if code > 0 {
        failure := code;
        return [], code;
      }
      if at == |content| {
        return [], 0;
      }
      var n :| 1 <= n <= room && at + n <= |content|;
      bytes := content[at..at + n];
      at := at + n;
      error := 0;
    }
  }

  /** The inner loop: eight bytes, or fewer at the end of the stream or where a read failed. */
  method ReadReceipt(channel: Channel) returns (receipt: Bytes, error: Int32)
    requires channel.at <= |channel.content| && channel.failure == 0
    modifies channel
    ensures error == channel.failure >= 0
    ensures old(channel.at) <= channel.at <= |channel.content|
    ensures channel.content[old(channel.at)..] == receipt + channel.content[channel.at..]
    ensures |receipt| <= SIZE && (error == 0 && |receipt| < SIZE ==> channel.at == |channel.content|)
    ensures receipt != [] ==> channel.at > old(channel.at)
  {
    receipt, error := [], 0;
    while |receipt| < SIZE
      invariant |receipt| <= SIZE && channel.at == old(channel.at) + |receipt| <= |channel.content|
      invariant channel.content[old(channel.at)..] == receipt + channel.content[channel.at..]
      invariant error == channel.failure == 0
      decreases SIZE - |receipt|
    {
      ghost var before := channel.at;
      var bytes;
      bytes, error := channel.Read(SIZE - |receipt|);
      if error != 0 || bytes == [] {
        return;
      }
      assert channel.content[before..] == bytes + channel.content[channel.at..];
      Regroup(receipt, bytes, channel.content[channel.at..]);
      receipt := receipt + bytes;
    }
  }

  lemma OutcomeStep(p: Stored, receipt: Bytes, rest: Bytes, reply: Reply)
    requires |receipt| == SIZE
    ensures
      var verdict := OnReceipt(p, KindOf(receipt), ValueOf(receipt), reply);
      Outcome(p, receipt + rest, reply) == if verdict.Fail? then verdict.error else Outcome(verdict.p, rest, reply)
  {
    var content := receipt + rest;
    assert content[..SIZE] == receipt && content[SIZE..] == rest;
  }

  lemma OutcomeEnd(p: Stored, receipt: Bytes, reply: Reply)
    requires |receipt| < SIZE
    ensures Outcome(p, receipt + [], reply) == AtEnd(p, receipt)
  {
    assert receipt + [] == receipt;
  }

  /** The exact-mode loop of `launch_detached`: the outcome of the whole stream, or the error of the read that failed. */
  method AwaitReceipts(channel: Channel, reply: Reply) returns (error: Int32, stored: Stored)
    requires channel.at == 0 && channel.failure == 0
    modifies channel
    ensures error == if channel.failure != 0 then channel.failure else Outcome(NOTHING, channel.content, reply)
    ensures error == 0 ==> stored.pid > 0 && stored.confirmed && stored.started == reply.generation != 0
  {
    hide Outcome, KindOf, ValueOf;
    var pid: Int32, started: nat, confirmed := 0, 0, false;
    assert channel.content[0..] == channel.content;
    while true
      invariant channel.at <= |channel.content| && channel.failure == 0
      invariant Outcome(NOTHING, channel.content, reply)
             == Outcome(Stored(pid, started, confirmed), channel.content[channel.at..], reply)
      invariant confirmed ==> started != 0
      invariant started != 0 ==> pid > 0 && started == reply.generation
      decreases |channel.content| - channel.at
    {
      stored := Stored(pid, started, confirmed);
      var receipt;
      receipt, error := ReadReceipt(channel);
      if error != 0 {
        return;
      }
      if |receipt| < SIZE {
        OutcomeEnd(stored, receipt, reply);
        error := if receipt == [] && confirmed then 0 else EIO;
        return;
      }
      OutcomeStep(stored, receipt, channel.content[channel.at..], reply);
      var kind, value := KindOf(receipt), ValueOf(receipt);
      if kind == ERROR && value > 0 {
        error := value;
        return;
      }
      if kind == CONFIRM && value == pid && started != 0 && !confirmed {
        confirmed := true;
        continue;
      }
      if kind != PID || value <= 0 || pid != 0 {
        error := EIO;
        return;
      }
      pid := value;
      if reply.error != 0 {
        error := reply.error;
        return;
      }
      started := reply.generation;
      if started == 0 {
        error := EIO;
        return;
      }
      if reply.releaseError != 0 {
        error := reply.releaseError;
        return;
      }
    }
  }

  /** The whole of it: the receipts, and then the helper. */
  method LaunchDetached(channel: Channel, reply: Reply, helper: Helper) returns (error: Int32, stored: Stored)
    requires channel.at == 0 && channel.failure == 0
    modifies channel
    ensures error == Returned(if channel.failure != 0 then channel.failure else Outcome(NOTHING, channel.content, reply), helper)
    ensures helper.WaitFailed? ==> error == helper.error
    ensures helper.Exited? && channel.failure != 0 ==> error == channel.failure
    ensures helper.Exited? && channel.failure == 0 ==>
      var told := Outcome(NOTHING, channel.content, reply);
      error == if told == 0 && !helper.well then 5 else told
  {
    hide Outcome;
    error, stored := AwaitReceipts(channel, reply);
    if helper.WaitFailed? {
      return helper.error, stored;
    }
    if !helper.well && error == 0 {
      error := EIO;
    }
  }

  // ---------------------------------------------------------------- both processes

  /** Where the grandchild is. `Sending` has bytes of a receipt left to write; `after` says what follows it. */
  datatype Grandchild =
    | Preparing
    | Sending(left: Bytes, after: After)
    | AwaitingRelease
    | Executing
    | Running
    | Gone

  datatype After = ThenAwait | ThenExecute | ThenExit

  datatype Parent = Reading | Looking | Releasing | Ended(error: Int32)

  /**
   * The report pipe holds what was sent and not yet taken; `buffer` is the parent's partial receipt and
   * `heard` the bytes of the receipts it judged. `trouble` says that something failed on the way.
   */
  datatype State = State(
    child: Grandchild, parent: Parent, stored: Stored, buffer: Bytes, heard: Bytes,
    pipe: Bytes, sent: Bytes, ack: Bytes, ackOpen: bool, trouble: bool)

  const START: State := State(Preparing, Reading, NOTHING, [], [], [], [], [], true, false)

  datatype Step =
    | Prepared
    | PreparationFails(code: Int32)
    | Write(count: nat)
    | TakeRelease
    | Execute(error: Int32)
    | Killed
    | Read(count: nat)
    | ReadFails(error: Int32)
    | ReadEnd
    | Found(error: Int32, generation: nat)
    | Released(error: Int32)

  /** The report pipe is closed for writing by exec, or by the grandchild's end. */
  predicate ReportClosed(s: State) {
    s.child.Running? || s.child.Gone?
  }

  predicate Enabled(s: State, step: Step) {
    match step
    case Prepared => s.child.Preparing?
    case PreparationFails(code) => s.child.Preparing? && code > 0
    case Write(count) => s.child.Sending? && 0 < count <= |s.child.left|
    case TakeRelease => s.child.AwaitingRelease? && (s.ack != [] || !s.ackOpen)
    case Execute(error) => s.child.Executing? && error >= 0
    case Killed => true
    case Read(count) => s.parent.Reading? && 0 < count <= |s.pipe| && |s.buffer| + count <= SIZE
    case ReadFails(error) => s.parent.Reading? && error > 0
    case ReadEnd => s.parent.Reading? && s.pipe == [] && ReportClosed(s)
    case Found(error, _) => s.parent.Looking? && error >= 0
    case Released(error) => s.parent.Releasing? && error >= 0
  }

  function Send(s: State, kind: Int32, value: Int32, after: After): State {
    s.(child := Sending(Receipt(kind, value), after))
  }

  /** The parent stops reading and closes both pipes. */
  function End(s: State, error: Int32): State {
    s.(parent := Ended(error), ackOpen := false)
  }

  function Judged(s: State): State
    requires |s.buffer| == SIZE
  {
    var t := s.(heard := s.heard + s.buffer, buffer := []);
    match Judge(s.stored, KindOf(s.buffer), ValueOf(s.buffer))
    case Fail(e) => End(t, e)
    case Continue(p) => t.(stored := p)
    case Look(p) => t.(stored := p, parent := Looking)
  }

  /** The rest of a receipt, or the end of the writer when no one can read it any more. */
  function AfterWrite(s: State, count: nat): State {
    if !s.child.Sending? || count > |s.child.left| then s
    else if s.parent.Ended? then s.(child := Gone)
    else
      var left := s.child.left[count..];
      s.(sent := s.sent + s.child.left[..count], pipe := s.pipe + s.child.left[..count],
         child := if left != [] then Sending(left, s.child.after)
                  else match s.child.after
                       case ThenAwait => AwaitingRelease
                       case ThenExecute => Executing
                       case ThenExit => Gone)
  }

  function AfterRead(s: State, count: nat): State {
    if count > |s.pipe| then s
    else
      var t := s.(buffer := s.buffer + s.pipe[..count], pipe := s.pipe[count..]);
      if |t.buffer| == SIZE then Judged(t) else t
  }

  function Apply(s: State, step: Step, pid: Int32): State {
    match step
    case Prepared => Send(s, PID, pid, ThenAwait)
    case PreparationFails(code) => Send(s, ERROR, code, ThenExit).(trouble := true)
    case Write(count) => AfterWrite(s, count)
    case TakeRelease => if s.ack == [1] then Send(s.(ack := []), CONFIRM, pid, ThenExecute) else s.(child := Gone)
    case Execute(error) => if error == 0 then s.(child := Running) else Send(s, ERROR, error, ThenExit).(trouble := true)
    case Killed => s.(child := Gone, trouble := true)
    case Read(count) => AfterRead(s, count)
    case ReadFails(error) => End(s, error).(trouble := true)
    case ReadEnd => End(s, AtEnd(s.stored, s.buffer))
    case Found(error, generation) =>
      if error != 0 then End(s, error).(trouble := true)
      else if generation == 0 then End(s, EIO).(trouble := true)
      else s.(stored := s.stored.(started := generation), parent := Releasing)
    case Released(error) =>
      if error != 0 then End(s, error).(trouble := true) else s.(ack := [1], ackOpen := false, parent := Reading)
  }

  ghost predicate Follows(s: State, steps: seq<Step>, pid: Int32)
    decreases |steps|
  {
    steps != [] ==> Enabled(s, steps[0]) && Follows(Apply(s, steps[0], pid), steps[1..], pid)
  }

  function Run(s: State, steps: seq<Step>, pid: Int32): State
    decreases |steps|
  {
    if steps == [] then s else Run(Apply(s, steps[0], pid), steps[1..], pid)
  }

  // ---------------------------------------------------------------- the invariant

  function Pid(pid: Int32): Bytes { Receipt(PID, pid) }
  function Both(pid: Int32): Bytes { Receipt(PID, pid) + Receipt(CONFIRM, pid) }

  /** What was sent: the beginning of the whole script, or of an error receipt before it or after it. */
  ghost predicate OkSent(sent: Bytes, trouble: bool, pid: Int32) {
    sent <= Both(pid) || (trouble && exists code: Int32 :: Failing(sent, code, pid))
  }

  ghost predicate Failing(sent: Bytes, code: Int32, pid: Int32) {
    code > 0 && (sent <= Receipt(ERROR, code) || sent <= Both(pid) + Receipt(ERROR, code))
  }

  /** What the grandchild has sent, by where it is. */
  ghost predicate OkChild(s: State, pid: Int32) {
    match s.child
    case Preparing => s.sent == []
    case Sending(left, ThenAwait) => left != [] && s.sent + left == Pid(pid)
    case AwaitingRelease => s.sent == Pid(pid)
    case Sending(left, ThenExecute) => left != [] && s.sent + left == Both(pid)
    case Executing => s.sent == Both(pid)
    case Running => s.sent == Both(pid)
    case Sending(left, ThenExit) => 0 < |left| <= SIZE && s.trouble && exists code: Int32 :: Fails(s.sent + left, code, pid)
    case Gone => s.trouble || s.parent.Ended?
  }

  ghost predicate Fails(bytes: Bytes, code: Int32, pid: Int32) {
    code > 0 && (bytes == Receipt(ERROR, code) || bytes == Both(pid) + Receipt(ERROR, code))
  }

  ghost predicate OkStream(s: State, pid: Int32) {
    |s.buffer| < SIZE && s.sent == s.heard + s.buffer + s.pipe && OkSent(s.sent, s.trouble, pid)
  }

  /** What the parent stored is what it heard; it ends well only after hearing exactly the script, and otherwise for a reason. */
  ghost predicate OkStored(s: State, pid: Int32) {
    match s.parent
    case Reading =>
      || (s.heard == [] && s.stored == NOTHING)
      || (s.heard == Pid(pid) && s.stored == Stored(pid, s.stored.started, false) && s.stored.started != 0)
      || (s.heard == Both(pid) && s.stored == Stored(pid, s.stored.started, true) && s.stored.started != 0)
    case Looking => s.heard == Pid(pid) && s.stored == Stored(pid, 0, false)
    case Releasing => s.heard == Pid(pid) && s.stored == Stored(pid, s.stored.started, false) && s.stored.started != 0
    case Ended(error) =>
      if error != 0 then s.trouble
      else s.heard == s.sent == Both(pid) && s.stored == Stored(pid, s.stored.started, true) && s.stored.started != 0 && ReportClosed(s)
  }

  /** The grandchild was let go on. */
  predicate PastRelease(s: State) {
    s.child.Executing? || s.child.Running? || (s.child.Sending? && s.child.after.ThenExecute?) || |s.sent| > SIZE
  }

  ghost predicate OkRelease(s: State, pid: Int32) {
    && (s.ack == [] || (s.ack == [1] && !s.ackOpen && (s.child.AwaitingRelease? || s.child.Gone?)))
    && (s.ack != [] || PastRelease(s) ==> s.stored.pid == pid && s.stored.started != 0)
    && (s.ack == [] && !s.ackOpen && s.child.AwaitingRelease? ==> s.parent.Ended?)
    && (s.parent.Reading? && s.heard != [] ==> !s.ackOpen)
    && (s.parent.Reading? && s.heard == [] ==> s.ackOpen)
    && (s.parent.Looking? || s.parent.Releasing? ==> s.ackOpen && !PastRelease(s))
    && (s.parent.Ended? ==> !s.ackOpen)
  }

  ghost predicate Valid(s: State, pid: Int32) {
    pid > 0 && OkChild(s, pid) && OkStream(s, pid) && OkStored(s, pid) && OkRelease(s, pid)
  }

  // ---------------------------------------------------------------- every step keeps it

  /** A whole receipt the parent took is the one its place in the stream calls for. */
  lemma NextReceipt(s: State, t: State, pid: Int32)
    requires pid > 0 && OkSent(s.sent, s.trouble, pid) && s.parent.Reading? && OkStored(s, pid)
    requires |t.buffer| == SIZE && s.sent == s.heard + t.buffer + t.pipe
    ensures
      || (s.heard == [] && t.buffer == Pid(pid))
      || (s.heard == Pid(pid) && t.buffer == Receipt(CONFIRM, pid))
      || (s.trouble && exists code: Int32 :: code > 0 && t.buffer == Receipt(ERROR, code))
  {
    var script := Both(pid);
    assert t.buffer == s.sent[|s.heard|..|s.heard| + SIZE];
    assert script[..SIZE] == Pid(pid) && script[SIZE..] == Receipt(CONFIRM, pid);
    if s.sent <= script {
      assert t.buffer == script[|s.heard|..|s.heard| + SIZE];
    } else {
      var code: Int32 :| Failing(s.sent, code, pid);
      var e := Receipt(ERROR, code);
      if s.sent <= e {
        assert t.buffer == e[|s.heard|..|s.heard| + SIZE] == e;
      } else {
        assert t.buffer == (script + e)[|s.heard|..|s.heard| + SIZE];
        if s.heard == script {
          assert t.buffer == e;
        } else {
          assert t.buffer == script[|s.heard|..|s.heard| + SIZE];
        }
      }
    }
  }

  lemma JudgedKeeps(s: State, t: State, pid: Int32)
    requires Valid(s, pid) && s.parent.Reading?
    requires t == s.(buffer := t.buffer, pipe := t.pipe) && |t.buffer| == SIZE && s.sent == s.heard + t.buffer + t.pipe
    ensures Valid(Judged(t), pid)
  {
    hide KindOf, ValueOf, Receipt, OkChild, OkSent;
    NextReceipt(s, t, pid);
    assert s.heard + t.buffer + t.pipe == (s.heard + t.buffer) + [] + t.pipe;
    if t.buffer == Pid(pid) && s.heard == [] {
      ReceiptParts(PID, pid);
      assert s.heard + t.buffer == Pid(pid);
      ChildSame(s, Judged(t), pid);
    } else if s.heard == Pid(pid) && t.buffer == Receipt(CONFIRM, pid) {
      ReceiptParts(CONFIRM, pid);
      ChildSame(s, Judged(t), pid);
    } else {
      var code: Int32 :| code > 0 && t.buffer == Receipt(ERROR, code);
      ReceiptParts(ERROR, code);
      ChildSame(s, Judged(t), pid);
    }
  }

  lemma ChildSame(s: State, t: State, pid: Int32)
    requires OkChild(s, pid) && t.child == s.child && t.sent == s.sent && (s.trouble ==> t.trouble)
    requires s.parent.Ended? ==> t.parent.Ended?
    ensures OkChild(t, pid)
  {}

  lemma ReadKeeps(s: State, count: nat, pid: Int32)
    requires Valid(s, pid) && Enabled(s, Read(count))
    ensures Valid(AfterRead(s, count), pid)
  {
    hide OkChild, OkSent, OkStored, OkRelease, Judged;
    var t := s.(buffer := s.buffer + s.pipe[..count], pipe := s.pipe[count..]);
    Moved(s.heard, s.buffer, s.pipe, count);
    if |t.buffer| == SIZE {
      JudgedKeeps(s, t, pid);
    } else {
      ChildSame(s, t, pid);
      ReadingSame(s, t, pid);
    }
  }

  lemma ReadingSame(s: State, t: State, pid: Int32)
    requires s.parent.Reading? && OkStored(s, pid) && OkRelease(s, pid) && t == s.(buffer := t.buffer, pipe := t.pipe)
    ensures OkStored(t, pid) && OkRelease(t, pid)
  {}

  lemma Moved(heard: Bytes, buffer: Bytes, pipe: Bytes, count: nat)
    requires count <= |pipe|
    ensures heard + buffer + pipe == heard + (buffer + pipe[..count]) + pipe[count..]
  {
    assert pipe == pipe[..count] + pipe[count..];
  }

  lemma WriteKeeps(s: State, count: nat, pid: Int32)
    requires Valid(s, pid) && Enabled(s, Write(count))
    ensures Valid(AfterWrite(s, count), pid)
  {
    hide Receipt, OkSent;
    var left, t := s.child.left, AfterWrite(s, count);
    assert left == left[..count] + left[count..];
    assert s.heard + s.buffer + (s.pipe + left[..count]) == s.heard + s.buffer + s.pipe + left[..count];
    if !s.parent.Ended? {
      assert s.sent + left == (s.sent + left[..count]) + left[count..];
      assert left[count..] == [] ==> s.sent + left[..count] + [] == s.sent + left;
      WholeSent(s, pid);
      SentPrefix(s.sent + left, t.sent, s.trouble, pid);
    }
  }

  /** The receipt under way completes a beginning of the script, or a failing one. */
  lemma WholeSent(s: State, pid: Int32)
    requires OkChild(s, pid) && s.child.Sending?
    ensures OkSent(s.sent + s.child.left, s.trouble, pid)
  {
    if s.child.after == ThenExit {
      var code: Int32 :| Fails(s.sent + s.child.left, code, pid);
      assert Failing(s.sent + s.child.left, code, pid);
    }
  }

  lemma SentPrefix(whole: Bytes, sent: Bytes, trouble: bool, pid: Int32)
    requires OkSent(whole, trouble, pid) && sent <= whole
    ensures OkSent(sent, trouble, pid)
  {
    if !(whole <= Both(pid)) {
      var code: Int32 :| Failing(whole, code, pid);
      assert Failing(sent, code, pid);
    }
  }

  lemma StartsReceipt(sent: Bytes, code: Int32, pid: Int32)
    requires code > 0 && (sent == [] || sent == Both(pid))
    ensures Fails(sent + Receipt(ERROR, code), code, pid)
  {
    assert [] + Receipt(ERROR, code) == Receipt(ERROR, code);
  }

  /** An error receipt is begun before anything was sent, or after the script. */
  lemma FailureKeeps(s: State, code: Int32, pid: Int32)
    requires Valid(s, pid) && code > 0 && (s.child.Preparing? || s.child.Executing?)
    ensures Valid(Send(s, ERROR, code, ThenExit).(trouble := true), pid)
  {
    hide OkSent, Receipt, OkStored;
    StartsReceipt(s.sent, code, pid);
    MoreTrouble(s.sent, s.trouble, pid);
    var t := Send(s, ERROR, code, ThenExit).(trouble := true);
    StoredSame(s, t, pid);
  }

  lemma StoredSame(s: State, t: State, pid: Int32)
    requires OkStored(s, pid) && t.parent == s.parent && t.stored == s.stored && t.heard == s.heard && t.sent == s.sent
    requires (s.trouble ==> t.trouble) && (ReportClosed(s) ==> ReportClosed(t))
    ensures OkStored(t, pid)
  {}

  lemma ChildMoves(s: State, step: Step, pid: Int32)
    requires Valid(s, pid) && Enabled(s, step) && (step.Prepared? || step.TakeRelease? || step.Killed? || step == Execute(0))
    ensures Valid(Apply(s, step, pid), pid)
  {
    hide OkSent, OkStored;
    assert [] + Receipt(PID, pid) == Receipt(PID, pid);
    MoreTrouble(s.sent, s.trouble, pid);
    StoredSame(s, Apply(s, step, pid), pid);
  }

  /** While the parent has heard the pid and not released it, the grandchild can only be waiting, or gone. */
  lemma WaitsForRelease(s: State, pid: Int32)
    requires Valid(s, pid) && s.parent.Releasing?
    ensures s.child.AwaitingRelease? || s.child.Gone?
  {
    hide OkSent;
    assert |s.sent| >= SIZE;
  }

  lemma ParentMoves(s: State, step: Step, pid: Int32)
    requires Valid(s, pid) && Enabled(s, step) && (step.ReadFails? || step.Found? || step.Released?)
    ensures Valid(Apply(s, step, pid), pid)
  {
    if s.parent.Releasing? {
      WaitsForRelease(s, pid);
    }
    hide OkSent, OkChild, Receipt;
    MoreTrouble(s.sent, s.trouble, pid);
    ChildSame(s, Apply(s, step, pid), pid);
  }

  lemma OthersKeep(s: State, step: Step, pid: Int32)
    requires Valid(s, pid) && Enabled(s, step) && !step.Read? && !step.Write?
    ensures Valid(Apply(s, step, pid), pid)
  {
    hide Valid;
    match step
    case PreparationFails(code) => FailureKeeps(s, code, pid);
    case Execute(error) =>
      if error != 0 {
        FailureKeeps(s, error, pid);
      } else {
        ChildMoves(s, step, pid);
      }
    case ReadEnd => EndKeeps(s, pid);
    case ReadFails(_) => ParentMoves(s, step, pid);
    case Found(_, _) => ParentMoves(s, step, pid);
    case Released(_) => ParentMoves(s, step, pid);
    case _ => ChildMoves(s, step, pid);
  }

  lemma MoreTrouble(sent: Bytes, trouble: bool, pid: Int32)
    requires OkSent(sent, trouble, pid)
    ensures OkSent(sent, true, pid)
  {}

  /** The stream ends in the middle of the script only if something failed. */
  lemma EndKeeps(s: State, pid: Int32)
    requires Valid(s, pid) && Enabled(s, ReadEnd)
    ensures Valid(Apply(s, ReadEnd, pid), pid)
  {
    hide OkSent, Receipt;
    assert s.sent == s.heard + s.buffer + [] == s.heard + s.buffer;
    assert s.heard + [] == s.heard;
    if s.child.Running? {
      assert |s.sent| == 2 * SIZE && |s.heard| == 2 * SIZE;
    }
  }

  lemma StepKeepsValid(s: State, step: Step, pid: Int32)
    requires Valid(s, pid) && Enabled(s, step)
    ensures Valid(Apply(s, step, pid), pid)
  {
    hide Valid, AfterRead, AfterWrite;
    match step
    case Read(count) => ReadKeeps(s, count, pid);
    case Write(count) => WriteKeeps(s, count, pid);
    case _ => OthersKeep(s, step, pid);
  }

  lemma StartValid(pid: Int32)
    requires pid > 0
    ensures Valid(START, pid)
  {
    assert START.sent == START.heard + START.buffer + START.pipe;
  }

  lemma {:induction false} RunKeepsValid(s: State, steps: seq<Step>, pid: Int32)
    requires Valid(s, pid) && Follows(s, steps, pid)
    ensures Valid(Run(s, steps, pid), pid)
    decreases |steps|
  {
    hide Valid, Enabled, Apply;
    if steps != [] {
      StepKeepsValid(s, steps[0], pid);
      RunKeepsValid(Apply(s, steps[0], pid), steps[1..], pid);
    }
  }

  // ---------------------------------------------------------------- what every interleaving guarantees

  /** The grandchild is at or past its confirmation and execve only after the parent stored a nonzero generation for its pid. */
  lemma ExecutesAfterStore(steps: seq<Step>, pid: Int32)
    requires pid > 0 && Follows(START, steps, pid)
    ensures
      var s := Run(START, steps, pid);
      PastRelease(s) ==> s.stored.pid == pid && s.stored.started != 0
  {
    StartValid(pid);
    RunKeepsValid(START, steps, pid);
  }

  /**
   * The launch is a success only after the pid, its confirmation and a clean end, with pid and generation stored, and
   * a helper that was waited for and exited well; and otherwise something failed. A failed wait has a nonzero error.
   */
  lemma EndsWell(steps: seq<Step>, pid: Int32, helper: Helper)
    requires pid > 0 && Follows(START, steps, pid) && Run(START, steps, pid).parent.Ended?
    requires helper.WaitFailed? ==> helper.error != 0
    ensures
      var s := Run(START, steps, pid);
      if Returned(s.parent.error, helper) == 0
      then s.heard == s.sent == Both(pid) && s.stored.pid == pid && s.stored.started != 0 && ReportClosed(s) && helper == Exited(true)
      else s.trouble || helper != Exited(true)
  {
    StartValid(pid);
    RunKeepsValid(START, steps, pid);
  }

  /** A step by which something goes wrong. */
  predicate Troubles(step: Step) {
    match step
    case PreparationFails(_) => true
    case Killed => true
    case ReadFails(_) => true
    case Execute(error) => error != 0
    case Found(error, generation) => error != 0 || generation == 0
    case Released(error) => error != 0
    case _ => false
  }

  /** Without trouble, a parent that has ended has ended well, with the Host running. */
  ghost predicate WellSoFar(s: State) {
    !s.trouble && s.parent.Ended? ==> s.parent == Ended(0) && s.child.Running?
  }

  lemma StepTrouble(s: State, step: Step, pid: Int32)
    requires Valid(s, pid) && Enabled(s, step) && WellSoFar(s)
    ensures Apply(s, step, pid).trouble <==> s.trouble || Troubles(step)
    ensures WellSoFar(Apply(s, step, pid))
  {
    hide AfterRead, AfterWrite, OkStream, OkRelease;
    StepKeepsValid(s, step, pid);
    match step
    case Read(count) => ReadTrouble(s, count);
    case Write(count) => WriteTrouble(s, count);
    case _ =>
  }

  lemma ReadTrouble(s: State, count: nat)
    requires s.parent.Reading?
    ensures AfterRead(s, count).trouble == s.trouble && AfterRead(s, count).child == s.child
  {
    hide KindOf, ValueOf, Judge;
  }

  lemma WriteTrouble(s: State, count: nat)
    requires s.child.Sending?
    ensures AfterWrite(s, count).trouble == s.trouble && AfterWrite(s, count).parent == s.parent
  {}

  lemma {:induction false} RunTrouble(s: State, steps: seq<Step>, pid: Int32)
    requires Valid(s, pid) && Follows(s, steps, pid) && WellSoFar(s)
    ensures Run(s, steps, pid).trouble <==> s.trouble || exists i :: 0 <= i < |steps| && Troubles(steps[i])
    ensures WellSoFar(Run(s, steps, pid))
    decreases |steps|
  {
    hide Valid, Enabled, Apply, WellSoFar;
    if steps != [] {
      StepKeepsValid(s, steps[0], pid);
      StepTrouble(s, steps[0], pid);
      RunTrouble(Apply(s, steps[0], pid), steps[1..], pid);
      SomeTrouble(steps);
    }
  }

  lemma SomeTrouble(steps: seq<Step>)
    requires steps != []
    ensures (exists i :: 0 <= i < |steps| && Troubles(steps[i])) <==>
      Troubles(steps[0]) || exists i :: 0 <= i < |steps[1..]| && Troubles(steps[1..][i])
  {
    if i :| 0 <= i < |steps| && Troubles(steps[i]) {
      if i > 0 {
        assert Troubles(steps[1..][i - 1]);
      }
    }
    if i :| 0 <= i < |steps[1..]| && Troubles(steps[1..][i]) {
      assert Troubles(steps[i + 1]);
    }
  }

  /** A run in which no step goes wrong has no trouble, and if its parent has ended, it ended well and the Host is running. */
  lemma FaultlessSucceeds(steps: seq<Step>, pid: Int32)
    requires pid > 0 && Follows(START, steps, pid)
    ensures
      var s := Run(START, steps, pid);
      && (s.trouble <==> exists i :: 0 <= i < |steps| && Troubles(steps[i]))
      && (!s.trouble && s.parent.Ended? ==> s.parent == Ended(0) && s.child.Running?)
  {
    StartValid(pid);
    RunTrouble(START, steps, pid);
  }

  /**
   * Neither side waits for the other in vain: until the parent has ended and the report is closed, a step other than
   * a kill or a read error can be taken. In particular a grandchild still waiting when the parent has ended goes on.
   */
  lemma NeverStuck(steps: seq<Step>, pid: Int32)
    requires pid > 0 && Follows(START, steps, pid)
    requires var s := Run(START, steps, pid); !(s.parent.Ended? && ReportClosed(s))
    ensures exists step :: Enabled(Run(START, steps, pid), step) && !step.Killed? && !step.ReadFails?
    ensures
      var s := Run(START, steps, pid);
      s.parent.Ended? ==> (s.child.AwaitingRelease? ==> Enabled(s, TakeRelease)) && (s.child.Sending? ==> Enabled(s, Write(1)))
  {
    StartValid(pid);
    RunKeepsValid(START, steps, pid);
    var s := Run(START, steps, pid);
    if s.parent.Ended? {
      ChildGoesOn(s, pid);
    } else if s.parent.Looking? {
      assert Enabled(s, Found(0, 1));
    } else if s.parent.Releasing? {
      assert Enabled(s, Released(0));
    } else if s.pipe != [] {
      assert Enabled(s, Read(1));
    } else {
      SomeoneMoves(s, pid);
    }
  }

  lemma ChildGoesOn(s: State, pid: Int32)
    requires Valid(s, pid) && s.parent.Ended? && !ReportClosed(s)
    ensures exists step :: Enabled(s, step) && !step.Killed? && !step.ReadFails?
    ensures (s.child.AwaitingRelease? ==> Enabled(s, TakeRelease)) && (s.child.Sending? ==> Enabled(s, Write(1)))
  {
    match s.child
    case Preparing => assert Enabled(s, Prepared);
    case Sending(left, _) => assert Enabled(s, Write(1));
    case AwaitingRelease => assert Enabled(s, TakeRelease);
    case Executing => assert Enabled(s, Execute(0));
    case _ =>
  }

  lemma SomeoneMoves(s: State, pid: Int32)
    requires Valid(s, pid) && s.parent.Reading? && s.pipe == []
    ensures exists step :: Enabled(s, step) && !step.Killed? && !step.ReadFails?
  {
    match s.child
    case Preparing => assert Enabled(s, Prepared);
    case Sending(left, _) => assert Enabled(s, Write(1));
    case AwaitingRelease =>
      assert s.sent == s.heard + s.buffer && |s.sent| == SIZE;
      assert Enabled(s, TakeRelease);
    case Executing => assert Enabled(s, Execute(0));
    case _ => assert Enabled(s, ReadEnd);
  }
}
