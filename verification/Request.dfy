/**
 * The two writers of one request: the simple builder of adapter.py, which decodes every
 * payload, and the list of payloads the streaming writer of streaming.py copies instead.
 */
module Request {
  import opened Bytes
  import opened Json
  import opened JsonValue
  import opened JsonCopy
  import opened History
  import opened Selection

  const DECODER_LIMIT := 65536
  const CHUNK_SIZE := 4096

  const CREATED_BY: Bytes := Ascii("created_by")
  const ENCRYPTED_CONTENT: Key := Ascii("encrypted_content")
  const REASONING: Value := String(Ascii("reasoning"))
  const COMPACTION: Value := String(Ascii("compaction"))

  // ---------------------------------------------------------------- reading payloads

  predicate Intact(s: Store, body: nat) {
    body < |s.payloads| && s.payloads[body].body == s.payloads[body].digest
  }

  /** A payload read whole: no larger than the decoder takes, undamaged, and JSON. */
  function ReadValue(s: Store, body: nat): Result<Value> {
    if body >= |s.payloads| then Err(Unavailable)
    else if |s.payloads[body].body| > DECODER_LIMIT then Err(ResourceExceeded)
    else if !Intact(s, body) then Err(Unavailable)
    else
      match Loads(s.payloads[body].body)
      case None => Err(Rejected)
      case Some(v) => Ok(v)
  }

  /** A body in chunks of at most 4096 bytes. */
  function ChunksOf(body: Bytes): (r: seq<Bytes>)
    ensures Flat(r) == body
    ensures forall i :: 0 <= i < |r| ==> 0 < |r[i]| <= CHUNK_SIZE
    decreases |body|
  {
    if body == [] then []
    else
      var n := if |body| < CHUNK_SIZE then |body| else CHUNK_SIZE;
      assert body == body[..n] + body[n..];
      [body[..n]] + ChunksOf(body[n..])
  }

  /** Reads a payload into memory, up to the decoder's limit. */
  method ReadBody(body: Bytes) returns (r: Result<Bytes>)
    ensures r == if |body| > DECODER_LIMIT then Err(ResourceExceeded) else Ok(body)
  {
    var chunks := ChunksOf(body);
    var text: Bytes := [];
    for i := 0 to |chunks|
      invariant |text| <= DECODER_LIMIT && text + Flat(chunks[i..]) == body
    {
      assert Flat(chunks[i..]) == chunks[i] + Flat(chunks[i+1..]) by {
        assert chunks[i..][1..] == chunks[i+1..];
      }
      Regroup(text, chunks[i], Flat(chunks[i+1..]));
      if |text| + |chunks[i]| > DECODER_LIMIT {
        return Err(ResourceExceeded);
      }
      text := text + chunks[i];
    }
    assert chunks[|chunks|..] == [] && text + [] == text;
    r := Ok(text);
  }

  method ReadPayload(s: Store, body: nat) returns (r: Result<Value>)
    ensures r == ReadValue(s, body)
  {
    if body >= |s.payloads| {
      return Err(Unavailable);
    }
    var text := ReadBody(s.payloads[body].body);
    if text.Err? {
      return Err(text.error);
    }
    if !Intact(s, body) {
      return Err(Unavailable);
    }
    var v := Loads(text.value);
    r := if v.None? then Err(Rejected) else Ok(v.value);
  }

  // ---------------------------------------------------------------- the simple builder

  predicate IsZero(lexeme: Bytes) {
    forall i :: 0 <= i < |lexeme| && (forall j :: 0 <= j <= i ==> lexeme[j] != 69 && lexeme[j] != 101)
      ==> !(49 <= lexeme[i] <= 57)
  }

  predicate Truthy(v: Value) {
    match v
    case Null => false
    case Boolean(b) => b
    case Number(lexeme) => !IsZero(lexeme)
    case String(units) => units != []
    case List(items) => items != []
    case Dict(m) => m != map[]
  }

  /** A provider item as the request carries it. */
  function ProviderItem(v: Value): Result<Value> {
    if !v.Dict? then Err(Rejected)
    else
      var m := v.m - {CREATED_BY};
      if TYPE !in m then Err(Rejected)
      else if (m[TYPE] == REASONING || m[TYPE] == COMPACTION) && !(ENCRYPTED_CONTENT in m && Truthy(m[ENCRYPTED_CONTENT]))
      then Err(Unavailable)
      else Ok(Dict(m))
  }

  /** The items of a result, first pass. */
  function ItemsPass(s: Store, bodies: seq<nat>): Result<seq<Value>> {
    if bodies == [] then Ok([])
    else
      var n := |bodies| - 1;
      match ItemsPass(s, bodies[..n])
      case Err(e) => Err(e)
      case Ok(front) =>
        match ReadValue(s, bodies[n])
        case Err(e) => Err(e)
        case Ok(v) =>
          match ProviderItem(v)
          case Err(e) => Err(e)
          case Ok(item) => Ok(front + [item])
  }

  /** The result of one item's call, looked up by the decoded call id; nothing for other items. */
  function CallAnswer(s: Store, cutoff: nat, body: nat): Result<seq<Value>> {
    match ReadValue(s, body)
    case Err(e) => Err(e)
    case Ok(v) =>
      if !v.Dict? || TYPE !in v.m then Err(Rejected)
      else if v.m[TYPE] != FUNCTION_CALL then Ok([])
      else if CALL_ID !in v.m || !v.m[CALL_ID].String? then Err(Rejected)
      else
        match ToolResult(s.tools, cutoff, v.m[CALL_ID].units)
        case None => Err(Unavailable)
        case Some(answer) =>
          match ReadValue(s, answer)
          case Err(e) => Err(e)
          case Ok(w) => Ok([w])
  }

  /** The tool results of a result's calls, second pass, in item order. */
  function AnswersPass(s: Store, cutoff: nat, bodies: seq<nat>): Result<seq<Value>> {
    if bodies == [] then Ok([])
    else
      var n := |bodies| - 1;
      match AnswersPass(s, cutoff, bodies[..n])
      case Err(e) => Err(e)
      case Ok(front) =>
        match CallAnswer(s, cutoff, bodies[n])
        case Err(e) => Err(e)
        case Ok(answer) => Ok(front + answer)
  }

  /** What one selected record adds to the input. */
  function RecordValues(s: Store, cutoff: nat, c: Chosen): Result<seq<Value>> {
    if IsHostInput(c.entry.kind) then
      match ReadValue(s, c.entry.key)
      case Err(e) => Err(e)
      case Ok(v) => Ok([v])
    else
      match ModelOutput(s, cutoff, c.entry.key, c.anchored)
      case Err(e) => Err(e)
      case Ok(bodies) =>
        match ItemsPass(s, bodies)
        case Err(e) => Err(e)
        case Ok(items) =>
          match AnswersPass(s, cutoff, bodies)
          case Err(e) => Err(e)
          case Ok(answers) => Ok(items + answers)
  }

  function InputValues(s: Store, cutoff: nat, records: seq<Chosen>): Result<seq<Value>> {
    if records == [] then Ok([])
    else
      var n := |records| - 1;
      match InputValues(s, cutoff, records[..n])
      case Err(e) => Err(e)
      case Ok(front) =>
        match RecordValues(s, cutoff, records[n])
        case Err(e) => Err(e)
        case Ok(values) => Ok(front + values)
  }

  datatype SimpleRequest = SimpleRequest(settings: Value, input: seq<Value>)

  function RequestOf(s: Store, cutoff: nat): Result<SimpleRequest> {
    match SettingsOf(s.facts, cutoff)
    case None => Err(Unavailable)
    case Some(body) =>
      match ReadValue(s, body)
      case Err(e) => Err(e)
      case Ok(settings) =>
        match Selected(s, cutoff)
        case Err(e) => Err(e)
        case Ok(records) =>
          match InputValues(s, cutoff, records)
          case Err(e) => Err(e)
          case Ok(input) => Ok(SimpleRequest(settings, input))
  }

  lemma {:induction false} PrefixFails(s: Store, bodies: seq<nat>, n: nat)
    requires n <= |bodies| && ItemsPass(s, bodies[..n]).Err?
    ensures ItemsPass(s, bodies) == ItemsPass(s, bodies[..n])
    decreases |bodies| - n
  {
    if n < |bodies| {
      assert bodies[..n+1][..n] == bodies[..n];
      PrefixFails(s, bodies, n + 1);
    } else {
      assert bodies[..n] == bodies;
    }
  }

  lemma {:induction false} AnswersFail(s: Store, cutoff: nat, bodies: seq<nat>, n: nat)
    requires n <= |bodies| && AnswersPass(s, cutoff, bodies[..n]).Err?
    ensures AnswersPass(s, cutoff, bodies) == AnswersPass(s, cutoff, bodies[..n])
    decreases |bodies| - n
  {
    if n < |bodies| {
      assert bodies[..n+1][..n] == bodies[..n];
      AnswersFail(s, cutoff, bodies, n + 1);
    } else {
      assert bodies[..n] == bodies;
    }
  }

  lemma {:induction false} InputFails(s: Store, cutoff: nat, records: seq<Chosen>, n: nat)
    requires n <= |records| && InputValues(s, cutoff, records[..n]).Err?
    ensures InputValues(s, cutoff, records) == InputValues(s, cutoff, records[..n])
    decreases |records| - n
  {
    if n < |records| {
      assert records[..n+1][..n] == records[..n];
      InputFails(s, cutoff, records, n + 1);
    } else {
      assert records[..n] == records;
    }
  }

  method BuildItems(s: Store, bodies: seq<nat>) returns (r: Result<seq<Value>>)
    ensures r == ItemsPass(s, bodies)
  {
    hide ReadValue, ProviderItem;
    var items: seq<Value> := [];
    for i := 0 to |bodies|
      invariant ItemsPass(s, bodies[..i]) == Ok(items)
    {
      assert bodies[..i+1][..i] == bodies[..i];
      var v := ReadPayload(s, bodies[i]);
      var item := if v.Ok? then ProviderItem(v.value) else Err(v.error);
      if item.Err? {
        PrefixFails(s, bodies, i + 1);
        return Err(item.error);
      }
      items := items + [item.value];
    }
    assert bodies[..|bodies|] == bodies;
    r := Ok(items);
  }

  method BuildAnswers(s: Store, cutoff: nat, bodies: seq<nat>) returns (r: Result<seq<Value>>)
    ensures r == AnswersPass(s, cutoff, bodies)
  {
    hide CallAnswer;
    var answers: seq<Value> := [];
    for i := 0 to |bodies|
      invariant AnswersPass(s, cutoff, bodies[..i]) == Ok(answers)
    {
      assert bodies[..i+1][..i] == bodies[..i];
      var answer := CallAnswer(s, cutoff, bodies[i]);
      if answer.Err? {
        AnswersFail(s, cutoff, bodies, i + 1);
        return Err(answer.error);
      }
      answers := answers + answer.value;
    }
    assert bodies[..|bodies|] == bodies;
    r := Ok(answers);
  }

  /** Both traversals of one result. */
  method BuildOutput(s: Store, cutoff: nat, bodies: seq<nat>) returns (r: Result<seq<Value>>)
    ensures r == match ItemsPass(s, bodies)
      case Err(e) => Err(e)
      case Ok(items) => (match AnswersPass(s, cutoff, bodies) case Err(e) => Err(e) case Ok(answers) => Ok(items + answers))
  {
    hide ItemsPass, AnswersPass;
    var items := BuildItems(s, bodies);
    if items.Err? {
      return Err(items.error);
    }
    var answers := BuildAnswers(s, cutoff, bodies);
    r := if answers.Err? then Err(answers.error) else Ok(items.value + answers.value);
  }

  method BuildRequest(view: View) returns (r: Result<SimpleRequest>)
    requires !view.closed
    ensures r == RequestOf(view.core.Tables(), view.cutoff)
  {
    var s := view.core.Tables();
    var key := SettingsOf(s.facts, view.cutoff);
    if key.None? {
      return Err(Unavailable);
    }
    var settings := ReadPayload(s, key.value);
    if settings.Err? {
      return Err(settings.error);
    }
    var records := view.SelectedRecords();
    if records.Err? {
      return Err(records.error);
    }
    var output: seq<Value> := [];
    for i := 0 to |records.value|
      invariant InputValues(s, view.cutoff, records.value[..i]) == Ok(output)
    {
      var c := records.value[i];
      assert records.value[..i+1][..i] == records.value[..i];
      var added: Result<seq<Value>>;
      if IsHostInput(c.entry.kind) {
        var v := ReadPayload(s, c.entry.key);
        added := if v.Ok? then Ok([v.value]) else Err(v.error);
      } else {
        var bodies := ModelOutput(s, view.cutoff, c.entry.key, c.anchored);
        if bodies.Ok? {
          added := BuildOutput(s, view.cutoff, bodies.value);
        } else {
          added := Err(bodies.error);
        }
      }
      if added.Err? {
        InputFails(s, view.cutoff, records.value, i + 1);
        return Err(added.error);
      }
      output := output + added.value;
    }
    assert records.value[..|records.value|] == records.value;
    r := Ok(SimpleRequest(settings.value, output));
  }

  // ---------------------------------------------------------------- what the streaming writer copies

  /** One payload to copy; a provider payload loses its `created_by` members. */
  datatype Emission = Emission(body: nat, provider: bool)

  function Emitted(bodies: seq<nat>, provider: bool): (r: seq<Emission>)
    ensures |r| == |bodies| && forall i :: 0 <= i < |r| ==> r[i] == Emission(bodies[i], provider)
  {
    seq(|bodies|, i requires 0 <= i < |bodies| => Emission(bodies[i], provider))
  }

  function RecordEmissions(s: Store, cutoff: nat, c: Chosen): Result<seq<Emission>> {
    if IsHostInput(c.entry.kind) then Ok([Emission(c.entry.key, false)])
    else
      match ModelOutput(s, cutoff, c.entry.key, c.anchored)
      case Err(e) => Err(e)
      case Ok(bodies) =>
        match ToolResults(s, cutoff, c.entry.key, c.anchored)
        case Err(e) => Err(e)
        case Ok(answers) => Ok(Emitted(bodies, true) + Emitted(answers, false))
  }

  function Emissions(s: Store, cutoff: nat, records: seq<Chosen>): Result<seq<Emission>> {
    if records == [] then Ok([])
    else
      var n := |records| - 1;
      match Emissions(s, cutoff, records[..n])
      case Err(e) => Err(e)
      case Ok(front) =>
        match RecordEmissions(s, cutoff, records[n])
        case Err(e) => Err(e)
        case Ok(more) => Ok(front + more)
  }

  function DropOf(provider: bool): Option<Bytes> {
    if provider then Some(CREATED_BY) else None
  }

  /** The members of a payload that is an object. */
  function ObjectOf(s: Store, body: nat): Option<Members> {
    if body >= |s.payloads| then None
    else
      match Parse(s.payloads[body].body)
      case None => None
      case Some((_, d, _)) => if d.Object? then Some(d.members) else None
  }

  /** A payload the streaming writer can copy to the end. */
  predicate Copyable(s: Store, body: nat) {
    ObjectOf(s, body).Some? && Intact(s, body)
  }

  predicate AllCopyable(s: Store, ems: seq<Emission>) {
    forall i :: 0 <= i < |ems| ==> Copyable(s, ems[i].body)
  }

  function EmissionMembers(s: Store, e: Emission): Members
    requires ObjectOf(s, e.body).Some?
  {
    Kept(ObjectOf(s, e.body).value, Target(DropOf(e.provider)))
  }

  /** One payload as copied. */
  function CopyOf(s: Store, e: Emission): Bytes {
    match ObjectOf(s, e.body)
    case None => []
    case Some(members) => CopiedText(members, Target(DropOf(e.provider)), true)
  }

  /** The copied payloads with commas between them. */
  function EmittedText(s: Store, ems: seq<Emission>): Bytes {
    if ems == [] then []
    else
      var n := |ems| - 1;
      EmittedText(s, ems[..n]) + (Separator(n == 0) + CopyOf(s, ems[n]))
  }

  /** The members every request carries after its settings, up to the input's opening bracket. */
  const FIXED: Bytes :=
    Ascii("\"store\":false,") + Ascii("\"stream\":true,") + Ascii("\"include\":[")
    + Ascii("\"reasoning.encrypted_content\"],") + Ascii("\"input\":[")

  const ENDING: Bytes := [CLOSE_ARRAY, CLOSE_OBJECT]

  function Head(settings: Members): Bytes {
    [OPEN_OBJECT] + MembersText(settings) + Separator(settings.NoMember?) + FIXED
  }

  /** What is to be copied: the settings' members and the payloads of the input. */
  datatype Plan = Plan(settings: Members, ems: seq<Emission>)

  function PlanOf(s: Store, cutoff: nat): Result<Plan> {
    match SettingsOf(s.facts, cutoff)
    case None => Err(Unavailable)
    case Some(body) =>
      if !Copyable(s, body) then Err(Unavailable)
      else
        match Selected(s, cutoff)
        case Err(e) => Err(e)
        case Ok(records) =>
          match Emissions(s, cutoff, records)
          case Err(e) => Err(e)
          case Ok(ems) => if AllCopyable(s, ems) then Ok(Plan(ObjectOf(s, body).value, ems)) else Err(Unavailable)
  }

  /** The bytes of the streamed request. */
  function RequestText(s: Store, plan: Plan): Bytes {
    Head(Kept(plan.settings, None)) + EmittedText(s, plan.ems) + ENDING
  }
}
