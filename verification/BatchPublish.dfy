// Two clients of the atomic batch protocol, the incremental publisher and the one-call
// PublishMsgBatch, and when they do the same.
module BatchPublish {
  import opened Arithmetic
  import opened Tokens
  import opened Decimal

  const ID := "Nats-Batch-Id"
  const SEQUENCE := "Nats-Batch-Sequence"
  const COMMIT := "Nats-Batch-Commit"

  type Header = map<string, string>

  /** A message; a nil header is None. */
  datatype Message = Message(subject: string, data: string, header: Option<Header>)

  datatype Sent =
    | Published(subject: string, data: string, header: Header)
    | Requested(subject: string, data: string, header: Header)

  datatype Flow = Flow(ackFirst: bool, ackEvery: int)

  datatype BatchAck = BatchAck(stream: string, id: string, size: nat)

  /** What comes of sending one message; Accepted is a reply without data, and an Acked reply
      without an ack in it has an empty stream name. */
  datatype Answer = Accepted | SendFails | Malformed | Refused(code: int) | Acked(ack: BatchAck)

  datatype Error =
    | Closed | NoMessages | SendFailed | BadJson | ServerError(code: int) | InvalidAck | NilHeader | InvalidOption

  datatype Result = Ok(ack: BatchAck) | Err(error: Error)

  predicate NeedsAck(flow: Flow, number: nat) {
    (flow.ackFirst && number == 1) || (flow.ackEvery > 0 && number % flow.ackEvery == 0)
  }

  function Stamp(h: Header, id: string, number: nat): Header {
    h[ID := id][SEQUENCE := Numeral(number)]
  }

  function HeaderOf(m: Message): Header { match m.header case Some(h) => h case None => map[] }

  function Transmission(m: Message, h: Header, asks: bool): Sent {
    if asks then Requested(m.subject, m.data, h) else Published(m.subject, m.data, h)
  }

  /** The commit reply, as both clients read it. */
  function ReadCommit(answer: Answer, id: string, size: nat): Result {
    match answer
    case SendFails => Err(SendFailed)
    case Malformed => Err(BadJson)
    case Refused(code) => Err(ServerError(code))
    case Accepted => Err(BadJson)
    case Acked(ack) => if ack.stream == "" || ack.id != id || ack.size != size then Err(InvalidAck) else Ok(ack)
  }

  // Message options

  const TTL := "Nats-TTL"
  const STREAM := "Nats-Expected-Stream"
  const LAST_SEQUENCE := "Nats-Expected-Last-Sequence"
  const SUBJECT_SEQUENCE := "Nats-Expected-Last-Subject-Sequence"
  const SEQUENCE_SUBJECT := "Nats-Expected-Last-Subject-Sequence-Subject"

  /** An option of one message. A time to live is kept as it is printed, empty when it is not
      positive. */
  datatype MsgOpt =
    | Lives(ttl: string)
    | ExpectStream(stream: string)
    | ExpectLast(sequence: nat)
    | ExpectLastHere(sequence: nat)
    | ExpectLastFor(sequence: nat, subject: string)

  datatype Opts = Opts(ttl: string, stream: string, last: Option<nat>, lastHere: Option<nat>, subject: string)

  function Taken(o: Opts, opt: MsgOpt): Option<Opts> {
    match opt
    case Lives(t) => Some(o.(ttl := t))
    case ExpectStream(s) => Some(o.(stream := s))
    case ExpectLast(n) => Some(o.(last := Some(n)))
    case ExpectLastHere(n) => Some(o.(lastHere := Some(n)))
    case ExpectLastFor(n, s) => if s == "" then None else Some(o.(lastHere := Some(n), subject := s))
  }

  /** Later options override earlier ones; an expectation for no subject is an error. */
  function Gathered(opts: seq<MsgOpt>): (r: Option<Opts>)
    ensures r.Some? && r.value.subject != "" ==> r.value.lastHere.Some?
  {
    if opts == [] then Some(Opts("", "", None, None, ""))
    else match Gathered(opts[..|opts| - 1])
      case None => None
      case Some(o) => Taken(o, opts[|opts| - 1])
  }

  function OptionHeaders(h: Header, o: Opts): Header
    requires o.subject != "" ==> o.lastHere.Some?
  {
    var h1 := if o.ttl != "" then h[TTL := o.ttl] else h;
    var h2 := if o.stream != "" then h1[STREAM := o.stream] else h1;
    var h3 := if o.subject != "" then h2[SEQUENCE_SUBJECT := o.subject] else h2;
    var h4 := if o.lastHere.Some? then h3[SUBJECT_SEQUENCE := Numeral(o.lastHere.value)] else h3;
    if o.last.Some? then h4[LAST_SEQUENCE := Numeral(o.last.value)] else h4
  }

  /** The message that options make of a message. */
  function WithOptions(m: Message, opts: seq<MsgOpt>): Option<Message> {
    match Gathered(opts)
    case None => None
    case Some(o) => Some(m.(header := Some(OptionHeaders(HeaderOf(m), o))))
  }

  lemma {:induction false} GatheredPrefix(opts: seq<MsgOpt>, i: nat)
    requires i <= |opts| && Gathered(opts).Some?
    ensures Gathered(opts[..i]).Some?
  {
    if i == |opts| {
      assert opts[..i] == opts;
    } else {
      var init := opts[..|opts| - 1];
      GatheredPrefix(init, i);
      assert init[..i] == opts[..i];
    }
  }

  /** The options of a message, gathered in order and then set as headers. */
  method SetOptions(header: Header, opts: seq<MsgOpt>) returns (r: Option<Header>)
    ensures r == match Gathered(opts) case None => None case Some(o) => Some(OptionHeaders(header, o))
  {
    hide OptionHeaders;
    var o := Opts("", "", None, None, "");
    for i := 0 to |opts|
      invariant Gathered(opts[..i]) == Some(o)
    {
      assert opts[..i + 1][..i] == opts[..i];
      var next := Taken(o, opts[i]);
      if next.None? {
        if Gathered(opts).Some? { GatheredPrefix(opts, i + 1); }
        return None;
      }
      o := next.value;
    }
    assert opts[..|opts|] == opts;
    var h := Written(header, o);
    return Some(h);
  }

  method Written(header: Header, o: Opts) returns (h: Header)
    requires o.subject != "" ==> o.lastHere.Some?
    ensures h == OptionHeaders(header, o)
  {
    h := header;
    if o.ttl != "" { h := h[TTL := o.ttl]; }
    if o.stream != "" { h := h[STREAM := o.stream]; }
    if o.subject != "" {
      h := h[SEQUENCE_SUBJECT := o.subject];
      h := h[SUBJECT_SEQUENCE := Numeral(o.lastHere.value)];
    } else if o.lastHere.Some? {
      h := h[SUBJECT_SEQUENCE := Numeral(o.lastHere.value)];
    }
    if o.last.Some? { h := h[LAST_SEQUENCE := Numeral(o.last.value)]; }
  }

  /** No option can forge or hide the headers of the protocol. */
  lemma OptionsKeepProtocol(h: Header, opts: seq<MsgOpt>, name: string)
    requires Gathered(opts).Some? && name in {ID, SEQUENCE, COMMIT}
    ensures var h' := OptionHeaders(h, Gathered(opts).value);
      (name in h' <==> name in h) && (name in h ==> h'[name] == h[name])
  {
    assert |TTL| == 8 && |ID| == 13 && |SEQUENCE| == 19 && |COMMIT| == 17;
    assert |STREAM| == 20 && |LAST_SEQUENCE| == 27 && |SUBJECT_SEQUENCE| == 35 && |SEQUENCE_SUBJECT| == 43;
  }

  // The incremental publisher

  datatype Batch = Batch(sequence: nat, closed: bool, trace: seq<Sent>)

  /** AddMsg's error from the reply to a message it waited for. */
  function FlowError(answer: Answer): Option<Error> {
    match answer
    case SendFails => Some(SendFailed)
    case Malformed => Some(BadJson)
    case Refused(code) => Some(ServerError(code))
    case _ => None
  }

  function Added(b: Batch, m: Message, flow: Flow, id: string, answer: Answer): (Batch, Option<Error>) {
    if b.closed then (b, Some(Closed))
    else
      var n := b.sequence + 1;
      var asks := NeedsAck(flow, n);
      (b.(sequence := n, trace := b.trace + [Transmission(m, Stamp(HeaderOf(m), id, n), asks)]),
       if asks then FlowError(answer) else if answer.SendFails? then Some(SendFailed) else None)
  }

  function CommittedWith(b: Batch, m: Message, id: string, answer: Answer): (Batch, Result) {
    if b.closed then (b, Err(Closed))
    else
      var n := b.sequence + 1;
      (Batch(n, !answer.SendFails?, b.trace + [Requested(m.subject, m.data, Stamp(HeaderOf(m), id, n)[COMMIT := "1"])]),
       ReadCommit(answer, id, n))
  }

  class BatchPublisher {
    const id: string
    const flow: Flow
    var sequence: nat
    var closed: bool
    var trace: seq<Sent>

    function State(): Batch
      reads this
    {
      Batch(sequence, closed, trace)
    }

    constructor (id: string, flow: Flow)
      ensures State() == Batch(0, false, []) && this.id == id && this.flow == flow
    {
      this.id, this.flow, sequence, closed, trace := id, flow, 0, false, [];
    }

    /** A message with options is sent as the message that the options make of it; where they
        fail, nothing is sent or numbered. */
    method AddMsg(m: Message, opts: seq<MsgOpt>, answer: Answer) returns (err: Option<Error>)
      modifies this
      ensures (State(), err) == match WithOptions(m, opts)
        case Some(m') => Added(old(State()), m', flow, id, answer)
        case None => (old(State()), Some(if old(closed) then Closed else InvalidOption))
    {
      if closed { return Some(Closed); }
      var options := SetOptions(HeaderOf(m), opts);
      if options.None? { return Some(InvalidOption); }
      var header := options.value;
      sequence := sequence + 1;
      header := header[ID := id];
      header := header[SEQUENCE := Numeral(sequence)];
      var needsAck := false;
      if flow.ackFirst && sequence == 1 {
        needsAck := true;
      } else if flow.ackEvery > 0 && sequence % flow.ackEvery == 0 {
        needsAck := true;
      }
      if !needsAck {
        trace := trace + [Published(m.subject, m.data, header)];
        return if answer.SendFails? then Some(SendFailed) else None;
      }
      trace := trace + [Requested(m.subject, m.data, header)];
      match answer {
        case SendFails => return Some(SendFailed);
        case Malformed => return Some(BadJson);
        case Refused(code) => return Some(ServerError(code));
        case _ => return None;
      }
    }

    method CommitMsg(m: Message, opts: seq<MsgOpt>, answer: Answer) returns (r: Result)
      modifies this
      ensures (State(), r) == match WithOptions(m, opts)
        case Some(m') => CommittedWith(old(State()), m', id, answer)
        case None => (old(State()), Err(if old(closed) then Closed else InvalidOption))
    {
      if closed { return Err(Closed); }
      var options := SetOptions(HeaderOf(m), opts);
      if options.None? { return Err(InvalidOption); }
      var header := options.value;
      sequence := sequence + 1;
      header := header[ID := id];
      header := header[SEQUENCE := Numeral(sequence)];
      header := header[COMMIT := "1"];
      trace := trace + [Requested(m.subject, m.data, header)];
      if answer.SendFails? { return Err(SendFailed); }
      closed := true;
      r := ReadCommit(answer, id, sequence);
    }

    /** After Discard, as after a commit, nothing is sent any more. */
    method Discard() returns (err: Option<Error>)
      modifies this
      ensures closed && trace == old(trace) && sequence == old(sequence)
      ensures err.Some? <==> old(closed)
    {
      if closed { return Some(Closed); }
      closed := true;
      err := None;
    }
  }

  /** An application that adds all messages but the last, commits the last, and stops at the
      first error; `answers` says what comes of each message. */
  function Incremental(b: Batch, ms: seq<Message>, flow: Flow, id: string, answers: nat -> Answer): (seq<Sent>, Result)
    requires ms != []
    decreases ms
  {
    if |ms| == 1 then
      var (b', r) := CommittedWith(b, ms[0], id, answers(b.sequence + 1));
      (b'.trace, r)
    else
      var (b', err) := Added(b, ms[0], flow, id, answers(b.sequence + 1));
      if err.Some? then (b'.trace, Err(err.value)) else Incremental(b', ms[1..], flow, id, answers)
  }

  // The one-call publisher

  /** PublishMsgBatch from message number `number` on. Setting a header of a message that has
      none is a write to a nil map. */
  function AllFrom(ms: seq<Message>, number: nat, flow: Flow, id: string, answers: nat -> Answer,
      trace: seq<Sent>): (seq<Sent>, Result)
    requires ms != []
    decreases ms
  {
    if ms[0].header.None? then (trace, Err(NilHeader))
    else
      var h := Stamp(ms[0].header.value - {COMMIT}, id, number);
      var answer := answers(number);
      if |ms| == 1 then
        (trace + [Requested(ms[0].subject, ms[0].data, h[COMMIT := "1"])], ReadCommit(answer, id, number))
      else
        var asks := NeedsAck(flow, number);
        var trace' := trace + [Transmission(ms[0], h, asks)];
        match answer
        case SendFails => (trace', Err(SendFailed))
        case Refused(code) =>
          if asks then (trace', Err(ServerError(code)))
          else AllFrom(ms[1..], number + 1, flow, id, answers, trace')
        case _ => AllFrom(ms[1..], number + 1, flow, id, answers, trace')
  }

  method PublishMsgBatch(messages: seq<Message>, flow: Flow, id: string,
      answers: nat -> Answer) returns (trace: seq<Sent>, r: Result)
    ensures (trace, r) == if messages == [] then ([], Err(NoMessages)) else AllFrom(messages, 1, flow, id, answers, [])
  {
    trace := [];
    var msgs := |messages|;
    if msgs == 0 { return [], Err(NoMessages); }
    var i := 0;
    while i < msgs - 1
      invariant 0 <= i < msgs
      invariant AllFrom(messages, 1, flow, id, answers, []) == AllFrom(messages[i..], i + 1, flow, id, answers, trace)
    {
      assert messages[i..][1..] == messages[i + 1..];
      if messages[i].header.None? { return trace, Err(NilHeader); }
      var header := messages[i].header.value - {COMMIT};
      header := header[ID := id];
      header := header[SEQUENCE := Numeral(i + 1)];
      var needsAck := false;
      var number := i + 1;
      if flow.ackFirst && number == 1 {
        needsAck := true;
      } else if flow.ackEvery > 0 && number % flow.ackEvery == 0 {
        needsAck := true;
      }
      if !needsAck {
        trace := trace + [Published(messages[i].subject, messages[i].data, header)];
        if answers(number).SendFails? { return trace, Err(SendFailed); }
      } else {
        trace := trace + [Requested(messages[i].subject, messages[i].data, header)];
        if answers(number).SendFails? { return trace, Err(SendFailed); }
        if answers(number).Refused? { return trace, Err(ServerError(answers(number).code)); }
      }
      i := i + 1;
    }
    if messages[i].header.None? { return trace, Err(NilHeader); }
    var header := messages[i].header.value - {COMMIT};
    header := header[ID := id];
    header := header[SEQUENCE := Numeral(i + 1)];
    header := header[COMMIT := "1"];
    trace := trace + [Requested(messages[i].subject, messages[i].data, header)];
    r := ReadCommit(answers(i + 1), id, msgs);
  }

  // Agreement

  /** Where the two clients part, walking through the messages: at one without a header, at
      one before the last that brings a commit header, and at a malformed reply that is waited
      for before the commit; unless a failure that both report has ended the batch. */
  predicate Diverge(ms: seq<Message>, number: nat, flow: Flow, answers: nat -> Answer)
    requires ms != []
    decreases ms
  {
    if ms[0].header.None? then true
    else if |ms| == 1 then false
    else if COMMIT in ms[0].header.value then true
    else match answers(number)
      case SendFails => false
      case Refused(_) => !NeedsAck(flow, number) && Diverge(ms[1..], number + 1, flow, answers)
      case Malformed => NeedsAck(flow, number) || Diverge(ms[1..], number + 1, flow, answers)
      case _ => Diverge(ms[1..], number + 1, flow, answers)
  }

  lemma HeaderNames()
    ensures ID != COMMIT && SEQUENCE != COMMIT && ID != SEQUENCE
  {
    assert COMMIT[11] == 'C' && ID[11] == 'I' && SEQUENCE[11] == 'S';
  }

  lemma StampsEqual(h: Header, id: string, number: nat)
    requires COMMIT !in h
    ensures Stamp(h - {COMMIT}, id, number) == Stamp(h, id, number)
  {
    assert h - {COMMIT} == h;
  }

  lemma CommitStampsEqual(h: Header, id: string, number: nat)
    ensures Stamp(h - {COMMIT}, id, number)[COMMIT := "1"] == Stamp(h, id, number)[COMMIT := "1"]
  {
    HeaderNames();
  }

  function FirstSent(m: Message, h: Header, id: string, number: nat, flow: Flow, last: bool): Sent {
    if last then Requested(m.subject, m.data, Stamp(h, id, number)[COMMIT := "1"])
    else Transmission(m, Stamp(h, id, number), NeedsAck(flow, number))
  }

  /** What the incremental publisher sends begins with its first message. */
  lemma {:induction false} TraceGrows(b: Batch, ms: seq<Message>, flow: Flow, id: string, answers: nat -> Answer)
    requires ms != [] && !b.closed
    ensures b.trace + [FirstSent(ms[0], HeaderOf(ms[0]), id, b.sequence + 1, flow, |ms| == 1)]
      <= Incremental(b, ms, flow, id, answers).0
    decreases ms
  {
    if |ms| > 1 {
      var (b', err) := Added(b, ms[0], flow, id, answers(b.sequence + 1));
      if err.None? { TraceGrows(b', ms[1..], flow, id, answers); }
    }
  }

  /** So does what PublishMsgBatch sends, if that message has a header. */
  lemma {:induction false} AllTraceGrows(ms: seq<Message>, number: nat, flow: Flow, id: string,
      answers: nat -> Answer, trace: seq<Sent>)
    requires ms != []
    ensures trace <= AllFrom(ms, number, flow, id, answers, trace).0
    ensures ms[0].header.Some? ==>
      trace + [FirstSent(ms[0], ms[0].header.value - {COMMIT}, id, number, flow, |ms| == 1)]
      <= AllFrom(ms, number, flow, id, answers, trace).0
    decreases ms
  {
    if ms[0].header.Some? && |ms| > 1 {
      var sent := FirstSent(ms[0], ms[0].header.value - {COMMIT}, id, number, flow, false);
      AllTraceGrows(ms[1..], number + 1, flow, id, answers, trace + [sent]);
    }
  }

  lemma SameAt<T>(a: seq<T>, x: T, y: T, s: seq<T>)
    requires a + [x] <= s && a + [y] <= s
    ensures x == y
  {
    assert (a + [x])[|a|] == s[|a|] && (a + [y])[|a|] == s[|a|];
  }

  /** A commit header of its own shows in what is sent: only PublishMsgBatch removes it. */
  lemma CommitHeaderShows(m: Message, id: string, number: nat, flow: Flow)
    requires m.header.Some? && COMMIT in m.header.value
    ensures FirstSent(m, HeaderOf(m), id, number, flow, false)
      != FirstSent(m, m.header.value - {COMMIT}, id, number, flow, false)
  {
    HeaderNames();
    assert COMMIT in Stamp(HeaderOf(m), id, number) && COMMIT !in Stamp(m.header.value - {COMMIT}, id, number);
  }

  lemma DivergedTraces(b: Batch, ms: seq<Message>, flow: Flow, id: string, answers: nat -> Answer)
    requires ms != [] && !b.closed
    requires ms[0].header.None? || (|ms| > 1 && COMMIT in ms[0].header.value)
    ensures Incremental(b, ms, flow, id, answers) != AllFrom(ms, b.sequence + 1, flow, id, answers, b.trace)
  {
    TraceGrows(b, ms, flow, id, answers);
    AllTraceGrows(ms, b.sequence + 1, flow, id, answers, b.trace);
    var mine, all := Incremental(b, ms, flow, id, answers), AllFrom(ms, b.sequence + 1, flow, id, answers, b.trace);
    if ms[0].header.Some? && mine.0 == all.0 {
      CommitHeaderShows(ms[0], id, b.sequence + 1, flow);
      SameAt(b.trace, FirstSent(ms[0], HeaderOf(ms[0]), id, b.sequence + 1, flow, false),
        FirstSent(ms[0], ms[0].header.value - {COMMIT}, id, b.sequence + 1, flow, false),
        Incremental(b, ms, flow, id, answers).0);
    }
  }

  /** After a malformed reply that it waited for, the incremental client stops; the other
      goes on to the next message. */
  lemma MalformedParts(b: Batch, ms: seq<Message>, flow: Flow, id: string, answers: nat -> Answer)
    requires |ms| > 1 && !b.closed && ms[0].header.Some? && COMMIT !in ms[0].header.value
    requires NeedsAck(flow, b.sequence + 1) && answers(b.sequence + 1).Malformed?
    ensures Incremental(b, ms, flow, id, answers).1 == Err(BadJson)
    ensures Incremental(b, ms, flow, id, answers) != AllFrom(ms, b.sequence + 1, flow, id, answers, b.trace)
  {
    var sent := FirstSent(ms[0], ms[0].header.value - {COMMIT}, id, b.sequence + 1, flow, false);
    StampsEqual(ms[0].header.value, id, b.sequence + 1);
    AllTraceGrows(ms[1..], b.sequence + 2, flow, id, answers, b.trace + [sent]);
  }

  /** Whatever the messages and the answers, the two clients send the same messages in the
      same way and return the same exactly when they do not part on the way. */
  lemma {:induction false} AgreeExactly(b: Batch, ms: seq<Message>, flow: Flow, id: string, answers: nat -> Answer)
    requires ms != [] && !b.closed
    ensures Incremental(b, ms, flow, id, answers) == AllFrom(ms, b.sequence + 1, flow, id, answers, b.trace)
      <==> !Diverge(ms, b.sequence + 1, flow, answers)
    decreases ms
  {
    var number := b.sequence + 1;
    if ms[0].header.None? || (|ms| > 1 && COMMIT in ms[0].header.value) {
      DivergedTraces(b, ms, flow, id, answers);
    } else if |ms| == 1 {
      CommitStampsEqual(ms[0].header.value, id, number);
    } else {
      StampsEqual(ms[0].header.value, id, number);
      var (b', err) := Added(b, ms[0], flow, id, answers(number));
      if err.None? {
        AgreeExactly(b', ms[1..], flow, id, answers);
      } else if err == Some(BadJson) {
        MalformedParts(b, ms, flow, id, answers);
      }
    }
  }

  predicate HeadersPresent(ms: seq<Message>) { forall i :: 0 <= i < |ms| ==> ms[i].header.Some? }

  ghost predicate AllAccepted(answers: nat -> Answer) { forall k :: answers(k).Accepted? || answers(k).Acked? }

  /** Every message has a header, and none but the last brings a commit header of its own. */
  predicate Ordinary(ms: seq<Message>) {
    forall i :: 0 <= i < |ms| ==> ms[i].header.Some? && (i < |ms| - 1 ==> COMMIT !in ms[i].header.value)
  }

  /** With a server that accepts everything it is the messages alone that decide. */
  lemma {:induction false} OrdinaryAgree(ms: seq<Message>, number: nat, flow: Flow, answers: nat -> Answer)
    requires ms != [] && AllAccepted(answers)
    ensures !Diverge(ms, number, flow, answers) <==> Ordinary(ms)
    decreases ms
  {
    if ms[0].header.Some? && |ms| > 1 && COMMIT !in ms[0].header.value {
      OrdinaryAgree(ms[1..], number + 1, flow, answers);
      assert forall i :: 1 <= i < |ms| ==> ms[1..][i - 1] == ms[i];
      if Ordinary(ms) {
        assert forall i :: 0 <= i < |ms[1..]| ==> ms[1..][i] == ms[i + 1];
      }
    }
  }

  /** The batch gets to a message without a header: no failure that is reported before has
      ended it. */
  predicate MeetsNil(ms: seq<Message>, number: nat, flow: Flow, answers: nat -> Answer)
    requires ms != []
    decreases ms
  {
    if ms[0].header.None? then true
    else if |ms| == 1 then false
    else match answers(number)
      case SendFails => false
      case Refused(_) => !NeedsAck(flow, number) && MeetsNil(ms[1..], number + 1, flow, answers)
      case _ => MeetsNil(ms[1..], number + 1, flow, answers)
  }

  /** PublishMsgBatch writes to a nil map exactly when it gets to a message without a header. */
  lemma {:induction false} NilHeaderMet(ms: seq<Message>, number: nat, flow: Flow, id: string,
      answers: nat -> Answer, trace: seq<Sent>)
    requires ms != []
    ensures AllFrom(ms, number, flow, id, answers, trace).1 == Err(NilHeader) <==> MeetsNil(ms, number, flow, answers)
    decreases ms
  {
    if ms[0].header.Some? && |ms| > 1 {
      var h := Stamp(ms[0].header.value - {COMMIT}, id, number);
      NilHeaderMet(ms[1..], number + 1, flow, id, answers, trace + [Transmission(ms[0], h, NeedsAck(flow, number))]);
    }
  }

  lemma {:induction false} MeetsNilSomewhere(ms: seq<Message>, number: nat, flow: Flow, answers: nat -> Answer)
    requires ms != []
    ensures HeadersPresent(ms) ==> !MeetsNil(ms, number, flow, answers)
    ensures AllAccepted(answers) ==> (MeetsNil(ms, number, flow, answers) <==> !HeadersPresent(ms))
    decreases ms
  {
    if |ms| > 1 {
      MeetsNilSomewhere(ms[1..], number + 1, flow, answers);
      assert forall i :: 1 <= i < |ms| ==> ms[1..][i - 1] == ms[i];
      assert HeadersPresent(ms) <==> ms[0].header.Some? && HeadersPresent(ms[1..]) by {
        if HeadersPresent(ms) { assert forall i :: 0 <= i < |ms[1..]| ==> ms[1..][i] == ms[i + 1]; }
      }
    }
  }

  /** Whatever the server does there is no such write, exactly when all messages have headers. */
  lemma NilHeaderPanics(ms: seq<Message>, number: nat, flow: Flow, id: string, trace: seq<Sent>)
    requires ms != []
    ensures HeadersPresent(ms)
      <==> forall answers :: AllFrom(ms, number, flow, id, answers, trace).1 != Err(NilHeader)
  {
    hide AllFrom, MeetsNil, HeadersPresent;
    forall answers: nat -> Answer
      ensures HeadersPresent(ms) ==> AllFrom(ms, number, flow, id, answers, trace).1 != Err(NilHeader)
    {
      NilHeaderMet(ms, number, flow, id, answers, trace);
      MeetsNilSomewhere(ms, number, flow, answers);
    }
    var accepting := n => Accepted;
    NilHeaderMet(ms, number, flow, id, accepting, trace);
    MeetsNilSomewhere(ms, number, flow, accepting);
  }

  // How often the server is waited for

  ghost function Requests(trace: seq<Sent>): nat {
    if trace == [] then 0 else Requests(trace[..|trace| - 1]) + if trace[|trace| - 1].Requested? then 1 else 0
  }

  lemma RequestsAppend(trace: seq<Sent>, t: Sent)
    ensures Requests(trace + [t]) == Requests(trace) + if t.Requested? then 1 else 0
  {
    assert (trace + [t])[..|trace|] == trace;
  }

  /** How many of the messages numbered up to `n` are waited for. */
  function Waits(flow: Flow, n: nat): nat {
    (if flow.ackEvery > 0 then n / flow.ackEvery else 0)
    + if flow.ackFirst && flow.ackEvery != 1 && n >= 1 then 1 else 0
  }

  lemma WaitsStep(flow: Flow, n: nat)
    ensures Waits(flow, n + 1) == Waits(flow, n) + if NeedsAck(flow, n + 1) then 1 else 0
  {
    if flow.ackEvery > 0 {
      QuotientStep(n, flow.ackEvery);
      if n == 0 && flow.ackEvery > 1 {
        DivMod(1, flow.ackEvery, 0, 1);
      }
    }
  }

  lemma AddedRequests(b: Batch, m: Message, flow: Flow, id: string, answer: Answer)
    requires !b.closed && (answer.Accepted? || answer.Acked?)
    ensures var (b', err) := Added(b, m, flow, id, answer);
      && err.None? && !b'.closed && b'.sequence == b.sequence + 1
      && Requests(b'.trace) == Requests(b.trace) + if NeedsAck(flow, b.sequence + 1) then 1 else 0
  {
    hide Stamp, NeedsAck;
    var (b', err) := Added(b, m, flow, id, answer);
    RequestsAppend(b.trace, b'.trace[|b.trace|]);
  }

  /** Over a whole batch of n messages: one request for every AckEvery-th message, one for
      the first if asked for and not among those, and one for the commit. */
  lemma {:induction false} RequestCount(b: Batch, ms: seq<Message>, flow: Flow, id: string, answers: nat -> Answer)
    requires ms != [] && !b.closed && AllAccepted(answers) && Requests(b.trace) == Waits(flow, b.sequence)
    ensures Requests(Incremental(b, ms, flow, id, answers).0) == Waits(flow, b.sequence + |ms| - 1) + 1
    decreases ms
  {
    hide Stamp, NeedsAck, Waits, Requests, Added;
    var number := b.sequence + 1;
    if |ms| == 1 {
      RequestsAppend(b.trace, Requested(ms[0].subject, ms[0].data, Stamp(HeaderOf(ms[0]), id, number)[COMMIT := "1"]));
    } else {
      AddedRequests(b, ms[0], flow, id, answers(number));
      WaitsStep(flow, b.sequence);
      RequestCount(Added(b, ms[0], flow, id, answers(number)).0, ms[1..], flow, id, answers);
    }
  }

  // What is sent

  /** A header is the message's own under every name that the protocol does not use. */
  ghost predicate OthersKept(h: Header, own: Header) {
    forall name :: name !in {"Nats-Batch-Id", "Nats-Batch-Sequence", "Nats-Batch-Commit"} ==>
      (name in h <==> name in own) && (name in h ==> h[name] == own[name])
  }

  /** What message `m` is as number `n` of batch `id`; `commits` says that it ends the batch,
      `keeps` that a commit header it brings is left on it. */
  ghost predicate SentAs(t: Sent, m: Message, n: nat, flow: Flow, id: string, commits: bool, keeps: bool) {
    var commit, own := "Nats-Batch-Commit", HeaderOf(m);
    && t.subject == m.subject && t.data == m.data
    && (t.Requested? <==> commits || NeedsAck(flow, n))
    && "Nats-Batch-Id" in t.header && t.header["Nats-Batch-Id"] == id
    && "Nats-Batch-Sequence" in t.header && t.header["Nats-Batch-Sequence"] == Numeral(n)
    && (commit in t.header <==> commits || (keeps && commit in own))
    && (commit in t.header ==> t.header[commit] == if commits then "1" else own[commit])
    && OthersKept(t.header, own)
  }

  /** What was sent after the first `before` items are the first messages, in their order and
      numbered on from `number`; only the last of all messages commits. */
  ghost predicate SentInOrder(trace: seq<Sent>, before: nat, ms: seq<Message>, number: nat, flow: Flow, id: string,
      keeps: bool) {
    && before <= |trace| <= before + |ms|
    && forall i :: before <= i < |trace| ==>
         SentAs(trace[i], ms[i - before], number + i - before, flow, id, i - before == |ms| - 1, keeps)
  }

  lemma StampedSentAs(m: Message, own: Header, n: nat, flow: Flow, id: string, keeps: bool)
    requires own == if keeps then HeaderOf(m) else HeaderOf(m) - {COMMIT}
    ensures SentAs(Transmission(m, Stamp(own, id, n), NeedsAck(flow, n)), m, n, flow, id, false, keeps)
    ensures SentAs(Requested(m.subject, m.data, Stamp(own, id, n)[COMMIT := "1"]), m, n, flow, id, true, keeps)
  {
    hide NeedsAck, Numeral;
    HeaderNames();
  }

  /** One message, and then the others in order. */
  lemma SentNext(trace: seq<Sent>, before: nat, ms: seq<Message>, number: nat, flow: Flow, id: string, keeps: bool)
    requires |ms| > 1 && before < |trace| && SentAs(trace[before], ms[0], number, flow, id, false, keeps)
    requires SentInOrder(trace, before + 1, ms[1..], number + 1, flow, id, keeps)
    ensures SentInOrder(trace, before, ms, number, flow, id, keeps)
  {
    hide SentAs;
    forall i | before <= i < |trace|
      ensures SentAs(trace[i], ms[i - before], number + i - before, flow, id, i - before == |ms| - 1, keeps)
    {
      if i > before { assert ms[1..][i - before - 1] == ms[i - before]; }
    }
  }

  /** Whatever the messages and the answers: what the incremental publisher sends carries the
      batch's id and the numbers in order, commits with the last message, and is otherwise what
      the application gave it. */
  lemma {:induction false} IncrementalSends(b: Batch, ms: seq<Message>, flow: Flow, id: string, answers: nat -> Answer)
    requires ms != [] && !b.closed
    ensures var trace := Incremental(b, ms, flow, id, answers).0;
      b.trace < trace && SentInOrder(trace, |b.trace|, ms, b.sequence + 1, flow, id, true)
    decreases ms
  {
    hide SentAs, Stamp, NeedsAck, Numeral;
    var n := b.sequence + 1;
    StampedSentAs(ms[0], HeaderOf(ms[0]), n, flow, id, true);
    if |ms| > 1 {
      var (b', err) := Added(b, ms[0], flow, id, answers(n));
      if err.None? {
        IncrementalSends(b', ms[1..], flow, id, answers);
        var trace := Incremental(b', ms[1..], flow, id, answers).0;
        assert trace[|b.trace|] == b'.trace[|b.trace|];
        SentNext(trace, |b.trace|, ms, n, flow, id, true);
      }
    }
  }

  /** So does what PublishMsgBatch sends, with commit headers of the application removed. */
  lemma {:induction false} AllSends(ms: seq<Message>, number: nat, flow: Flow, id: string, answers: nat -> Answer,
      trace: seq<Sent>)
    requires ms != []
    ensures var sent := AllFrom(ms, number, flow, id, answers, trace).0;
      trace <= sent && SentInOrder(sent, |trace|, ms, number, flow, id, false)
    decreases ms
  {
    hide SentAs, Stamp, NeedsAck, Numeral;
    if ms[0].header.Some? {
      StampedSentAs(ms[0], ms[0].header.value - {COMMIT}, number, flow, id, false);
      if |ms| > 1 {
        var first := Transmission(ms[0], Stamp(ms[0].header.value - {COMMIT}, id, number), NeedsAck(flow, number));
        AllSends(ms[1..], number + 1, flow, id, answers, trace + [first]);
        var sent := AllFrom(ms[1..], number + 1, flow, id, answers, trace + [first]).0;
        assert (trace + [first])[|trace|] == first;
        SentNext(sent, |trace|, ms, number, flow, id, false);
      }
    }
  }

  // What is returned

  /** The acknowledgement of a batch of `size` messages by a stream. */
  predicate Acknowledges(answer: Answer, id: string, size: nat) {
    answer.Acked? && answer.ack.stream != "" && answer.ack.id == id && answer.ack.size == size
  }

  /** A commit succeeds exactly on an acknowledgement from a stream for this batch and all its
      messages; every other answer is told apart. */
  lemma ReadCommitExactly(answer: Answer, id: string, size: nat)
    ensures var r := ReadCommit(answer, id, size);
      && (r.Ok? <==> Acknowledges(answer, id, size)) && (r.Ok? ==> r.ack == answer.ack)
      && (r == Err(SendFailed) <==> answer.SendFails?)
      && (forall code :: r == Err(ServerError(code)) <==> answer == Refused(code))
      && (r == Err(BadJson) <==> answer.Malformed? || answer.Accepted?)
      && (r == Err(InvalidAck) <==> answer.Acked? && !Acknowledges(answer, id, size))
  {
  }

  /** A message before the last does not stop the batch. */
  predicate Passes(flow: Flow, n: nat, answer: Answer) {
    if NeedsAck(flow, n) then answer.Accepted? || answer.Acked? else !answer.SendFails?
  }

  ghost predicate AllPass(flow: Flow, first: nat, last: nat, answers: nat -> Answer) {
    forall n :: first <= n < last ==> Passes(flow, n, answers(n))
  }

  /** The incremental client's batch is committed exactly when no message before the last
      failed, and the acknowledgement that it returns is the one for all messages. */
  lemma {:induction false} CommitsExactly(b: Batch, ms: seq<Message>, flow: Flow, id: string, answers: nat -> Answer)
    requires ms != [] && !b.closed
    ensures var (trace, r) := Incremental(b, ms, flow, id, answers);
      var size := b.sequence + |ms|;
      && (r.Ok? <==> AllPass(flow, b.sequence + 1, size, answers) && Acknowledges(answers(size), id, size))
      && (r.Ok? ==> |trace| == |b.trace| + |ms| && r.ack == answers(size).ack)
    decreases ms
  {
    hide Stamp, NeedsAck;
    if |ms| > 1 {
      var n := b.sequence + 1;
      var (b', err) := Added(b, ms[0], flow, id, answers(n));
      assert err.None? <==> Passes(flow, n, answers(n));
      if err.None? { CommitsExactly(b', ms[1..], flow, id, answers); }
    }
  }

  /** PublishMsgBatch goes on after a malformed reply, and needs all headers. */
  predicate GoesOn(flow: Flow, n: nat, answer: Answer) {
    Passes(flow, n, answer) || (NeedsAck(flow, n) && answer.Malformed?)
  }

  ghost predicate AllGoOn(flow: Flow, first: nat, last: nat, answers: nat -> Answer) {
    forall n :: first <= n < last ==> GoesOn(flow, n, answers(n))
  }

  lemma {:induction false} AllCommitsExactly(ms: seq<Message>, number: nat, flow: Flow, id: string,
      answers: nat -> Answer, trace: seq<Sent>)
    requires ms != [] && number > 0
    ensures var (sent, r) := AllFrom(ms, number, flow, id, answers, trace);
      var size := number + |ms| - 1;
      && (r.Ok? <==>
            HeadersPresent(ms) && AllGoOn(flow, number, size, answers) && Acknowledges(answers(size), id, size))
      && (r.Ok? ==> |sent| == |trace| + |ms| && r.ack == answers(size).ack)
    decreases ms
  {
    hide Stamp, NeedsAck;
    if ms[0].header.Some? && |ms| > 1 {
      var asks := NeedsAck(flow, number);
      var first := Transmission(ms[0], Stamp(ms[0].header.value - {COMMIT}, id, number), asks);
      AllCommitsExactly(ms[1..], number + 1, flow, id, answers, trace + [first]);
      assert forall i :: 1 <= i < |ms| ==> ms[1..][i - 1] == ms[i];
      assert HeadersPresent(ms) <==> HeadersPresent(ms[1..]) by {
        if HeadersPresent(ms) { assert forall i :: 0 <= i < |ms[1..]| ==> ms[1..][i] == ms[i + 1]; }
      }
    }
  }

  /** A commit ends the batch exactly when it could be sent, whatever the answer was. */
  lemma CommitEnds(b: Batch, m: Message, id: string, answer: Answer, later: Message, flow: Flow, next: Answer)
    requires !b.closed
    ensures var b' := CommittedWith(b, m, id, answer).0;
      Added(b', later, flow, id, next) == (b', Some(Closed)) <==> !answer.SendFails?
  {
    hide Stamp, NeedsAck;
  }

  // What the options mean

  /** The header as it was under one name. */
  function Restored(h: Header, own: Header, name: string): Header {
    if name in own then h[name := own[name]] else h - {name}
  }

  lemma OptionNames()
    ensures TTL != STREAM && TTL != LAST_SEQUENCE && TTL != SUBJECT_SEQUENCE && TTL != SEQUENCE_SUBJECT
    ensures STREAM != LAST_SEQUENCE && STREAM != SUBJECT_SEQUENCE && STREAM != SEQUENCE_SUBJECT
    ensures LAST_SEQUENCE != SUBJECT_SEQUENCE && LAST_SEQUENCE != SEQUENCE_SUBJECT
    ensures SUBJECT_SEQUENCE != SEQUENCE_SUBJECT
  {
    assert |TTL| == 8 && |STREAM| == 20 && |LAST_SEQUENCE| == 27 && |SUBJECT_SEQUENCE| == 35;
    assert |SEQUENCE_SUBJECT| == 43;
  }

  /** What one more option does to the header that the earlier ones made: it sets its own
      headers, over any earlier option; an empty time to live or stream takes them back. */
  function OneOption(h: Header, own: Header, opt: MsgOpt): Option<Header> {
    match opt
    case Lives(t) => Some(if t == "" then Restored(h, own, "Nats-TTL") else h["Nats-TTL" := t])
    case ExpectStream(s) =>
      Some(if s == "" then Restored(h, own, "Nats-Expected-Stream") else h["Nats-Expected-Stream" := s])
    case ExpectLast(n) => Some(h["Nats-Expected-Last-Sequence" := Numeral(n)])
    case ExpectLastHere(n) => Some(h["Nats-Expected-Last-Subject-Sequence" := Numeral(n)])
    case ExpectLastFor(n, s) =>
      if s == "" then None
      else
        Some(h["Nats-Expected-Last-Subject-Sequence" := Numeral(n)]
              ["Nats-Expected-Last-Subject-Sequence-Subject" := s])
  }

  function HeaderAt(h: Header, name: string): Option<string> { if name in h then Some(h[name]) else None }

  lemma SameHeaders(h: Header, h': Header)
    requires forall name :: HeaderAt(h, name) == HeaderAt(h', name)
    ensures h == h'
  {
    assert forall name :: name in h ==> HeaderAt(h, name) == HeaderAt(h', name);
    assert forall name :: name in h' ==> HeaderAt(h', name) == HeaderAt(h, name);
  }

  /** The value that gathered options give a name, over the message's own. */
  function Meant(own: Header, o: Opts, name: string): Option<string> {
    if name == TTL && o.ttl != "" then Some(o.ttl)
    else if name == STREAM && o.stream != "" then Some(o.stream)
    else if name == SEQUENCE_SUBJECT && o.subject != "" then Some(o.subject)
    else if name == SUBJECT_SEQUENCE && o.lastHere.Some? then Some(Numeral(o.lastHere.value))
    else if name == LAST_SEQUENCE && o.last.Some? then Some(Numeral(o.last.value))
    else HeaderAt(own, name)
  }

  lemma HeadersMeant(own: Header, o: Opts, name: string)
    requires o.subject != "" ==> o.lastHere.Some?
    ensures HeaderAt(OptionHeaders(own, o), name) == Meant(own, o, name)
  {
    hide Numeral;
    OptionNames();
  }

  /** Options in order: none leaves the header alone, and one more does its own part to what
      the others made, or fails as they did. */
  lemma OptionsSet(m: Message, opts: seq<MsgOpt>, opt: MsgOpt)
    ensures WithOptions(m, []) == Some(m.(header := Some(HeaderOf(m))))
    ensures WithOptions(m, opts + [opt]) == match WithOptions(m, opts)
      case None => None
      case Some(m') => match OneOption(HeaderOf(m'), HeaderOf(m), opt)
        case None => None
        case Some(h) => Some(m.(header := Some(h)))
  {
    hide OptionHeaders, OneOption;
    NoOptions(HeaderOf(m));
    assert (opts + [opt])[..|opts|] == opts;
    if Gathered(opts).Some? { TakenSets(HeaderOf(m), Gathered(opts).value, opt); }
  }

  lemma NoOptions(own: Header)
    ensures OptionHeaders(own, Opts("", "", None, None, "")) == own
  {
  }

  lemma TakenSets(own: Header, o: Opts, opt: MsgOpt)
    requires o.subject != "" ==> o.lastHere.Some?
    ensures Taken(o, opt).Some? <==> OneOption(OptionHeaders(own, o), own, opt).Some?
    ensures Taken(o, opt).Some? ==>
      OptionHeaders(own, Taken(o, opt).value) == OneOption(OptionHeaders(own, o), own, opt).value
  {
    hide Numeral, OptionHeaders;
    OptionNames();
    var h := OptionHeaders(own, o);
    if Taken(o, opt).Some? {
      var o', h' := Taken(o, opt).value, OneOption(h, own, opt).value;
      forall name ensures HeaderAt(OptionHeaders(own, o'), name) == HeaderAt(h', name) {
        HeadersMeant(own, o, name);
        HeadersMeant(own, o', name);
      }
      SameHeaders(OptionHeaders(own, o'), h');
    }
  }
}
