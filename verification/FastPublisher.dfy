// The fast publisher's own state and the sections of code that run under its lock: the
// start of AddMsg, the re-check after a stall, the start of commit, and the ack handler.
module FastPublisher {
  import opened Tokens

  /** The mutable fields. `firstCh` and `commitCh` say that the channel exists, `firstAck`
      and `answered` what is waiting in it; `token` is what is waiting in the stall channel,
      which exists once `stallCh` is set. `held` says that the ack handler holds the lock, with
      one more response for the commit channel than there is room for. */
  datatype Pub = Pub(
    sequence: nat, ackSequence: nat, flow: nat, closed: bool, subscribed: bool,
    firstCh: bool, firstAck: Option<nat>, stallCh: bool, token: bool, commitCh: bool, answered: bool, held: bool
  )

  datatype Operation = StartOp | AddOp | CommitOp | EndOp

  /** Whether the connection accepts a subscription and a publication. */
  datatype Conn = Conn(subscribes: bool, publishes: bool)

  datatype Notice = Ack(sequence: nat, messages: nat) | Informational | Terminal

  function NewPub(flow: nat): Pub { Pub(0, 0, flow, false, false, false, None, false, false, false, false, false) }

  /** waitForAck: too many messages are unacknowledged. */
  predicate WaitForAck(p: Pub, maxAcks: nat) { p.ackSequence + p.flow * maxAcks <= p.sequence }

  datatype AddResult = ClosedAlready | SubscribeFailed | PublishFailed | FirstSent | Sent

  /** Subscribing and sending the first message. */
  function FirstSection(p: Pub, conn: Conn): (Pub, AddResult) {
    if !conn.subscribes then (p, SubscribeFailed)
    else
      var q := p.(subscribed := true, firstCh := true, firstAck := None, stallCh := true, token := false);
      if !conn.publishes then (q.(subscribed := false, firstCh := false, closed := true), PublishFailed)
      else (q, FirstSent)
  }

  function AddSection(p: Pub, conn: Conn): (Pub, AddResult) {
    if p.closed then (p, ClosedAlready)
    else
      var q := p.(sequence := p.sequence + 1);
      if q.sequence == 1 then FirstSection(q, conn)
      else (q, if conn.publishes then Sent else PublishFailed)
  }

  function CommitSection(p: Pub, conn: Conn): (Pub, AddResult) {
    var q := p.(sequence := p.sequence + 1, commitCh := true);
    if !q.subscribed && !conn.subscribes then (q, SubscribeFailed)
    else (q.(subscribed := true), if conn.publishes then Sent else PublishFailed)
  }

  /** The end of a first message, a stall or a commit that did not succeed. */
  function GiveUp(p: Pub, unsubscribe: bool): Pub {
    p.(closed := true, subscribed := p.subscribed && !unsubscribe, firstCh := p.firstCh && !unsubscribe)
  }

  function Handled(p: Pub, n: Notice): Pub {
    match n
    case Informational => p
    case Ack(sequence, messages) =>
      var q := p.(flow := messages, ackSequence := sequence);
      if q.firstCh then q.(firstAck := Some(sequence), firstCh := false)
      else q.(token := q.token || q.stallCh)
    case Terminal =>
      if p.commitCh && p.answered then p.(closed := true, held := true)
      else p.(closed := true, answered := p.commitCh || p.answered, subscribed := false)
  }

  /** A response is taken from the commit channel; a handler that was held goes on, and puts
      its own response there. */
  function Received(p: Pub): Pub {
    if p.held then p.(held := false, answered := true, subscribed := false) else p.(answered := false)
  }

  class Publisher {
    const maxOutstandingAcks: nat
    var flow: nat
    var sequence: nat
    var ackSequence: nat
    var closed: bool
    var ackSub: bool
    var firstAckCh: bool
    var firstAck: Option<nat>
    var stallCh: bool
    var stallToken: bool
    var commitCh: bool
    var commitAnswered: bool
    var handlerHeld: bool

    function State(): Pub
      reads this
    {
      Pub(
        sequence, ackSequence, flow, closed, ackSub,
        firstAckCh, firstAck, stallCh, stallToken, commitCh, commitAnswered, handlerHeld)
    }

    constructor (flow: nat, maxOutstandingAcks: nat)
      ensures State() == NewPub(flow) && this.maxOutstandingAcks == maxOutstandingAcks
    {
      this.flow, this.maxOutstandingAcks := flow, maxOutstandingAcks;
      sequence, ackSequence, closed, ackSub := 0, 0, false, false;
      firstAckCh, firstAck, stallCh, stallToken := false, None, false, false;
      commitCh, commitAnswered, handlerHeld := false, false, false;
    }

    method MustWait() returns (wait: bool)
      ensures wait == WaitForAck(State(), maxOutstandingAcks)
    {
      wait := ackSequence + flow * maxOutstandingAcks <= sequence;
    }

    /** AddMsg from its Lock to the publication and the check that follows it. */
    method AddMsg(conn: Conn) returns (r: AddResult, operation: Operation, stalls: bool)
      modifies this
      ensures r != ClosedAlready ==> operation == if State().sequence == 1 then StartOp else AddOp
      ensures (State(), r) == AddSection(old(State()), conn)
      ensures stalls <==> r == Sent && WaitForAck(State(), maxOutstandingAcks)
    {
      hide WaitForAck;
      operation, stalls := AddOp, false;
      if closed { return ClosedAlready, operation, false; }
      sequence := sequence + 1;
      operation := if sequence == 1 then StartOp else AddOp;
      if sequence == 1 {
        r := SendFirst(conn);
        return;
      }
      if !conn.publishes { return PublishFailed, operation, false; }
      r := Sent;
      stalls := MustWait();
    }

    method SendFirst(conn: Conn) returns (r: AddResult)
      modifies this
      ensures (State(), r) == FirstSection(old(State()), conn)
    {
      if !conn.subscribes { return SubscribeFailed; }
      ackSub := true;
      firstAckCh, firstAck := true, None;
      stallCh, stallToken := true, false;
      if conn.publishes { return FirstSent; }
      ackSub := false;
      firstAckCh := false;
      closed := true;
      r := PublishFailed;
    }

    /** commit from its Lock to the publication. */
    method Commit(conn: Conn, end: bool) returns (r: AddResult, operation: Operation)
      modifies this
      ensures (State(), r) == CommitSection(old(State()), conn)
      ensures operation == if end then EndOp else CommitOp
    {
      sequence := sequence + 1;
      operation := CommitOp;
      if end { operation := EndOp; }
      if !commitCh { commitCh := true; }
      if !ackSub {
        if !conn.subscribes { return SubscribeFailed, operation; }
        ackSub := true;
      }
      r := if conn.publishes then Sent else PublishFailed;
    }

    method Abandon(unsubscribe: bool)
      modifies this
      ensures State() == GiveUp(old(State()), unsubscribe)
    {
      closed := true;
      if unsubscribe {
        firstAckCh := false;
        ackSub := false;
      }
    }

    /** A terminal response for which the commit channel has no room holds the handler. */
    method AckMsgHandler(n: Notice)
      requires !handlerHeld
      modifies this
      ensures State() == Handled(old(State()), n)
    {
      match n {
        case Informational =>
        case Ack(number, messages) =>
          if flow != messages { flow := messages; }
          ackSequence := number;
          if firstAckCh {
            firstAck := Some(number);
            firstAckCh := false;
            return;
          }
          if stallCh { stallToken := true; }
        case Terminal =>
          closed := true;
          if commitCh {
            if commitAnswered {
              handlerHeld := true;
              return;
            }
            commitAnswered := true;
          }
          if ackSub { ackSub := false; }
      }
    }

    /** The receive of commit's select, and the rest of a handler that it releases. */
    method TakeResponse()
      requires commitAnswered
      modifies this
      ensures State() == Received(old(State()))
    {
      commitAnswered := false;
      if handlerHeld {
        commitAnswered := true;
        handlerHeld := false;
        if ackSub { ackSub := false; }
      }
    }
  }
}
