// A fast publish session: the application's calls, the ack handler, a link that keeps order
// but may lose, and a server that persists messages in sequence and gives up at a gap.
module FastPublish {
  import opened Tokens
  import opened FastPublisher

  type Body = int

  datatype Packet = Data(number: nat, body: Body, op: Operation) | Ping(number: nat)

  /** Where the application's single goroutine is. */
  datatype Phase =
    | Idle
    | FirstWait                             // first message sent, waiting for its ack
    | FirstOver                             // gave up on it
    | Stalled(number: nat)                  // in waitForStall's select
    | Recheck(number: nat)                  // took the token, has yet to look again
    | Passed(number: nat)                   // waitForStall returned nil
    | StallOver                             // waitForStall returned an error
    | CommitReady(body: Body, end: bool)    // saw an open batch, has yet to take the lock again
    | CommitWait
    | PingWait                              // in sendPing, waiting for a lock that is not released
    | CommitOver

  /** What AddMsg returned: the number of the message and the acknowledged sequence. */
  datatype AddAck = AddAck(batchSequence: nat, ackSequence: nat)

  /** `named` records which message each batch sequence number was given to, `published`
      which numbers went out, and `window` the limit at the last check that was passed. */
  datatype Session = Session(
    pub: Pub, phase: Phase, maxAcks: nat,
    named: map<nat, Body>, published: set<nat>, window: nat, returned: seq<AddAck>,
    toServer: seq<Packet>, toClient: seq<Notice>,
    persisted: seq<Body>, open: bool
  )

  datatype Label =
    | Add(body: Body, conn: Conn)
    | FirstTaken
    | Timeout
    | TokenTaken
    | Relook
    | Return
    | SendPing(works: bool)
    | CallCommit(body: Body, end: bool)
    | SendCommit(conn: Conn)
    | CommitAnswer
    | Close
    | Deliver
    | LosePacket(i: nat)
    | LoseNotice(i: nat)
    | Serve
    | Notify(notice: Notice)

  function Start(flow: nat, maxAcks: nat): Session {
    Session(NewPub(flow), Idle, maxAcks, map[], {}, 0, [], [], [], [], false)
  }

  predicate Enabled(s: Session, l: Label) {
    match l
    case Add(_, _) => s.phase.Idle? && !s.pub.held
    case FirstTaken => s.phase.FirstWait? && s.pub.firstAck.Some? && !s.pub.held
    case Timeout => s.phase.FirstWait? || s.phase.Stalled? || s.phase.CommitWait?
    case TokenTaken => s.phase.Stalled? && s.pub.token
    case Relook => s.phase.Recheck? && !s.pub.held
    case Return => s.phase.Passed? && !s.pub.held
    case SendPing(_) => s.phase.Stalled? || s.phase.CommitWait?
    case CallCommit(_, end) => s.phase.Idle? && !s.pub.held && !s.pub.closed && (end ==> s.pub.sequence > 0)
    case SendCommit(_) => s.phase.CommitReady? && !s.pub.held
    case CommitAnswer => s.phase.CommitWait? && s.pub.answered
    case Close => (s.phase.FirstOver? || s.phase.StallOver? || s.phase.CommitOver?) && !s.pub.held
    case Deliver => s.pub.subscribed && s.toClient != [] && !s.pub.held
    case LosePacket(i) => i < |s.toServer|
    case LoseNotice(i) => i < |s.toClient|
    case Serve => s.toServer != []
    // the server acknowledges a batch it has started, and only as far as it is persisted
    case Notify(n) => n.Ack? ==> s.persisted != [] && n.sequence <= |s.persisted|
  }

  function Numbered(s: Session, p: Pub, body: Body): Session {
    s.(pub := p, named := s.named[p.sequence := body])
  }

  function SentOut(s: Session, body: Body, op: Operation): Session {
    s.(published := s.published + {s.pub.sequence}, toServer := s.toServer + [Data(s.pub.sequence, body, op)])
  }

  /** A check that finds room: the window in force is remembered. */
  function PassCheck(s: Session): Session { s.(window := s.pub.flow * s.maxAcks) }

  function AddStep(s: Session, body: Body, conn: Conn): Session {
    var (p, r) := AddSection(s.pub, conn);
    if r.ClosedAlready? then s
    else
      var t := Numbered(s, p, body);
      match r
      case FirstSent => SentOut(t, body, StartOp).(phase := FirstWait)
      case Sent =>
        var u := SentOut(t, body, AddOp);
        if WaitForAck(p, s.maxAcks) then u.(phase := Stalled(p.sequence))
        else PassCheck(u).(returned := u.returned + [AddAck(p.sequence, p.ackSequence)])
      case _ => t
  }

  function CommitStep(s: Session, conn: Conn): Session
    requires s.phase.CommitReady?
  {
    var (p, r) := CommitSection(s.pub, conn);
    var t := Numbered(s, p, s.phase.body).(phase := Idle);
    if r.Sent? then SentOut(t, s.phase.body, if s.phase.end then EndOp else CommitOp).(phase := CommitWait) else t
  }

  /** The server takes the next packet: only the next message in sequence is persisted, and a
      gap ends the batch. */
  function ServeStep(s: Session): Session
    requires s.toServer != []
  {
    var t := s.(toServer := s.toServer[1..]);
    match s.toServer[0]
    case Ping(k) => if k > |s.persisted| then t.(open := false) else t
    case Data(k, body, op) =>
      var accepting := if op.StartOp? then k == 1 && s.persisted == [] else s.open;
      if !accepting then t
      else if k != |s.persisted| + 1 then t.(open := false)
      else t.(persisted := if op.EndOp? then s.persisted else s.persisted + [body], open := op.StartOp? || op.AddOp?)
  }

  function After(s: Session, l: Label): Session
    requires Enabled(s, l)
  {
    match l
    case Add(body, conn) => AddStep(s, body, conn)
    case FirstTaken => s.(phase := Idle, returned := s.returned + [AddAck(s.pub.sequence, s.pub.firstAck.value)])
    case Timeout =>
      s.(phase := if s.phase.FirstWait? then FirstOver else if s.phase.Stalled? then StallOver else CommitOver)
    case TokenTaken => s.(pub := s.pub.(token := false), phase := Recheck(s.phase.number))
    case Relook =>
      if WaitForAck(s.pub, s.maxAcks) then s.(phase := Stalled(s.phase.number))
      else PassCheck(s).(phase := Passed(s.phase.number))
    case Return => s.(phase := Idle, returned := s.returned + [AddAck(s.phase.number, s.pub.ackSequence)])
    case SendPing(works) =>
      if s.pub.held then s.(phase := PingWait)
      else if works then s.(toServer := s.toServer + [Ping(s.pub.sequence)])
      else s.(phase := if s.phase.Stalled? then StallOver else CommitOver)
    case CallCommit(body, end) => s.(phase := CommitReady(body, end))
    case SendCommit(conn) => CommitStep(s, conn)
    case CommitAnswer => s.(pub := Received(s.pub), phase := CommitOver)
    case Close => s.(pub := GiveUp(s.pub, !s.phase.StallOver?), phase := Idle)
    case Deliver => s.(pub := Handled(s.pub, s.toClient[0]), toClient := s.toClient[1..])
    case LosePacket(i) => s.(toServer := s.toServer[..i] + s.toServer[i + 1..])
    case LoseNotice(i) => s.(toClient := s.toClient[..i] + s.toClient[i + 1..])
    case Serve => ServeStep(s)
    case Notify(n) => s.(toClient := s.toClient + [n])
  }

  predicate Feasible(s: Session, run: seq<Label>)
    decreases run
  {
    run == [] || (Enabled(s, run[0]) && Feasible(After(s, run[0]), run[1..]))
  }

  function Final(s: Session, run: seq<Label>): Session
    requires Feasible(s, run)
    decreases run
  {
    if run == [] then s else Final(After(s, run[0]), run[1..])
  }

  // Acknowledged means persisted

  ghost predicate Awaiting(s: Session) {
    s.phase.FirstWait? || s.phase.Stalled? || s.phase.Recheck? || s.phase.CommitWait?
  }

  /** A packet in flight carries a published number, and data the message of that number. */
  ghost predicate Issued(published: set<nat>, named: map<nat, Body>, packet: Packet) {
    packet.number in published && packet.number in named && (packet.Data? ==> packet.body == named[packet.number])
  }

  ghost predicate Accounted(s: Session) {
    && (forall k :: k in s.named <==> 1 <= k <= s.pub.sequence)
    && s.published <= s.named.Keys
    && (Awaiting(s) ==> s.pub.sequence in s.published)
    && (forall packet :: packet in s.toServer ==> Issued(s.published, s.named, packet))
    && (forall k :: 1 <= k <= |s.persisted| ==> k in s.published && s.named[k] == s.persisted[k - 1])
    && (forall n :: n in s.toClient && n.Ack? ==> n.sequence <= |s.persisted|)
    && s.pub.ackSequence <= |s.persisted|
    && (s.pub.firstAck.Some? ==> s.pub.firstAck.value <= |s.persisted|)
    && (forall a :: a in s.returned ==> a.ackSequence <= |s.persisted|)
  }

  /** Numbering a message, and then sending it, keeps the account. */
  lemma NumberedAccounted(s: Session, p: Pub, body: Body, op: Operation)
    requires Accounted(s) && p.sequence == s.pub.sequence + 1 && p.ackSequence == s.pub.ackSequence
    requires p.firstAck.None? || p.firstAck == s.pub.firstAck
    ensures Accounted(Numbered(s, p, body).(phase := Idle))
    ensures Accounted(SentOut(Numbered(s, p, body), body, op))
    ensures Accounted(SentOut(Numbered(s, p, body), body, op).(phase := CommitWait))
  {
    var t := Numbered(s, p, body);
    assert t.named.Keys == s.named.Keys + {p.sequence};
    var u := SentOut(t, body, op);
    assert Issued(u.published, u.named, Data(p.sequence, body, op));
  }

  lemma StepAccounted(s: Session, l: Label)
    requires Accounted(s) && Enabled(s, l)
    ensures Accounted(After(s, l))
    ensures forall k :: k in s.named ==> k in After(s, l).named && After(s, l).named[k] == s.named[k]
    ensures s.persisted <= After(s, l).persisted
  {
    hide AddStep, CommitStep, ServeStep, Accounted;
    match l {
      case Add(body, conn) => AddAccounted(s, body, conn);
      case SendCommit(conn) => CommitAccounted(s, conn);
      case Serve => ServeAccounted(s);
      case _ => QuietAccounted(s, l);
    }
  }

  lemma AddAccounted(s: Session, body: Body, conn: Conn)
    requires s.phase.Idle? && Accounted(s)
    ensures Accounted(AddStep(s, body, conn))
    ensures forall k :: k in s.named ==>
      k in AddStep(s, body, conn).named && AddStep(s, body, conn).named[k] == s.named[k]
    ensures AddStep(s, body, conn).persisted == s.persisted
  {
    hide Accounted, WaitForAck;
    Unnamed(s);
    var (p, r) := AddSection(s.pub, conn);
    if !r.ClosedAlready? {
      var op := if r.FirstSent? then StartOp else AddOp;
      NumberedAccounted(s, p, body, op);
      if r.FirstSent? || r.Sent? {
        NothingNew(SentOut(Numbered(s, p, body), body, op).(phase := CommitWait), AddStep(s, body, conn));
      }
    }
  }

  lemma Unnamed(s: Session)
    requires Accounted(s)
    ensures s.pub.sequence + 1 !in s.named
  {
  }

  lemma CommitAccounted(s: Session, conn: Conn)
    requires s.phase.CommitReady? && Accounted(s)
    ensures Accounted(CommitStep(s, conn))
    ensures forall k :: k in s.named ==> k in CommitStep(s, conn).named && CommitStep(s, conn).named[k] == s.named[k]
    ensures CommitStep(s, conn).persisted == s.persisted
  {
    hide Issued;
    var (p, r) := CommitSection(s.pub, conn);
    NumberedAccounted(s, p, s.phase.body, if s.phase.end then EndOp else CommitOp);
  }

  /** A step that numbers and persists nothing keeps the account if what it adds to the link
      and to the acknowledgements is covered by it. */
  lemma NothingNew(s: Session, t: Session)
    requires Accounted(s)
    requires t.named == s.named && t.published == s.published
    requires t.persisted == s.persisted && t.pub.sequence == s.pub.sequence
    requires Awaiting(t) ==> Awaiting(s)
    requires forall packet :: packet in t.toServer ==>
      packet in s.toServer || (Awaiting(s) && packet == Ping(s.pub.sequence))
    requires forall n :: n in t.toClient ==> n in s.toClient || (n.Ack? ==> n.sequence <= |s.persisted|)
    requires t.pub.ackSequence == s.pub.ackSequence || t.pub.ackSequence <= |s.persisted|
    requires t.pub.firstAck == s.pub.firstAck || t.pub.firstAck.None? || t.pub.firstAck.value <= |s.persisted|
    requires forall a :: a in t.returned ==>
      a in s.returned || a.ackSequence == s.pub.ackSequence || a.ackSequence <= |s.persisted|
    ensures Accounted(t)
  {
  }

  lemma LinkAccounted(s: Session, l: Label)
    requires Accounted(s) && Enabled(s, l) && (l.Deliver? || l.LosePacket? || l.LoseNotice? || l.Notify?)
    ensures Accounted(After(s, l)) && After(s, l).named == s.named && After(s, l).persisted == s.persisted
  {
    hide WaitForAck, Issued;
    if l.Deliver? { assert s.toClient[0] in s.toClient; }
    NothingNew(s, After(s, l));
  }

  lemma QuietAccounted(s: Session, l: Label)
    requires Accounted(s) && Enabled(s, l) && !l.Add? && !l.SendCommit? && !l.Serve?
    ensures Accounted(After(s, l)) && After(s, l).named == s.named && After(s, l).persisted == s.persisted
  {
    hide WaitForAck, Issued;
    if l.Deliver? || l.LosePacket? || l.LoseNotice? || l.Notify? {
      LinkAccounted(s, l);
    } else {
      NothingNew(s, After(s, l));
    }
  }

  lemma ServeAccounted(s: Session)
    requires Accounted(s) && s.toServer != []
    ensures Accounted(ServeStep(s)) && s.persisted <= ServeStep(s).persisted && ServeStep(s).named == s.named
  {
    var t := ServeStep(s);
    assert Issued(s.published, s.named, s.toServer[0]);
  }

  /** A number, once given to a message, never names another, and nothing persisted is ever
      taken back. */
  lemma {:induction false} RunAccounted(s: Session, run: seq<Label>)
    requires Accounted(s) && Feasible(s, run)
    ensures Accounted(Final(s, run))
    ensures forall k :: k in s.named ==> k in Final(s, run).named && Final(s, run).named[k] == s.named[k]
    ensures s.persisted <= Final(s, run).persisted
    decreases run
  {
    hide Enabled, After, Accounted;
    if run != [] {
      StepAccounted(s, run[0]);
      RunAccounted(After(s, run[0]), run[1..]);
    }
  }

  ghost predicate PersistedUpTo(s: Session, n: nat) {
    n <= |s.persisted| && forall k :: 1 <= k <= n ==> k in s.named && s.persisted[k - 1] == s.named[k]
  }

  /** In every state of every run, with whatever is lost and whichever calls fail, all
      messages up to the acknowledged sequence are persisted, each at its own number; the
      same holds of every AckSequence that AddMsg has returned. */
  lemma AckedIsPersisted(flow: nat, maxAcks: nat, run: seq<Label>)
    requires Feasible(Start(flow, maxAcks), run)
    ensures var s := Final(Start(flow, maxAcks), run);
      && PersistedUpTo(s, s.pub.ackSequence)
      && forall a :: a in s.returned ==> PersistedUpTo(s, a.ackSequence)
  {
    hide Feasible, Final, Enabled, After;
    RunAccounted(Start(flow, maxAcks), run);
  }

  /** A ping only ever reuses a number that was published. */
  lemma PingsReuse(flow: nat, maxAcks: nat, run: seq<Label>)
    requires Feasible(Start(flow, maxAcks), run)
    ensures var s := Final(Start(flow, maxAcks), run);
      Enabled(s, SendPing(true)) ==> s.pub.sequence in s.published
  {
    hide Feasible, Final, After;
    RunAccounted(Start(flow, maxAcks), run);
  }

  // No lost wake-up

  lemma ServeKeeps(s: Session)
    requires s.toServer != []
    ensures ServeStep(s)
      == s.(toServer := ServeStep(s).toServer, persisted := ServeStep(s).persisted, open := ServeStep(s).open)
  {
  }

  /** No message that starts a batch has been sent, so the server has nothing to acknowledge. */
  ghost predicate Unstarted(s: Session) {
    && s.persisted == [] && !s.open
    && (forall packet :: packet in s.toServer && packet.Data? ==> !packet.op.StartOp?)
    && (forall n :: n in s.toClient ==> !n.Ack?)
  }

  ghost predicate Wakeable(s: Session) {
    && (s.pub.firstCh ==> (s.phase.FirstWait? || s.phase.FirstOver?) && s.pub.firstAck.None?)
    && (s.pub.token ==> s.pub.stallCh)
    && (s.phase.Stalled? && !WaitForAck(s.pub, s.maxAcks) ==> s.pub.token)
    && (!s.pub.stallCh ==> Unstarted(s))
    && (s.pub.held ==> s.pub.subscribed)
  }

  lemma ServeUnstarted(s: Session)
    requires Unstarted(s) && s.toServer != []
    ensures Unstarted(ServeStep(s))
  {
    assert s.toServer[0] in s.toServer;
  }

  lemma TerminalKeepsRoom(p: Pub, maxAcks: nat)
    ensures WaitForAck(Handled(p, Terminal), maxAcks) == WaitForAck(p, maxAcks)
  {
  }

  lemma AddWakeable(s: Session, body: Body, conn: Conn)
    requires Wakeable(s) && s.phase.Idle? && !s.pub.held
    ensures Wakeable(AddStep(s, body, conn))
  {
    hide WaitForAck;
  }

  lemma CommitWakeable(s: Session, conn: Conn)
    requires Wakeable(s) && s.phase.CommitReady?
    ensures Wakeable(CommitStep(s, conn))
  {
    hide WaitForAck;
  }

  lemma StepWakeable(s: Session, l: Label)
    requires Wakeable(s) && Enabled(s, l)
    ensures Wakeable(After(s, l))
  {
    hide WaitForAck, ServeStep, AddStep, CommitStep;
    match l {
      case Add(body, conn) => AddWakeable(s, body, conn);
      case SendCommit(conn) => CommitWakeable(s, conn);
      case Serve =>
        ServeKeeps(s);
        if Unstarted(s) { ServeUnstarted(s); }
      case Deliver => TerminalKeepsRoom(s.pub, s.maxAcks);
      case _ =>
    }
  }

  lemma {:induction false} RunWakeable(s: Session, run: seq<Label>)
    requires Wakeable(s) && Feasible(s, run)
    ensures Wakeable(Final(s, run))
    decreases run
  {
    hide Enabled, After, Wakeable;
    if run != [] {
      StepWakeable(s, run[0]);
      RunWakeable(After(s, run[0]), run[1..]);
    }
  }

  /** In every interleaving with the ack handler: a stalled publisher that no longer has to
      wait is about to be woken. */
  lemma NoLostWakeUp(flow: nat, maxAcks: nat, run: seq<Label>)
    requires Feasible(Start(flow, maxAcks), run)
    ensures var s := Final(Start(flow, maxAcks), run);
      s.phase.Stalled? && !WaitForAck(s.pub, maxAcks) ==> Enabled(s, TokenTaken)
  {
    RunWakeable(Start(flow, maxAcks), run);
    MaxAcksFixed(Start(flow, maxAcks), run);
  }

  /** If the first number is lost to a failed subscription or given to a commit, the stall
      channel is never made and the batch never starts: whatever is sent later, nothing is
      ever persisted or acknowledged. */
  lemma {:induction false} NeverStarts(s: Session, run: seq<Label>)
    requires Wakeable(s) && !s.pub.stallCh && s.pub.sequence > 0 && Feasible(s, run)
    ensures var t := Final(s, run); t.persisted == [] && t.pub.ackSequence == s.pub.ackSequence && !t.pub.stallCh
    decreases run
  {
    hide Enabled, After, Wakeable;
    if run == [] {
      ChannelOrUnstarted(s);
    } else {
      StepWakeable(s, run[0]);
      StepNeverStarts(s, run[0]);
      NeverStarts(After(s, run[0]), run[1..]);
    }
  }

  lemma ChannelOrUnstarted(s: Session)
    requires Wakeable(s)
    ensures !s.pub.stallCh ==> Unstarted(s)
  {
  }

  lemma StepNeverStarts(s: Session, l: Label)
    requires Wakeable(s) && !s.pub.stallCh && s.pub.sequence > 0 && Enabled(s, l)
    ensures var t := After(s, l);
      !t.pub.stallCh && t.pub.sequence > 0 && t.pub.ackSequence == s.pub.ackSequence
  {
    hide WaitForAck, ServeStep;
    if l.Serve? { ServeKeeps(s); }
  }

  /** The first AddMsg decides: a batch persists anything in some continuation exactly when
      its first message was subscribed and published. */
  lemma StartsExactly(flow: nat, maxAcks: nat, body: Body, conn: Conn)
    ensures var s := After(Start(flow, maxAcks), Add(body, conn));
      (exists run :: Feasible(s, run) && Final(s, run).persisted != []) <==> conn == Conn(true, true)
  {
    hide Wakeable, Accounted, WaitForAck, Feasible, Final;
    var start := Start(flow, maxAcks);
    var s := After(start, Add(body, conn));
    FreshSession(flow, maxAcks);
    if conn == Conn(true, true) {
      EmptyRun(After(s, Serve));
      Prefixed(s, Serve, []);
      assert Final(s, [Serve] + []).persisted != [];
    } else if !conn.subscribes {
      StepWakeable(start, Add(body, conn));
      forall run | Feasible(s, run) ensures Final(s, run).persisted == [] { NeverStarts(s, run); }
    } else {
      StepAccounted(start, Add(body, conn));
      forall run | Feasible(s, run) ensures Final(s, run).persisted == [] {
        NothingAfterClose(s, run);
        RunAccounted(s, run);
        NothingPersisted(Final(s, run));
      }
    }
  }

  lemma FreshSession(flow: nat, maxAcks: nat)
    ensures Wakeable(Start(flow, maxAcks)) && Accounted(Start(flow, maxAcks))
  {
  }

  lemma NothingPersisted(s: Session)
    requires Accounted(s) && s.published == {}
    ensures s.persisted == []
  {
    assert |s.persisted| >= 1 ==> 1 in s.published;
  }

  /** After a failed subscription the batch is still open, and later messages are sent. */
  lemma GoesOnSending(flow: nat, maxAcks: nat, body: Body, later: Body, conn: Conn)
    requires !conn.subscribes
    ensures var s := After(Start(flow, maxAcks), Add(body, conn));
      && !s.pub.closed && Enabled(s, Add(later, Conn(true, true)))
      && After(s, Add(later, Conn(true, true))).published == {2}
  {
    hide WaitForAck;
  }

  /** A commit that comes first numbers its message without starting a batch, and nothing is
      ever persisted then either. */
  lemma CommitNeverStarts(flow: nat, maxAcks: nat, body: Body, conn: Conn, run: seq<Label>)
    requires Feasible(After(After(Start(flow, maxAcks), CallCommit(body, false)), SendCommit(conn)), run)
    ensures Final(After(After(Start(flow, maxAcks), CallCommit(body, false)), SendCommit(conn)), run).persisted == []
  {
    hide Wakeable, WaitForAck, Feasible, Final;
    var start := Start(flow, maxAcks);
    FreshSession(flow, maxAcks);
    StepWakeable(start, CallCommit(body, false));
    var s := After(start, CallCommit(body, false));
    StepWakeable(s, SendCommit(conn));
    NeverStarts(After(s, SendCommit(conn)), run);
  }

  lemma {:induction false} MaxAcksFixed(s: Session, run: seq<Label>)
    requires Feasible(s, run)
    ensures Final(s, run).maxAcks == s.maxAcks
    decreases run
  {
    if run != [] {
      MaxAcksFixed(After(s, run[0]), run[1..]);
    }
  }

  /** A stall ends well only after the re-check, under the lock, has found room; a token left
      over from before costs one more look and nothing else. */
  lemma StallEndsAfterCheck(s: Session, l: Label)
    requires Enabled(s, l) && After(s, l).phase.Passed? && !s.phase.Passed?
    ensures s.phase == Recheck(After(s, l).phase.number) && !WaitForAck(s.pub, s.maxAcks) && After(s, l).pub == s.pub
  {
  }

  // What the end of the batch means for a stalled publisher

  lemma Prefixed(s: Session, l: Label, rest: seq<Label>)
    requires Enabled(s, l) && Feasible(After(s, l), rest)
    ensures Feasible(s, [l] + rest) && Final(s, [l] + rest) == Final(After(s, l), rest)
  {
    hide Enabled, After;
    assert ([l] + rest)[1..] == rest;
  }

  lemma TwoSteps(s: Session, l1: Label, l2: Label)
    requires Enabled(s, l1) && Enabled(After(s, l1), l2)
    ensures Feasible(s, [l1, l2]) && Final(s, [l1, l2]) == After(After(s, l1), l2)
  {
    hide Enabled, After;
    Prefixed(After(s, l1), l2, []);
    Prefixed(s, l1, [l2] + []);
    assert [l1] + ([l2] + []) == [l1, l2];
  }

  lemma {:induction false} Appended(s: Session, first: seq<Label>, second: seq<Label>)
    requires Feasible(s, first) && Feasible(Final(s, first), second)
    ensures Feasible(s, first + second) && Final(s, first + second) == Final(Final(s, first), second)
    decreases first
  {
    hide Enabled, After;
    if first == [] {
      assert first + second == second;
    } else {
      Appended(After(s, first[0]), first[1..], second);
      assert (first + second)[1..] == first[1..] + second;
    }
  }

  ghost predicate InStall(s: Session) { s.phase.Stalled? || s.phase.Recheck? }

  /** A run in which neither the deadline nor a failing ping ends a wait. */
  ghost predicate PatientRun(s: Session, run: seq<Label>) {
    Feasible(s, run) && forall l :: l in run ==> l != Timeout && l != SendPing(false)
  }

  /** Without a subscription and without room, nothing else ends a stall; a leftover token
      costs a look and no more. */
  lemma {:induction false} StaysStalled(s: Session, run: seq<Label>)
    requires InStall(s) && !s.pub.subscribed && !s.pub.held && WaitForAck(s.pub, s.maxAcks) && PatientRun(s, run)
    ensures var t := Final(s, run);
      InStall(t) && !t.pub.subscribed && !t.pub.held && WaitForAck(t.pub, t.maxAcks)
    decreases run
  {
    hide Enabled, After, InStall, WaitForAck;
    if run != [] {
      assert run[0] in run;
      assert forall l :: l in run[1..] ==> l in run;
      StallStep(s, run[0]);
      StaysStalled(After(s, run[0]), run[1..]);
    }
  }

  lemma StallStep(s: Session, l: Label)
    requires InStall(s) && !s.pub.subscribed && !s.pub.held && WaitForAck(s.pub, s.maxAcks)
    requires Enabled(s, l) && l != Timeout && l != SendPing(false)
    ensures var t := After(s, l);
      InStall(t) && !t.pub.subscribed && !t.pub.held && WaitForAck(t.pub, t.maxAcks)
  {
    hide ServeStep;
    if l.Serve? { ServeKeeps(s); }
  }

  /** Once a terminal response has been handled, a stalled publisher leaves the stall, other
      than by its deadline or a failing ping, exactly when there was room already. */
  lemma LeavesStallExactly(s: Session)
    requires Wakeable(s) && s.phase.Stalled? && !s.pub.subscribed
    ensures (exists run :: PatientRun(s, run) && !InStall(Final(s, run))) <==> !WaitForAck(s.pub, s.maxAcks)
  {
    if WaitForAck(s.pub, s.maxAcks) {
      forall run | PatientRun(s, run) ensures InStall(Final(s, run)) { StaysStalled(s, run); }
    } else {
      var t := After(s, TokenTaken);
      assert WaitForAck(t.pub, t.maxAcks) == WaitForAck(s.pub, s.maxAcks);
      TwoSteps(s, TokenTaken, Relook);
      assert PatientRun(s, [TokenTaken, Relook]);
    }
  }

  /** A session whose first message is acknowledged, with room for no other. */
  function AfterFirst(body: Body): Session {
    Session(
      Pub(1, 1, 1, false, true, false, Some(1), true, false, false, false, false), Idle, 1,
      map[1 := body], {1}, 0, [AddAck(1, 1)], [], [], [body], true)
  }

  function FirstServed(body: Body): Session {
    Session(
      Pub(1, 0, 1, false, true, true, None, true, false, false, false, false), FirstWait, 1,
      map[1 := body], {1}, 0, [], [], [], [body], true)
  }

  lemma ServesFirst(body: Body)
    ensures var l := Add(body, Conn(true, true));
      && Enabled(Start(1, 1), l) && Enabled(After(Start(1, 1), l), Serve)
      && After(After(Start(1, 1), l), Serve) == FirstServed(body)
  {
  }

  lemma FirstAnswered(body: Body)
    ensures var s := FirstServed(body);
      && Enabled(s, Notify(Ack(1, 1))) && Enabled(After(s, Notify(Ack(1, 1))), Deliver)
      && Enabled(After(After(s, Notify(Ack(1, 1))), Deliver), FirstTaken)
      && After(After(After(s, Notify(Ack(1, 1))), Deliver), FirstTaken) == AfterFirst(body)
  {
  }

  lemma FirstAcked(body: Body) returns (run: seq<Label>)
    ensures Feasible(Start(1, 1), run) && Final(Start(1, 1), run) == AfterFirst(body)
  {
    hide Feasible, Final, Enabled, After;
    var l, ack := Add(body, Conn(true, true)), Notify(Ack(1, 1));
    ServesFirst(body);
    FirstAnswered(body);
    var s := FirstServed(body);
    TwoSteps(Start(1, 1), l, Serve);
    TwoSteps(After(s, ack), Deliver, FirstTaken);
    Prefixed(s, ack, [Deliver, FirstTaken]);
    Appended(Start(1, 1), [l, Serve], [ack] + [Deliver, FirstTaken]);
    run := [l, Serve] + ([ack] + [Deliver, FirstTaken]);
  }

  lemma EmptyRun(s: Session)
    ensures Feasible(s, []) && Final(s, []) == s
  {
  }

  /** A run to a publisher that is stalled for good: the batch ends while it waits for room. */
  lemma StalledForGood(body: Body) returns (run: seq<Label>)
    ensures Feasible(Start(1, 1), run)
    ensures var s := Final(Start(1, 1), run);
      s.phase.Stalled? && s.pub.closed && !s.pub.subscribed && WaitForAck(s.pub, s.maxAcks)
  {
    hide Feasible, Final;
    var first := FirstAcked(body);
    var s := AfterFirst(body);
    var l := Add(body, Conn(true, true));
    var t := After(s, l);
    TwoSteps(t, Notify(Terminal), Deliver);
    Prefixed(s, l, [Notify(Terminal), Deliver]);
    Appended(Start(1, 1), first, [l] + [Notify(Terminal), Deliver]);
    run := first + ([l] + [Notify(Terminal), Deliver]);
  }

  /** The first wait: the same, with the acknowledgement in place of room. */
  lemma {:induction false} StaysWaiting(s: Session, run: seq<Label>)
    requires s.phase.FirstWait? && !s.pub.subscribed && !s.pub.held && s.pub.firstAck.None? && PatientRun(s, run)
    ensures var t := Final(s, run);
      t.phase.FirstWait? && !t.pub.subscribed && !t.pub.held && t.pub.firstAck.None?
    decreases run
  {
    hide Enabled, After;
    if run != [] {
      assert run[0] in run;
      assert forall l :: l in run[1..] ==> l in run;
      WaitStep(s, run[0]);
      StaysWaiting(After(s, run[0]), run[1..]);
    }
  }

  lemma WaitStep(s: Session, l: Label)
    requires s.phase.FirstWait? && !s.pub.subscribed && !s.pub.held && s.pub.firstAck.None?
    requires Enabled(s, l) && l != Timeout
    ensures var t := After(s, l);
      t.phase.FirstWait? && !t.pub.subscribed && !t.pub.held && t.pub.firstAck.None?
  {
    hide ServeStep;
    if l.Serve? { ServeKeeps(s); }
  }

  /** Once a terminal response has been handled, the first message is waited for until the
      deadline, exactly when no acknowledgement had come before. */
  lemma LeavesFirstWaitExactly(s: Session)
    requires s.phase.FirstWait? && !s.pub.subscribed && !s.pub.held
    ensures (exists run :: PatientRun(s, run) && !Final(s, run).phase.FirstWait?) <==> s.pub.firstAck.Some?
  {
    if s.pub.firstAck.None? {
      forall run | PatientRun(s, run) ensures Final(s, run).phase.FirstWait? { StaysWaiting(s, run); }
    } else {
      EmptyRun(After(s, FirstTaken));
      Prefixed(s, FirstTaken, []);
      var run := [FirstTaken] + [];
      assert PatientRun(s, run) && !Final(s, run).phase.FirstWait?;
    }
  }

  /** A run there: the server refuses the first message, and nothing tells the publisher. */
  lemma RefusedFirst(flow: nat, maxAcks: nat, body: Body) returns (run: seq<Label>)
    ensures Feasible(Start(flow, maxAcks), run)
    ensures var s := Final(Start(flow, maxAcks), run);
      s.phase.FirstWait? && s.pub.closed && !s.pub.subscribed && !s.pub.held && s.pub.firstAck.None?
  {
    hide Feasible, Final, WaitForAck;
    var l := Add(body, Conn(true, true));
    var s := After(Start(flow, maxAcks), l);
    TwoSteps(s, Notify(Terminal), Deliver);
    Prefixed(Start(flow, maxAcks), l, [Notify(Terminal), Deliver]);
    run := [l] + [Notify(Terminal), Deliver];
  }

  // The response to a commit

  /** What holds of the commit channel in every run. */
  ghost predicate AnswerKept(s: Session) {
    && (s.pub.answered ==> s.pub.commitCh && s.pub.closed)
    && (s.pub.commitCh ==> s.pub.sequence > 0)
    && (s.pub.held ==> s.pub.answered && s.pub.subscribed)
  }

  lemma StepAnswerKept(s: Session, l: Label)
    requires AnswerKept(s) && Enabled(s, l)
    ensures AnswerKept(After(s, l))
  {
    hide WaitForAck, ServeStep, AddStep, CommitStep;
    match l {
      case Add(body, conn) => AddKeepsAnswer(s, body, conn);
      case SendCommit(conn) => CommitKeepsAnswer(s, conn);
      case Serve => ServeKeeps(s);
      case _ =>
    }
  }

  lemma AddKeepsAnswer(s: Session, body: Body, conn: Conn)
    requires AnswerKept(s) && !s.pub.held
    ensures AnswerKept(AddStep(s, body, conn))
  {
    hide WaitForAck;
  }

  lemma CommitKeepsAnswer(s: Session, conn: Conn)
    requires AnswerKept(s) && !s.pub.held && s.phase.CommitReady?
    ensures AnswerKept(CommitStep(s, conn))
  {
    hide WaitForAck;
  }

  lemma {:induction false} RunAnswerKept(s: Session, run: seq<Label>)
    requires AnswerKept(s) && Feasible(s, run)
    ensures AnswerKept(Final(s, run))
    decreases run
  {
    hide Enabled, After, AnswerKept;
    if run != [] {
      StepAnswerKept(s, run[0]);
      RunAnswerKept(After(s, run[0]), run[1..]);
    }
  }

  /** The commit channel belongs to the commit that is waited for, to a batch that is over, or
      to one that has no subscription, and holds at most one response. */
  ghost predicate OneAnswer(s: Session) {
    && !s.pub.held
    && (s.pub.answered ==> s.pub.commitCh && s.pub.closed && !s.pub.subscribed && !s.phase.CommitReady?)
    && (s.pub.commitCh ==>
          s.phase.CommitWait? || s.phase.CommitOver? || Over(s) || (!s.pub.subscribed && s.pub.sequence > 0))
  }

  /** A run in which every commit that is tried is also sent. */
  predicate SentRun(s: Session, run: seq<Label>) {
    Feasible(s, run) && forall l :: l in run && l.SendCommit? ==> l.conn == Conn(true, true)
  }

  lemma StepOneAnswer(s: Session, l: Label)
    requires OneAnswer(s) && Enabled(s, l) && (l.SendCommit? ==> l.conn == Conn(true, true))
    ensures OneAnswer(After(s, l))
  {
    hide WaitForAck, ServeStep, AddStep, CommitStep;
    match l {
      case Add(body, conn) => AddOneAnswer(s, body, conn);
      case SendCommit(conn) => CommitOneAnswer(s);
      case Serve => ServeKeeps(s);
      case _ =>
    }
  }

  lemma AddOneAnswer(s: Session, body: Body, conn: Conn)
    requires OneAnswer(s) && s.phase.Idle?
    ensures OneAnswer(AddStep(s, body, conn))
  {
    hide WaitForAck;
  }

  lemma CommitOneAnswer(s: Session)
    requires OneAnswer(s) && s.phase.CommitReady?
    ensures OneAnswer(CommitStep(s, Conn(true, true)))
  {
    hide WaitForAck;
  }

  lemma {:induction false} RunOneAnswer(s: Session, run: seq<Label>)
    requires OneAnswer(s) && SentRun(s, run)
    ensures OneAnswer(Final(s, run))
    decreases run
  {
    hide Enabled, After, OneAnswer;
    if run != [] {
      assert run[0] in run;
      assert forall l :: l in run[1..] ==> l in run;
      StepOneAnswer(s, run[0]);
      RunOneAnswer(After(s, run[0]), run[1..]);
    }
  }

  /** What is on its way to the client can be lost. */
  lemma {:induction false} Drained(s: Session) returns (run: seq<Label>)
    ensures SentRun(s, run) && Final(s, run) == s.(toClient := [])
    decreases |s.toClient|
  {
    hide Enabled, After;
    if s.toClient == [] {
      run := [];
    } else {
      LosesFirst(s);
      var t := After(s, LoseNotice(0));
      var rest := Drained(t);
      Prefixed(s, LoseNotice(0), rest);
      run := [LoseNotice(0)] + rest;
    }
  }

  lemma LosesFirst(s: Session)
    requires s.toClient != []
    ensures Enabled(s, LoseNotice(0)) && After(s, LoseNotice(0)) == s.(toClient := s.toClient[1..])
  {
  }

  lemma SentAppended(s: Session, first: seq<Label>, second: seq<Label>)
    requires SentRun(s, first) && SentRun(Final(s, first), second)
    ensures SentRun(s, first + second) && Final(s, first + second) == Final(Final(s, first), second)
  {
    hide Feasible, Final;
    Appended(s, first, second);
  }

  lemma SentTwo(s: Session, l1: Label, l2: Label)
    requires Enabled(s, l1) && Enabled(After(s, l1), l2)
    requires (l1.SendCommit? ==> l1.conn == Conn(true, true)) && (l2.SendCommit? ==> l2.conn == Conn(true, true))
    ensures SentRun(s, [l1, l2]) && Final(s, [l1, l2]) == After(After(s, l1), l2)
  {
    TwoSteps(s, l1, l2);
  }

  /** An open, subscribed batch with a commit channel left behind: a response that comes while
      the next commit is on its way fills the channel, and one more holds the handler. */
  lemma FillsChannel(s: Session, body: Body) returns (run: seq<Label>)
    requires s.phase.Idle? && s.toClient == [] && s.pub.commitCh && s.pub.subscribed
    requires !s.pub.closed && !s.pub.held && !s.pub.answered
    ensures SentRun(s, run) && Final(s, run).pub.held && Final(s, run).phase.CommitWait?
  {
    hide Feasible, Final, WaitForAck;
    var works := SendCommit(Conn(true, true));
    var t := s.(phase := CommitReady(body, false), toClient := [Terminal]);
    SentTwo(s, CallCommit(body, false), Notify(Terminal));
    assert After(After(s, CallCommit(body, false)), Notify(Terminal)) == t;
    SentTwo(t, Deliver, works);
    var u := After(After(t, Deliver), works);
    assert u.toClient == [] && u.phase.CommitWait?;
    assert u.pub.subscribed && u.pub.commitCh && u.pub.answered && !u.pub.held;
    SentTwo(u, Notify(Terminal), Deliver);
    SentAppended(s, [CallCommit(body, false), Notify(Terminal)], [Deliver, works]);
    SentAppended(s, [CallCommit(body, false), Notify(Terminal)] + [Deliver, works], [Notify(Terminal), Deliver]);
    run := [CallCommit(body, false), Notify(Terminal)] + [Deliver, works] + [Notify(Terminal), Deliver];
  }

  lemma FillsAgain(s: Session) returns (run: seq<Label>)
    requires s.toClient == [] && s.pub.commitCh && s.pub.answered && s.pub.subscribed && !s.pub.held
    ensures SentRun(s, run) && Final(s, run).pub.held
  {
    hide Feasible, Final, WaitForAck;
    SentTwo(s, Notify(Terminal), Deliver);
    run := [Notify(Terminal), Deliver];
  }

  /** Between calls: some continuation in which every commit is sent holds the ack handler,
      with its lock, exactly when the batch is open and subscribed and has the channel of a
      commit that failed, or has a response in the channel and still a subscription. */
  lemma HandlerHeldExactly(s: Session)
    requires AnswerKept(s) && s.phase.Idle?
    ensures (exists run :: SentRun(s, run) && Final(s, run).pub.held)
      <==> s.pub.subscribed && ((s.pub.commitCh && !s.pub.closed) || s.pub.answered)
  {
    hide Feasible, Final, Enabled, After;
    if s.pub.held {
      EmptyRun(s);
      assert SentRun(s, []);
    } else if s.pub.subscribed && ((s.pub.commitCh && !s.pub.closed) || s.pub.answered) {
      var drain := Drained(s);
      var t := s.(toClient := []);
      if s.pub.answered {
        var rest := FillsAgain(t);
        SentAppended(s, drain, rest);
      } else {
        var rest := FillsChannel(t, 0);
        SentAppended(s, drain, rest);
      }
    } else {
      assert OneAnswer(s);
      forall run | SentRun(s, run) ensures !Final(s, run).pub.held { RunOneAnswer(s, run); }
    }
  }

  /** In particular a batch on which every commit is sent never gets there. */
  lemma NeverHeld(flow: nat, maxAcks: nat, run: seq<Label>)
    requires SentRun(Start(flow, maxAcks), run)
    ensures !Final(Start(flow, maxAcks), run).pub.held
  {
    hide Feasible, Final, Enabled, After;
    RunOneAnswer(Start(flow, maxAcks), run);
  }

  ghost predicate Jammed(s: Session) { s.pub.held && !s.phase.CommitWait? }

  lemma StepJammed(s: Session, l: Label)
    requires Jammed(s) && Enabled(s, l)
    ensures Jammed(After(s, l))
  {
    hide WaitForAck, ServeStep;
    if l.Serve? { ServeKeeps(s); }
  }

  lemma {:induction false} JammedForGood(s: Session, run: seq<Label>)
    requires Jammed(s) && Feasible(s, run)
    ensures Jammed(Final(s, run))
    decreases run
  {
    hide Enabled, After, Jammed;
    if run != [] {
      StepJammed(s, run[0]);
      JammedForGood(After(s, run[0]), run[1..]);
    }
  }

  /** A held handler can still be released exactly while the commit waits for its response:
      once the commit has given up, or is in a ping, the two wait for each other. */
  lemma ReleasedExactly(s: Session)
    requires AnswerKept(s) && s.pub.held
    ensures (exists run :: Feasible(s, run) && !Final(s, run).pub.held) <==> s.phase.CommitWait?
  {
    if s.phase.CommitWait? {
      EmptyRun(After(s, CommitAnswer));
      Prefixed(s, CommitAnswer, []);
      assert !Final(s, [CommitAnswer] + []).pub.held;
    } else {
      forall run | Feasible(s, run) ensures Final(s, run).pub.held { JammedForGood(s, run); }
    }
  }

  ghost predicate Quit(s: Session) {
    Over(s) && !s.pub.subscribed && !s.pub.held && s.pub.answered && !s.phase.CommitWait?
  }

  lemma StepQuit(s: Session, l: Label)
    requires Quit(s) && Enabled(s, l)
    ensures Quit(After(s, l))
  {
    hide WaitForAck, ServeStep;
    if l.Serve? { ServeKeeps(s); }
  }

  /** When it is released the handler goes on to end the subscription, for good, and leaves a
      response that nobody takes. */
  lemma {:induction false} ReleasedEnds(s: Session, run: seq<Label>)
    requires if s.phase.CommitWait? then AnswerKept(s) && s.pub.held && run != [] && run[0].CommitAnswer? else Quit(s)
    requires Feasible(s, run)
    ensures var t := Final(s, run); !t.pub.held && !t.pub.subscribed && t.pub.answered
    decreases run
  {
    hide WaitForAck, ServeStep;
    if run != [] {
      if Quit(s) { StepQuit(s, run[0]); }
      ReleasedEnds(After(s, run[0]), run[1..]);
    }
  }

  /** After a commit that could not be published. */
  function CommitFailed(body: Body): Session {
    Session(
      Pub(2, 1, 1, false, true, false, Some(1), true, false, true, false, false), Idle, 1,
      map[1 := body, 2 := body], {1}, 0, [AddAck(1, 1)], [], [], [body], true)
  }

  lemma FailsToCommit(body: Body)
    ensures var s, call, fails := AfterFirst(body), CallCommit(body, false), SendCommit(Conn(true, false));
      && Enabled(s, call) && Enabled(After(s, call), fails) && After(After(s, call), fails) == CommitFailed(body)
  {
  }

  /** A run to the deadlock: a commit fails to be published, the next one is sent, two
      responses come, and the deadline passes before the first is taken. */
  lemma Deadlock(body: Body) returns (run: seq<Label>)
    ensures Feasible(Start(1, 1), run) && Jammed(Final(Start(1, 1), run))
    ensures Final(Start(1, 1), run).phase.CommitOver?
  {
    hide Feasible, Final;
    var call, fails := CallCommit(body, false), SendCommit(Conn(true, false));
    var first := FirstAcked(body);
    FailsToCommit(body);
    TwoSteps(AfterFirst(body), call, fails);
    Appended(Start(1, 1), first, [call, fails]);
    var fills := FillsChannel(CommitFailed(body), body);
    Appended(Start(1, 1), first + [call, fails], fills);
    var s := Final(CommitFailed(body), fills);
    EmptyRun(After(s, Timeout));
    Prefixed(s, Timeout, []);
    Appended(Start(1, 1), first + [call, fails] + fills, [Timeout] + []);
    run := first + [call, fails] + fills + ([Timeout] + []);
  }

  // Flow control

  /** The published messages that are not acknowledged. */
  function Outstanding(s: Session): set<nat> { set k | k in s.published && k > s.pub.ackSequence }

  function Limit(s: Session): nat { if s.window < 2 then 2 else s.window }

  /** The server's acknowledgements never go back. */
  predicate Forward(s: Session, l: Label) {
    l.Deliver? && s.toClient != [] && s.toClient[0].Ack? ==> s.pub.ackSequence <= s.toClient[0].sequence
  }

  predicate ForwardRun(s: Session, run: seq<Label>)
    requires Feasible(s, run)
    decreases run
  {
    run == [] || (Forward(s, run[0]) && ForwardRun(After(s, run[0]), run[1..]))
  }

  /** Room for one more message whenever the application may send one. */
  ghost predicate Bounded(s: Session) {
    && s.published <= s.named.Keys && (forall k :: k in s.named <==> 1 <= k <= s.pub.sequence)
    && |Outstanding(s)| <= Limit(s)
    && (s.phase.CommitReady? || s.phase.Passed? || (s.phase.Idle? && !s.pub.closed) || s.phase.FirstWait? ==>
          |Outstanding(s)| < Limit(s))
  }

  function UpTo(lo: nat, hi: nat): (r: set<nat>)
    ensures forall k :: k in r <==> lo < k <= hi
    ensures |r| == if lo <= hi then hi - lo else 0
    decreases hi
  {
    if hi <= lo then {} else UpTo(lo, hi - 1) + {hi}
  }

  lemma Smaller(a: set<nat>, b: set<nat>)
    requires a <= b
    ensures |a| <= |b|
  {
    if a != {} {
      var x :| x in a;
      Smaller(a - {x}, b - {x});
    }
  }

  /** When the check finds room there are fewer unacknowledged messages than the window. */
  lemma RoomBound(s: Session)
    requires s.published <= s.named.Keys && (forall k :: k in s.named ==> 1 <= k <= s.pub.sequence)
    requires !WaitForAck(s.pub, s.maxAcks)
    ensures |Outstanding(s)| < s.pub.flow * s.maxAcks || Outstanding(s) == {}
  {
    Smaller(Outstanding(s), UpTo(s.pub.ackSequence, s.pub.sequence));
  }

  lemma SendBound(s: Session, t: Session, number: nat)
    requires t.published == s.published + {number} && t.pub.ackSequence == s.pub.ackSequence
    ensures |Outstanding(t)| <= |Outstanding(s)| + 1
  {
    Smaller(Outstanding(t), Outstanding(s) + {number});
  }

  lemma AddBounded(s: Session, body: Body, conn: Conn)
    requires Bounded(s) && s.phase.Idle?
    ensures Bounded(AddStep(s, body, conn))
  {
    hide WaitForAck, Bounded, AddStep;
    match AddSection(s.pub, conn).1 {
      case Sent => LaterBounded(s, body, conn);
      case FirstSent => FirstBounded(s, body, conn);
      case _ => UnsentBounded(s, body, conn);
    }
  }

  lemma FirstBounded(s: Session, body: Body, conn: Conn)
    requires Bounded(s) && s.phase.Idle? && AddSection(s.pub, conn).1.FirstSent?
    ensures Bounded(AddStep(s, body, conn))
  {
    hide WaitForAck;
    var t := AddStep(s, body, conn);
    assert s.named.Keys == {};
    assert Outstanding(s) == {} && |Outstanding(t)| <= 1 by { SendBound(s, t, 1); }
  }

  lemma UnsentBounded(s: Session, body: Body, conn: Conn)
    requires Bounded(s) && s.phase.Idle? && !AddSection(s.pub, conn).1.Sent? && !AddSection(s.pub, conn).1.FirstSent?
    ensures Bounded(AddStep(s, body, conn))
  {
    hide WaitForAck;
    assert Outstanding(AddStep(s, body, conn)) == Outstanding(s);
  }

  lemma LaterBounded(s: Session, body: Body, conn: Conn)
    requires Bounded(s) && s.phase.Idle? && AddSection(s.pub, conn).1.Sent?
    ensures Bounded(AddStep(s, body, conn))
  {
    hide WaitForAck, FirstSection;
    var t := AddStep(s, body, conn);
    var (p, r) := AddSection(s.pub, conn);
    assert p == s.pub.(sequence := s.pub.sequence + 1) by { LaterSection(s.pub, conn); }
    SendBound(s, t, p.sequence);
    if !WaitForAck(p, s.maxAcks) { RoomBound(t); }
  }

  lemma LaterSection(p: Pub, conn: Conn)
    requires AddSection(p, conn).1.Sent?
    ensures !p.closed && AddSection(p, conn).0 == p.(sequence := p.sequence + 1)
  {
  }

  lemma CommitBounded(s: Session, conn: Conn)
    requires Bounded(s) && s.phase.CommitReady?
    ensures Bounded(CommitStep(s, conn))
  {
    var t := CommitStep(s, conn);
    var (p, r) := CommitSection(s.pub, conn);
    if r.Sent? {
      SendBound(s, t, p.sequence);
    } else {
      assert Outstanding(t) == Outstanding(s);
    }
  }

  lemma SameOutstanding(s: Session, t: Session)
    requires t.published == s.published && t.pub.ackSequence == s.pub.ackSequence
    ensures Outstanding(t) == Outstanding(s)
  {
  }

  lemma DeliverBounded(s: Session)
    requires Bounded(s) && Enabled(s, Deliver) && Forward(s, Deliver)
    ensures Bounded(After(s, Deliver))
  {
    Smaller(Outstanding(After(s, Deliver)), Outstanding(s));
  }

  lemma StepBounded(s: Session, l: Label)
    requires Bounded(s) && Enabled(s, l) && Forward(s, l)
    ensures Bounded(After(s, l))
  {
    hide AddStep, CommitStep, ServeStep, WaitForAck, Outstanding;
    match l {
      case Add(body, conn) => AddBounded(s, body, conn);
      case SendCommit(conn) => CommitBounded(s, conn);
      case Deliver => DeliverBounded(s);
      case Serve =>
        ServeKeeps(s);
        SameOutstanding(s, After(s, l));
      case Relook =>
        assert Outstanding(s) == {} ==> |Outstanding(s)| == 0;
        if !WaitForAck(s.pub, s.maxAcks) { RoomBound(s); }
        SameOutstanding(s, After(s, l));
      case _ => SameOutstanding(s, After(s, l));
    }
  }

  lemma {:induction false} RunBounded(s: Session, run: seq<Label>)
    requires Bounded(s) && Feasible(s, run) && ForwardRun(s, run)
    ensures Bounded(Final(s, run))
    decreases run
  {
    hide Enabled, After, Bounded;
    if run != [] {
      StepBounded(s, run[0]);
      RunBounded(After(s, run[0]), run[1..]);
    }
  }

  /** At no moment are more messages unacknowledged, the commit included, than the window at
      the last passed check allows, or two before there was one; publications may fail and
      the server may change the flow at any time. */
  lemma WindowHolds(flow: nat, maxAcks: nat, run: seq<Label>)
    requires Feasible(Start(flow, maxAcks), run) && ForwardRun(Start(flow, maxAcks), run)
    ensures var s := Final(Start(flow, maxAcks), run);
      |Outstanding(s)| <= Limit(s)
  {
    assert Bounded(Start(flow, maxAcks));
    RunBounded(Start(flow, maxAcks), run);
  }

  // The limits in force, and the end of a session

  /** What the ack handler is given in a run. */
  function Heard(s: Session, run: seq<Label>): seq<Notice>
    requires Feasible(s, run)
    decreases run
  {
    if run == [] then []
    else (if run[0].Deliver? then [s.toClient[0]] else []) + Heard(After(s, run[0]), run[1..])
  }

  /** Flow and acknowledged sequence according to the last acknowledgement heard. */
  function Latest(flow: nat, ack: nat, heard: seq<Notice>): (nat, nat)
    decreases heard
  {
    if heard == [] then (flow, ack)
    else if heard[0].Ack? then Latest(heard[0].messages, heard[0].sequence, heard[1..])
    else Latest(flow, ack, heard[1..])
  }

  lemma StepFollows(s: Session, l: Label)
    requires Enabled(s, l)
    ensures l.Deliver? ==> s.toClient != []
    ensures (After(s, l).pub.flow, After(s, l).pub.ackSequence)
      == if l.Deliver? && s.toClient[0].Ack? then (s.toClient[0].messages, s.toClient[0].sequence)
         else (s.pub.flow, s.pub.ackSequence)
  {
    hide WaitForAck, ServeStep, AddStep, CommitStep;
    match l {
      case Add(body, conn) => AddKeepsLimits(s, body, conn);
      case SendCommit(conn) => CommitKeepsLimits(s, conn);
      case Serve => ServeKeeps(s);
      case _ =>
    }
  }

  predicate SameLimits(p: Pub, q: Pub) { p.flow == q.flow && p.ackSequence == q.ackSequence }

  lemma AddKeepsLimits(s: Session, body: Body, conn: Conn)
    ensures SameLimits(AddStep(s, body, conn).pub, s.pub)
  {
    hide WaitForAck, AddSection;
    var (p, r) := AddSection(s.pub, conn);
    SectionKeepsLimits(s.pub, conn);
    assert AddStep(s, body, conn).pub == p || AddStep(s, body, conn).pub == s.pub;
  }

  lemma CommitKeepsLimits(s: Session, conn: Conn)
    requires s.phase.CommitReady?
    ensures SameLimits(CommitStep(s, conn).pub, s.pub)
  {
    hide CommitSection;
    var (p, r) := CommitSection(s.pub, conn);
    SectionKeepsLimits(s.pub, conn);
    assert CommitStep(s, conn).pub == p;
  }

  lemma SectionKeepsLimits(p: Pub, conn: Conn)
    ensures SameLimits(AddSection(p, conn).0, p) && SameLimits(CommitSection(p, conn).0, p)
  {
  }

  lemma Prepended(n: Notice, later: seq<Notice>, flow: nat, ack: nat)
    ensures Latest(flow, ack, [n] + later)
      == if n.Ack? then Latest(n.messages, n.sequence, later) else Latest(flow, ack, later)
  {
    assert ([n] + later)[1..] == later;
  }

  /** Sends, stalls, failures and lost packets leave the limits alone: they are always those
      of the last acknowledgement that arrived. */
  lemma {:induction false} FollowsServer(s: Session, run: seq<Label>)
    requires Feasible(s, run)
    ensures (Final(s, run).pub.flow, Final(s, run).pub.ackSequence)
      == Latest(s.pub.flow, s.pub.ackSequence, Heard(s, run))
    decreases run
  {
    hide After, Latest;
    if run == [] {
      LatestOfNone(s.pub.flow, s.pub.ackSequence);
    } else {
      StepFollows(s, run[0]);
      FollowsServer(After(s, run[0]), run[1..]);
      var later := Heard(After(s, run[0]), run[1..]);
      if run[0].Deliver? {
        Prepended(s.toClient[0], later, s.pub.flow, s.pub.ackSequence);
      } else {
        assert [] + later == later;
      }
    }
  }

  lemma LatestOfNone(flow: nat, ack: nat)
    ensures Latest(flow, ack, []) == (flow, ack)
  {
  }

  ghost predicate Over(s: Session) { s.pub.closed && !s.phase.CommitReady? }

  lemma StepOver(s: Session, l: Label)
    requires Enabled(s, l) && Over(s)
    ensures var t := After(s, l);
      Over(t) && t.pub.sequence == s.pub.sequence && t.named == s.named && t.published == s.published
  {
    hide WaitForAck, ServeStep;
    if l.Serve? { ServeKeeps(s); }
  }

  /** Nothing is numbered or published once the batch is closed, unless a commit call had
      found it open before. */
  lemma {:induction false} NothingAfterClose(s: Session, run: seq<Label>)
    requires Feasible(s, run) && Over(s)
    ensures var t := Final(s, run);
      Over(t) && t.pub.sequence == s.pub.sequence && t.named == s.named && t.published == s.published
    decreases run
  {
    hide Enabled, After, Over;
    if run != [] {
      StepOver(s, run[0]);
      NothingAfterClose(After(s, run[0]), run[1..]);
    }
  }

  // What a run without losses persists

  /** What the application has handed over: the messages added to the open batch, and the one
      of a commit, but not that of an end of batch. */
  function Handed(s: Session, run: seq<Label>): seq<Body>
    requires Feasible(s, run)
    decreases run
  {
    if run == [] then []
    else
      (match run[0]
       case Add(body, _) => if s.pub.closed then [] else [body]
       case SendCommit(_) => if s.phase.end then [] else [s.phase.body]
       case _ => [])
      + Handed(After(s, run[0]), run[1..])
  }

  /** Everything that is sent gets to the server, and no commit comes first. */
  predicate Lossless(s: Session, l: Label) {
    match l
    case Add(_, conn) => conn == Conn(true, true)
    case SendCommit(conn) => conn == Conn(true, true)
    case CallCommit(_, _) => s.pub.sequence > 0
    case LosePacket(_) => false
    case _ => true
  }

  predicate LosslessRun(s: Session, run: seq<Label>)
    requires Feasible(s, run)
    decreases run
  {
    run == [] || (Lossless(s, run[0]) && LosslessRun(After(s, run[0]), run[1..]))
  }

  /** The session once the server has taken everything that is on its way. */
  ghost function AllServed(s: Session): Session
    decreases |s.toServer|
  {
    if s.toServer == [] then s else AllServed(ServeStep(s))
  }

  lemma {:induction false} SentLast(s: Session, packet: Packet)
    ensures AllServed(s.(toServer := s.toServer + [packet])) == ServeStep(AllServed(s).(toServer := [packet]))
    decreases |s.toServer|
  {
    var t := s.(toServer := s.toServer + [packet]);
    if s.toServer == [] {
      assert t == s.(toServer := [packet]);
    } else {
      var u := ServeStep(s);
      assert t.toServer[1..] == u.toServer + [packet];
      assert ServeStep(t) == u.(toServer := u.toServer + [packet]);
      SentLast(u, packet);
    }
  }

  /** The server's part does not depend on the publisher's. */
  lemma {:induction false} ServedApart(s: Session, t: Session)
    requires t.toServer == s.toServer && t.persisted == s.persisted && t.open == s.open
    ensures AllServed(t).persisted == AllServed(s).persisted && AllServed(t).open == AllServed(s).open
    decreases |s.toServer|
  {
    if s.toServer != [] {
      ServedApart(ServeStep(s), ServeStep(t));
    }
  }

  lemma {:induction false} ServedGrows(s: Session)
    ensures s.persisted <= AllServed(s).persisted && AllServed(s).toServer == []
    decreases |s.toServer|
  {
    if s.toServer != [] {
      ServedGrows(ServeStep(s));
    }
  }

  ghost predicate Committing(phase: Phase) { phase.CommitWait? || phase.PingWait? || phase.CommitOver? }

  /** The server will have the bodies, and takes another message while the batch goes on. */
  ghost predicate Complete(s: Session, bodies: seq<Body>) {
    var t := AllServed(s);
    && t.persisted == bodies && (t.open ==> |bodies| == s.pub.sequence)
    && (s.pub.sequence == 0 ==> bodies == [] && !t.open && s.phase.Idle?)
    && (s.pub.sequence > 0 && (s.phase.CommitReady? || (!s.pub.closed && !Committing(s.phase))) ==> t.open)
  }

  lemma SentComplete(s: Session, t: Session, bodies: seq<Body>, packet: Packet)
    requires Complete(s, bodies)
    requires t.toServer == s.toServer + [packet] && t.persisted == s.persisted && t.open == s.open
    ensures var u := ServeStep(AllServed(s).(toServer := [packet]));
      AllServed(t).persisted == u.persisted && AllServed(t).open == u.open
  {
    SentLast(s, packet);
    ServedApart(s.(toServer := s.toServer + [packet]), t);
  }

  lemma AddComplete(s: Session, body: Body, bodies: seq<Body>)
    requires Complete(s, bodies) && s.phase.Idle?
    ensures Complete(AddStep(s, body, Conn(true, true)), bodies + if s.pub.closed then [] else [body])
  {
    hide WaitForAck, AllServed;
    if s.pub.closed {
      assert bodies + [] == bodies;
    } else {
      var t := AddStep(s, body, Conn(true, true));
      SentComplete(s, t, bodies, Data(t.pub.sequence, body, if t.pub.sequence == 1 then StartOp else AddOp));
    }
  }

  lemma CommitComplete(s: Session, bodies: seq<Body>)
    requires Complete(s, bodies) && s.phase.CommitReady?
    ensures Complete(CommitStep(s, Conn(true, true)), bodies + if s.phase.end then [] else [s.phase.body])
  {
    hide AllServed;
    var t := CommitStep(s, Conn(true, true));
    SentComplete(s, t, bodies, Data(t.pub.sequence, s.phase.body, if s.phase.end then EndOp else CommitOp));
    assert bodies + [] == bodies;
  }

  lemma StepComplete(s: Session, l: Label, bodies: seq<Body>)
    requires Complete(s, bodies) && Enabled(s, l) && Lossless(s, l)
    ensures Complete(After(s, l), bodies + Handed(s, [l]))
  {
    hide AllServed, ServeStep, AddStep, CommitStep, WaitForAck;
    var t := After(s, l);
    assert [l][1..] == [];
    match l {
      case Add(body, conn) =>
        AddComplete(s, body, bodies);
        assert Handed(s, [l]) == if s.pub.closed then [] else [body];
      case SendCommit(conn) =>
        CommitComplete(s, bodies);
        assert Handed(s, [l]) == if s.phase.end then [] else [s.phase.body];
      case Serve =>
        ServeKeeps(s);
        ServedOnce(s);
        assert bodies + Handed(s, [l]) == bodies;
      case SendPing(works) =>
        PingComplete(s, works, bodies);
        assert bodies + Handed(s, [l]) == bodies;
      case LosePacket(_) =>
      case _ =>
        ServedApart(s, t);
        assert bodies + Handed(s, [l]) == bodies;
    }
  }

  lemma ServedOnce(s: Session)
    requires s.toServer != []
    ensures AllServed(s) == AllServed(ServeStep(s))
  {
  }

  lemma PingComplete(s: Session, works: bool, bodies: seq<Body>)
    requires Complete(s, bodies) && Enabled(s, SendPing(works))
    ensures Complete(After(s, SendPing(works)), bodies)
  {
    hide AllServed;
    var t := After(s, SendPing(works));
    if !s.pub.held && works {
      SentComplete(s, t, bodies, Ping(s.pub.sequence));
    } else {
      ServedApart(s, t);
    }
  }

  lemma {:induction false} RunComplete(s: Session, run: seq<Label>, bodies: seq<Body>)
    requires Complete(s, bodies) && Feasible(s, run) && LosslessRun(s, run)
    ensures Complete(Final(s, run), bodies + Handed(s, run))
    decreases run
  {
    hide Enabled, After, Complete, Lossless;
    if run == [] {
      assert bodies + Handed(s, run) == bodies;
    } else {
      StepComplete(s, run[0], bodies);
      RunComplete(After(s, run[0]), run[1..], bodies + Handed(s, [run[0]]));
      HandedFirst(s, run);
      assert bodies + Handed(s, [run[0]]) + Handed(After(s, run[0]), run[1..]) == bodies + Handed(s, run);
    }
  }

  lemma HandedFirst(s: Session, run: seq<Label>)
    requires run != [] && Feasible(s, run)
    ensures Handed(s, run) == Handed(s, [run[0]]) + Handed(After(s, run[0]), run[1..])
  {
    assert [run[0]][1..] == [];
  }

  /** When nothing gets lost the server persists the added messages in their order and the
      committed one, all of them once it has caught up, whatever it and the waits do. */
  lemma PersistsHanded(flow: nat, maxAcks: nat, run: seq<Label>)
    requires Feasible(Start(flow, maxAcks), run) && LosslessRun(Start(flow, maxAcks), run)
    ensures var s := Final(Start(flow, maxAcks), run);
      var handed := Handed(Start(flow, maxAcks), run);
      s.persisted <= handed && (s.toServer == [] ==> s.persisted == handed)
  {
    hide Feasible, Final, Handed, LosslessRun;
    var start := Start(flow, maxAcks);
    assert Complete(start, []);
    RunComplete(start, run, []);
    assert [] + Handed(start, run) == Handed(start, run);
    ServedGrows(Final(start, run));
  }

  /** Of a commit that is sent in order the server persists the message, and of an end of
      batch only what was added before; either way the batch is over. */
  lemma CommitPersists(s: Session)
    requires s.phase.CommitReady? && !s.pub.held && s.open && s.toServer == [] && |s.persisted| == s.pub.sequence
    ensures var t := After(s, SendCommit(Conn(true, true)));
      && Enabled(t, Serve) && !After(t, Serve).open && t.named[t.pub.sequence] == s.phase.body
      && After(t, Serve).persisted == if s.phase.end then s.persisted else s.persisted + [s.phase.body]
  {
  }

  // What AddMsg returns

  /** The calls of the application. */
  predicate Calls(l: Label) { l.Add? || l.CallCommit? }

  /** AddMsg is waiting; what it waits with is the number of its message. */
  ghost predicate Adding(s: Session) {
    match s.phase
    case FirstWait => s.pub.sequence == 1 && (s.pub.firstCh <==> s.pub.firstAck.None?)
    case Stalled(n) => n == s.pub.sequence > 1
    case Recheck(n) => n == s.pub.sequence > 1
    case Passed(n) => n == s.pub.sequence > 1
    case _ => false
  }

  /** The first acknowledgement among what the handler was given. */
  function FirstHeard(heard: seq<Notice>): Option<nat> {
    if heard == [] then None
    else if heard[0].Ack? then Some(heard[0].sequence)
    else FirstHeard(heard[1..])
  }

  lemma AddingStep(s: Session, l: Label)
    requires Adding(s) && Enabled(s, l) && !Calls(l)
    ensures var t := After(s, l);
      Adding(t) ==> t.named == s.named && t.returned == s.returned && t.pub.sequence == s.pub.sequence
    ensures var t := After(s, l);
      Adding(t) && s.phase.FirstWait? ==>
        t.pub.firstAck == if s.pub.firstAck.Some? || !l.Deliver? then s.pub.firstAck else FirstHeard([s.toClient[0]])
    ensures !Adding(After(s, l)) ==> !InCall(After(s, l))
  {
    hide WaitForAck, ServeStep;
    if l.Serve? { ServeKeeps(s); }
    if l.Deliver? { assert FirstHeard([s.toClient[0]][1..]) == None; }
  }

  /** Some call is waiting that may still return well. */
  predicate InCall(s: Session) { s.phase.FirstWait? || s.phase.Stalled? || s.phase.Recheck? || s.phase.Passed? }

  lemma StaysOut(s: Session, l: Label)
    requires !InCall(s) && Enabled(s, l) && !Calls(l)
    ensures !InCall(After(s, l))
  {
    hide WaitForAck, ServeStep;
    if l.Serve? { ServeKeeps(s); }
  }

  lemma {:induction false} RunOut(s: Session, run: seq<Label>)
    requires !InCall(s) && Feasible(s, run) && forall l :: l in run ==> !Calls(l)
    ensures !InCall(Final(s, run))
    decreases run
  {
    hide Enabled, After, InCall;
    if run != [] {
      assert run[0] in run;
      assert forall l :: l in run[1..] ==> l in run;
      StaysOut(s, run[0]);
      RunOut(After(s, run[0]), run[1..]);
    }
  }

  lemma {:induction false} FirstOfTwo(a: seq<Notice>, b: seq<Notice>)
    ensures FirstHeard(a + b) == if FirstHeard(a).Some? then FirstHeard(a) else FirstHeard(b)
  {
    if a == [] {
      assert a + b == b;
    } else {
      FirstOfTwo(a[1..], b);
      assert (a + b)[1..] == a[1..] + b;
    }
  }

  lemma {:induction false} RunAdding(s: Session, run: seq<Label>)
    requires Adding(s) && Feasible(s, run) && (forall l :: l in run ==> !Calls(l)) && InCall(Final(s, run))
    ensures var t := Final(s, run);
      Adding(t) && t.named == s.named && t.returned == s.returned && t.pub.sequence == s.pub.sequence
    ensures s.phase.FirstWait? <==> Final(s, run).phase.FirstWait?
    ensures s.phase.FirstWait? ==>
      Final(s, run).pub.firstAck == if s.pub.firstAck.Some? then s.pub.firstAck else FirstHeard(Heard(s, run))
    decreases run
  {
    hide Enabled, After, FirstHeard;
    if run == [] {
      assert FirstHeard(Heard(s, run)) == None by { FirstOfNone(); }
    } else {
      assert run[0] in run;
      assert forall l :: l in run[1..] ==> l in run;
      AddingStep(s, run[0]);
      var t := After(s, run[0]);
      if !Adding(t) { RunOut(t, run[1..]); }
      SamePart(s, run[0]);
      RunAdding(t, run[1..]);
      FirstOfTwo(if run[0].Deliver? then [s.toClient[0]] else [], Heard(t, run[1..]));
      FirstOfNone();
    }
  }

  lemma FirstOfNone()
    ensures FirstHeard([]) == None
  {
  }

  lemma SamePart(s: Session, l: Label)
    requires Adding(s) && Enabled(s, l) && Adding(After(s, l))
    ensures After(s, l).phase.FirstWait? <==> s.phase.FirstWait?
    ensures l.Deliver? ==> s.toClient != []
  {
    hide WaitForAck, ServeStep;
    if l.Serve? { ServeKeeps(s); }
  }

  /** AddMsg returns the number its own message was given, with the first acknowledgement for
      the first message and the latest one for the others, whenever in a run it returns. */
  lemma ReturnsOwnNumber(s: Session, body: Body, conn: Conn, run: seq<Label>, l: Label)
    requires Enabled(s, Add(body, conn)) && InCall(After(s, Add(body, conn)))
    requires Feasible(After(s, Add(body, conn)), run) && forall l' :: l' in run ==> !Calls(l')
    requires Enabled(Final(After(s, Add(body, conn)), run), l) && (l.FirstTaken? || l.Return?)
    ensures var t := After(s, Add(body, conn));
      var u := After(Final(t, run), l);
      var first := s.pub.sequence == 0;
      var heard := Heard(t, run);
      var ack := if first then FirstHeard(heard) else Some(Latest(s.pub.flow, s.pub.ackSequence, heard).1);
      && ack.Some? && u.returned == s.returned + [AddAck(s.pub.sequence + 1, ack.value)] && u.phase.Idle?
      && s.pub.sequence + 1 in u.named && u.named[s.pub.sequence + 1] == body
  {
    hide Feasible, Final, WaitForAck, Heard, Latest;
    var t := After(s, Add(body, conn));
    RunAdding(t, run);
    StepFollows(s, Add(body, conn));
    FollowsServer(t, run);
  }

  /** An AddMsg that finds room returns at once, the same way; one that fails returns nothing. */
  lemma ReturnsAtOnce(s: Session, body: Body, conn: Conn)
    requires Enabled(s, Add(body, conn)) && !InCall(After(s, Add(body, conn)))
    ensures var t := After(s, Add(body, conn));
      var sent := !s.pub.closed && s.pub.sequence > 0 && conn.publishes;
      && t.returned == s.returned + (if sent then [AddAck(s.pub.sequence + 1, s.pub.ackSequence)] else [])
      && (sent ==> s.pub.sequence + 1 in t.named && t.named[s.pub.sequence + 1] == body)
  {
    hide WaitForAck;
  }

  /** waitForAck counts: the window is full when the flow times the acknowledgements that may
      be outstanding is not more than the numbers given out and not acknowledged. */
  lemma RoomExactly(s: Session)
    requires Accounted(s)
    ensures var waiting := set k | k in s.named && k > s.pub.ackSequence;
      WaitForAck(s.pub, s.maxAcks) <==> |waiting| >= s.pub.flow * s.maxAcks
  {
    assert s.pub.ackSequence <= s.pub.sequence by {
      if |s.persisted| >= 1 { assert |s.persisted| in s.published; }
    }
    assert (set k | k in s.named && k > s.pub.ackSequence) == UpTo(s.pub.ackSequence, s.pub.sequence);
  }

  // What is left of a subscription

  /** Every commit that is tried is also sent, and no stall is given up. */
  predicate TidyRun(s: Session, run: seq<Label>)
    requires Feasible(s, run)
    decreases run
  {
    run == [] || (Neat(s, run[0]) && TidyRun(After(s, run[0]), run[1..]))
  }

  predicate Neat(s: Session, l: Label) {
    (l.SendCommit? ==> l.conn == Conn(true, true)) && (l.Close? ==> !s.phase.StallOver?)
  }

  ghost predicate Tidy(s: Session) {
    OneAnswer(s) && (s.pub.closed && s.pub.subscribed ==> Committing(s.phase))
  }

  lemma StepTidy(s: Session, l: Label)
    requires Tidy(s) && Enabled(s, l) && Neat(s, l)
    ensures Tidy(After(s, l))
  {
    hide WaitForAck, ServeStep, OneAnswer;
    StepOneAnswer(s, l);
    NotHeld(s);
    if l.Serve? { ServeKeeps(s); }
  }

  lemma NotHeld(s: Session)
    requires OneAnswer(s)
    ensures !s.pub.held && (s.pub.commitCh && s.pub.answered ==> !s.pub.subscribed)
  {
  }

  lemma {:induction false} RunTidy(s: Session, run: seq<Label>)
    requires Tidy(s) && Feasible(s, run) && TidyRun(s, run)
    ensures Tidy(Final(s, run))
    decreases run
  {
    hide Enabled, After, Tidy, Neat;
    if run != [] {
      StepTidy(s, run[0]);
      RunTidy(After(s, run[0]), run[1..]);
    }
  }

  /** Whatever failed, was refused or timed out: a closed batch keeps its subscription between
      calls only after a stall was given up or a commit could not be sent. */
  lemma ClosedUnsubscribes(flow: nat, maxAcks: nat, run: seq<Label>)
    requires Feasible(Start(flow, maxAcks), run) && TidyRun(Start(flow, maxAcks), run)
    ensures var s := Final(Start(flow, maxAcks), run);
      s.phase.Idle? && s.pub.closed ==> !s.pub.subscribed
  {
    hide Feasible, Final, TidyRun;
    RunTidy(Start(flow, maxAcks), run);
  }

  lemma {:induction false} IdleSubscription(s: Session, run: seq<Label>)
    requires s.phase.Idle? && s.pub.closed && s.pub.subscribed && Feasible(s, run)
    requires forall l :: l in run ==> !l.Deliver?
    ensures Final(s, run).pub.subscribed && Final(s, run).phase.Idle?
    decreases run
  {
    hide WaitForAck, ServeStep;
    if run != [] {
      assert run[0] in run;
      assert forall l :: l in run[1..] ==> l in run;
      if run[0].Serve? { ServeKeeps(s); }
      IdleSubscription(After(s, run[0]), run[1..]);
    }
  }

  /** A stall that is given up closes the batch and leaves its subscription, and none of the
      calls that come after ends it. */
  lemma StallLeavesSubscription(s: Session, run: seq<Label>)
    requires s.phase.StallOver? && s.pub.subscribed && Enabled(s, Close) && Feasible(After(s, Close), run)
    requires forall l :: l in run ==> !l.Deliver?
    ensures var t := Final(After(s, Close), run); t.pub.subscribed && t.phase.Idle?
  {
    hide Feasible, Final;
    IdleSubscription(After(s, Close), run);
  }
}
