/**
 Requests and replies between two nodes (cluster/src/tcp/transport.rs:140-227,
 cluster/src/tcp/listener.rs:140-190, cluster/src/control.rs:43-110).

 The client keeps one connection to its peer and uses it under a lock: it connects (hello,
 acknowledgement, two snapshots each way), sends one-way frames, or sends a request and
 reads one frame as its reply. Any error or timeout discards the connection; the next use
 makes a new one, while the server of the old one may go on for a while. Each direction of
 a connection is a FIFO queue; the servers, one per connection, read and write one frame a
 step and may close at any time.

 Correlation ids are chosen freely and may repeat. What identifies a request is its serial
 number. In the model a request carries it, and a reply carries the request it stems from
 and what the server's node did with it; no step looks at any of these.
 */
module RequestReply {
  import opened SupervisionValidate

  datatype Request =
    | Hello(version: nat)
    | Snapshot                                            // registry or process-group snapshot
    | Control                                             // registry or process-group event
    | Actor(serial: nat, correlation: nat, body: nat)
    | Supervision(serial: nat, envelope: Envelope)

  datatype Answer =
    | Ack(version: nat)
    | Snap
    | ActorReply(origin: Request, outcome: Outcome, correlation: nat, payload: nat)
    | SupervisionReply(origin: Request, outcome: Outcome, envelope: Envelope)

  datatype Server = AwaitingHello | Serving | Closed

  /** `pending` holds frames the server is about to write. */
  datatype Connection = Connection(toServer: seq<Request>, toClient: seq<Answer>, pending: seq<Answer>, server: Server)

  datatype Stage = Unconnected | AfterHello | AfterAck | AfterSnap | Ready | Waiting(q: Request)

  datatype Exchange = Exchange(q: Request, a: Answer)

  /** The current connection is the last one. `log` holds the requests that got their reply. */
  datatype System = System(conns: seq<Connection>, stage: Stage, next: nat, log: seq<Exchange>, mismatches: nat)

  /** Versions of both sides, the server's node, and whether it has a supervision broker. */
  datatype Setting = Setting(clientVersion: nat, serverVersion: nat, node: nat, hooked: bool)

  /** What the server's node does with a frame. */
  datatype Outcome = Outcome(fails: bool, payload: nat, ready: bool, spawn: SpawnOutcome)

  datatype Move =
    | Connect
    | ReadAck
    | ReadSnap
    | Fire(f: Request)
    | Ask(q: Request)
    | ReadReply
    | GiveUp                                   // timeout or any other error
    | ServerReads(i: nat, outcome: Outcome)
    | ServerWrites(i: nat)
    | ServerCloses(i: nat)

  /** Frames after which the client does not read. */
  predicate OneWayFrame(f: Request) {
    match f
    case Control => true
    case Actor(_, c, _) => c == 0
    case Supervision(_, e) => ValidateEnvelope(e).Valid? && e.correlation == 0
    case _ => false
  }

  /** Frames after which the client reads one frame. */
  predicate TwoWayFrame(f: Request) {
    match f
    case Actor(_, c, _) => c != 0
    case Supervision(_, e) => ValidateEnvelope(e).Valid?
    case _ => false
  }

  predicate Fresh(s: System, f: Request) {
    (f.Actor? || f.Supervision?) ==> f.serial == s.next
  }

  function Current(s: System): Connection
    requires s.conns != []
  {
    s.conns[|s.conns| - 1]
  }

  predicate Readable(s: System) {
    s.conns != [] && Current(s).toClient != []
  }

  predicate Enabled(s: System, m: Move) {
    match m
    case Connect => s.stage.Unconnected?
    case ReadAck => s.stage.AfterHello? && Readable(s)
    case ReadSnap => (s.stage.AfterAck? || s.stage.AfterSnap?) && Readable(s)
    case Fire(f) => s.stage.Ready? && s.conns != [] && OneWayFrame(f) && Fresh(s, f)
    case Ask(q) => s.stage.Ready? && s.conns != [] && TwoWayFrame(q) && Fresh(s, q)
    case ReadReply => s.stage.Waiting? && Readable(s)
    case GiveUp => !s.stage.Unconnected?
    case ServerReads(i, _) =>
      i < |s.conns| && !s.conns[i].server.Closed? && s.conns[i].pending == [] && s.conns[i].toServer != []
    case ServerWrites(i) => i < |s.conns| && !s.conns[i].server.Closed? && s.conns[i].pending != []
    case ServerCloses(i) => i < |s.conns|
  }

  function Send(c: Connection, fs: seq<Request>): Connection {
    c.(toServer := c.toServer + fs)
  }

  function Receive(c: Connection): Connection
    requires c.toClient != []
  {
    c.(toClient := c.toClient[1..])
  }

  function Put(s: System, c: Connection): System
    requires s.conns != []
  {
    s.(conns := s.conns[|s.conns| - 1 := c])
  }

  /** The client's check on the frame it reads as a reply. */
  predicate Accepts(q: Request, a: Answer) {
    match q
    case Actor(_, c, _) => a.ActorReply? && a.correlation == c
    case Supervision(_, e) => a.SupervisionReply? && ValidateReply(e, a.envelope).Valid?
    case _ => false
  }

  /** The frame is what the server's node made of this very request. */
  predicate Answers(g: Setting, q: Request, a: Answer) {
    && Accepts(q, a)
    && (q.Actor? ==> a.origin == q && a.payload == a.outcome.payload && !a.outcome.fails)
    && (q.Supervision? ==>
          && a.origin == q
          && ApplySupervision(g.hooked, g.node, a.outcome.ready, q.envelope, a.outcome.spawn, a.outcome.fails) ==
               Reply(a.envelope))
  }

  function Serve(g: Setting, c: Connection, outcome: Outcome): Connection
    requires c.toServer != []
  {
    var f := c.toServer[0];
    var c' := c.(toServer := c.toServer[1..]);
    var shut := c'.(server := Closed, pending := []);
    if c.server.AwaitingHello? then
      if f.Hello? && f.version == g.serverVersion
      then c'.(server := Serving, pending := [Ack(g.serverVersion), Snap, Snap])
      else shut
    else
      match f
      case Hello(_) => shut
      case Snapshot => if outcome.fails then shut else c'
      case Control => if outcome.fails then shut else c'
      case Actor(_, corr, _) =>
        if outcome.fails then shut
        else if corr == 0 then c'
        else c'.(pending := [ActorReply(f, outcome, corr, outcome.payload)])
      case Supervision(_, e) =>
        match ApplySupervision(g.hooked, g.node, outcome.ready, e, outcome.spawn, outcome.fails)
        case Reply(r) => c'.(pending := [SupervisionReply(f, outcome, r)])
        case Silent => c'
        case Failed => shut
  }

  function Step(g: Setting, s: System, m: Move): System
    requires Enabled(s, m)
  {
    match m
    case Connect =>
      s.(conns := s.conns + [Connection([Hello(g.clientVersion)], [], [], AwaitingHello)], stage := AfterHello)
    case ReadAck =>
      var c := Current(s);
      if c.toClient[0] == Ack(g.clientVersion)
      then Put(s.(stage := AfterAck), Send(Receive(c), [Snapshot, Snapshot]))
      else s.(stage := Unconnected)
    case ReadSnap => Put(s.(stage := if s.stage.AfterAck? then AfterSnap else Ready), Receive(Current(s)))
    case Fire(f) => Put(s.(next := s.next + 1), Send(Current(s), [f]))
    case Ask(q) => Put(s.(next := s.next + 1, stage := Waiting(q)), Send(Current(s), [q]))
    case ReadReply =>
      var c := Current(s);
      if Accepts(s.stage.q, c.toClient[0])
      then Put(s.(stage := Ready, log := s.log + [Exchange(s.stage.q, c.toClient[0])]), Receive(c))
      else s.(stage := Unconnected, mismatches := s.mismatches + 1)
    case GiveUp => s.(stage := Unconnected)
    case ServerReads(i, outcome) => s.(conns := s.conns[i := Serve(g, s.conns[i], outcome)])
    case ServerWrites(i) =>
      var c := s.conns[i];
      s.(conns := s.conns[i := c.(toClient := c.toClient + [c.pending[0]], pending := c.pending[1..])])
    case ServerCloses(i) => s.(conns := s.conns[i := s.conns[i].(server := Closed, pending := [])])
  }

  function Start(): System {
    System([], Unconnected, 0, [], 0)
  }

  ghost predicate Possible(g: Setting, s: System, moves: seq<Move>)
    decreases |moves|
  {
    moves == [] || (Enabled(s, moves[0]) && Possible(g, Step(g, s, moves[0]), moves[1..]))
  }

  ghost function After(g: Setting, s: System, moves: seq<Move>): System
    requires Possible(g, s, moves)
    decreases |moves|
  {
    if moves == [] then s else After(g, Step(g, s, moves[0]), moves[1..])
  }

  // ----- what is on its way to the client -----

  datatype Shape = AckShape | SnapShape | AnswerShape(q: Request) | Junk

  function ShapeOf(g: Setting, a: Answer): Shape {
    match a
    case Ack(_) => AckShape
    case Snap => SnapShape
    case ActorReply(q, _, _, _) => if Answers(g, q, a) then AnswerShape(q) else Junk
    case SupervisionReply(q, _, _) => if Answers(g, q, a) then AnswerShape(q) else Junk
  }

  function Shapes(g: Setting, answers: seq<Answer>): seq<Shape> {
    if answers == [] then [] else [ShapeOf(g, answers[0])] + Shapes(g, answers[1..])
  }

  /** What an open server will write because of a frame. */
  function Owed(g: Setting, f: Request): seq<Shape> {
    match f
    case Hello(_) => [AckShape, SnapShape, SnapShape]
    case Actor(_, c, _) => if c != 0 then [AnswerShape(f)] else []
    case Supervision(_, e) => if g.hooked && e.event.SpawnRequest? then [AnswerShape(f)] else []
    case _ => []
  }

  function AllOwed(g: Setting, fs: seq<Request>): seq<Shape> {
    if fs == [] then [] else Owed(g, fs[0]) + AllOwed(g, fs[1..])
  }

  function Due(g: Setting, c: Connection): seq<Shape> {
    Shapes(g, c.toClient) + if c.server.Closed? then [] else Shapes(g, c.pending) + AllOwed(g, c.toServer)
  }

  /** What the client still has to read at each stage. */
  function Expected(g: Setting, stage: Stage): seq<Shape> {
    match stage
    case Unconnected => []
    case AfterHello => [AckShape, SnapShape, SnapShape]
    case AfterAck => [SnapShape, SnapShape]
    case AfterSnap => [SnapShape]
    case Ready => []
    case Waiting(q) => Owed(g, q)
  }

  lemma {:induction false} ShapesAppend(g: Setting, a: seq<Answer>, b: seq<Answer>)
    ensures Shapes(g, a + b) == Shapes(g, a) + Shapes(g, b)
    decreases |a|
  {
    if a == [] {
      assert a + b == b;
    } else {
      assert (a + b)[1..] == a[1..] + b;
      ShapesAppend(g, a[1..], b);
    }
  }

  lemma {:induction false} AllOwedAppend(g: Setting, a: seq<Request>, b: seq<Request>)
    ensures AllOwed(g, a + b) == AllOwed(g, a) + AllOwed(g, b)
    decreases |a|
  {
    if a == [] {
      assert a + b == b;
    } else {
      assert (a + b)[1..] == a[1..] + b;
      AllOwedAppend(g, a[1..], b);
    }
  }

  // ----- one connection -----

  ghost predicate NoHello(fs: seq<Request>) {
    forall i :: 0 <= i < |fs| ==> !fs[i].Hello?
  }

  ghost predicate ConnectionOk(g: Setting, c: Connection, expected: seq<Shape>) {
    && (if c.server.Closed? then Due(g, c) <= expected else Due(g, c) == expected)
    && (c.server.AwaitingHello? ==>
          c.pending == [] && c.toServer != [] && c.toServer[0].Hello? && NoHello(c.toServer[1..]))
    && (c.server.Serving? ==> NoHello(c.toServer))
  }

  lemma CloseOk(g: Setting, c: Connection, expected: seq<Shape>)
    requires ConnectionOk(g, c, expected)
    ensures ConnectionOk(g, c.(server := Closed, pending := []), expected)
  {
    assert Due(g, c.(server := Closed, pending := [])) == Shapes(g, c.toClient) + [];
    assert Shapes(g, c.toClient) + [] == Shapes(g, c.toClient);
  }

  lemma WriteOk(g: Setting, c: Connection, expected: seq<Shape>)
    requires ConnectionOk(g, c, expected) && !c.server.Closed? && c.pending != []
    ensures ConnectionOk(g, c.(toClient := c.toClient + [c.pending[0]], pending := c.pending[1..]), expected)
  {
    var c' := c.(toClient := c.toClient + [c.pending[0]], pending := c.pending[1..]);
    ShapesAppend(g, c.toClient, [c.pending[0]]);
    assert c.pending == [c.pending[0]] + c.pending[1..];
    ShapesAppend(g, [c.pending[0]], c.pending[1..]);
    calc {
      Due(g, c');
      Shapes(g, c.toClient) + Shapes(g, [c.pending[0]]) + (Shapes(g, c.pending[1..]) + AllOwed(g, c.toServer));
      Shapes(g, c.toClient) + (Shapes(g, [c.pending[0]]) + Shapes(g, c.pending[1..]) + AllOwed(g, c.toServer));
      Due(g, c);
    }
  }

  lemma SendDue(g: Setting, c: Connection, fs: seq<Request>)
    ensures Due(g, Send(c, fs)) == if c.server.Closed? then Due(g, c) else Due(g, c) + AllOwed(g, fs)
  {
    if c.server.Closed? {
      assert Due(g, Send(c, fs)) == Shapes(g, c.toClient) + [];
    } else {
      AllOwedAppend(g, c.toServer, fs);
      Reassociate(Shapes(g, c.toClient), Shapes(g, c.pending), AllOwed(g, c.toServer), AllOwed(g, fs));
    }
  }

  lemma Reassociate(a: seq<Shape>, b: seq<Shape>, c: seq<Shape>, d: seq<Shape>)
    ensures a + (b + (c + d)) == a + (b + c) + d
  {
  }

  lemma SendHello(c: Connection, fs: seq<Request>)
    requires c.toServer != [] && NoHello(c.toServer[1..]) && NoHello(fs)
    ensures Send(c, fs).toServer[0] == c.toServer[0] && NoHello(Send(c, fs).toServer[1..])
  {
    assert Send(c, fs).toServer[1..] == c.toServer[1..] + fs;
  }

  lemma SendOk(g: Setting, c: Connection, fs: seq<Request>, expected: seq<Shape>)
    requires ConnectionOk(g, c, expected) && NoHello(fs)
    ensures ConnectionOk(g, Send(c, fs), expected + AllOwed(g, fs))
  {
    SendDue(g, c, fs);
    if c.server.AwaitingHello? {
      SendHello(c, fs);
    }
  }

  lemma ReceiveOk(g: Setting, c: Connection, expected: seq<Shape>)
    requires ConnectionOk(g, c, expected) && c.toClient != []
    ensures expected != [] && ShapeOf(g, c.toClient[0]) == expected[0]
    ensures ConnectionOk(g, Receive(c), expected[1..])
  {
    var more := if c.server.Closed? then [] else Shapes(g, c.pending) + AllOwed(g, c.toServer);
    assert Due(g, c) == [ShapeOf(g, c.toClient[0])] + (Shapes(g, c.toClient[1..]) + more);
    assert Due(g, c)[1..] == Due(g, Receive(c));
  }

  /** Serving a frame turns what was owed for it into what is pending. */
  lemma ServeOk(g: Setting, c: Connection, outcome: Outcome, expected: seq<Shape>)
    requires ConnectionOk(g, c, expected) && !c.server.Closed? && c.pending == [] && c.toServer != []
    ensures ConnectionOk(g, Serve(g, c, outcome), expected)
  {
    var c' := Serve(g, c, outcome);
    var f := c.toServer[0];
    if c'.server.Closed? {
      assert Due(g, c') == Shapes(g, c.toClient) + [];
    } else {
      PendingIsOwed(g, c, outcome);
      assert Due(g, c) == Shapes(g, c.toClient) + (Shapes(g, []) + (Owed(g, f) + AllOwed(g, c.toServer[1..])));
      assert Due(g, c') == Shapes(g, c.toClient) + (Owed(g, f) + AllOwed(g, c.toServer[1..]));
    }
  }

  lemma PendingIsOwed(g: Setting, c: Connection, outcome: Outcome)
    requires !c.server.Closed? && c.pending == [] && c.toServer != []
    requires c.server.Serving? ==> !c.toServer[0].Hello?
    requires !Serve(g, c, outcome).server.Closed?
    ensures Shapes(g, Serve(g, c, outcome).pending) == Owed(g, c.toServer[0])
    ensures Serve(g, c, outcome).toClient == c.toClient && Serve(g, c, outcome).toServer == c.toServer[1..]
    ensures Serve(g, c, outcome).server == Serving
  {
    var f := c.toServer[0];
    match f
    case Hello(_) =>
      assert Shapes(g, [Snap]) == [SnapShape];
      assert [Snap, Snap][1..] == [Snap];
      assert Shapes(g, [Snap, Snap]) == [SnapShape, SnapShape];
      assert [Ack(g.serverVersion), Snap, Snap][1..] == [Snap, Snap];
    case Supervision(n, e) =>
      BrokerRepliesAreValid(g.hooked, g.node, outcome.ready, e, outcome.spawn, outcome.fails);
      var a := ApplySupervision(g.hooked, g.node, outcome.ready, e, outcome.spawn, outcome.fails);
      if a.Reply? { ReplyValidExactly(e, a.envelope); }
    case _ =>
  }

  /** What ends a connection on the server's side: a bad hello, a second one, or a frame that cannot be applied. */
  lemma ClosesExactly(g: Setting, c: Connection, outcome: Outcome)
    requires !c.server.Closed? && c.toServer != []
    ensures var f := c.toServer[0];
            Serve(g, c, outcome).server.Closed? <==>
            if c.server.AwaitingHello? then f != Hello(g.serverVersion)
            else
              || f.Hello?
              || ((f.Snapshot? || f.Control? || f.Actor?) && outcome.fails)
              || (f.Supervision? && ApplySupervision(
                    g.hooked, g.node, outcome.ready, f.envelope, outcome.spawn, outcome.fails).Failed?)
    ensures Serve(g, c, outcome).server.Closed? ==> Serve(g, c, outcome).pending == []
  {
  }

  // ----- the whole system -----

  function SerialOf(q: Request): nat {
    if q.Actor? || q.Supervision? then q.serial else 0
  }

  /** Requests get their replies in the order they were made, and none gets two. */
  ghost predicate LogOk(g: Setting, log: seq<Exchange>, bound: nat) {
    && (forall i :: 0 <= i < |log| ==> Answers(g, log[i].q, log[i].a) && SerialOf(log[i].q) < bound)
    && (forall i, j :: 0 <= i < j < |log| ==> SerialOf(log[i].q) < SerialOf(log[j].q))
  }

  ghost predicate Inv(g: Setting, s: System) {
    && (!s.stage.Unconnected? ==> s.conns != [] && ConnectionOk(g, Current(s), Expected(g, s.stage)))
    && (s.stage.Waiting? ==> TwoWayFrame(s.stage.q) && SerialOf(s.stage.q) < s.next)
    && LogOk(g, s.log, if s.stage.Waiting? then SerialOf(s.stage.q) else s.next)
    && s.mismatches == 0
  }

  /** A frame of the expected shape passes the check. */
  lemma ShapeAccepted(g: Setting, q: Request, a: Answer)
    requires TwoWayFrame(q) && Owed(g, q) != [] && ShapeOf(g, a) == Owed(g, q)[0]
    ensures Answers(g, q, a) && Owed(g, q)[1..] == []
  {
    if q.Supervision? && a.SupervisionReply? {
      ReplyValidExactly(q.envelope, a.envelope);
    }
  }

  lemma ServerKeepsInv(g: Setting, s: System, m: Move)
    requires Inv(g, s) && Enabled(s, m) && (m.ServerReads? || m.ServerWrites? || m.ServerCloses?)
    ensures Inv(g, Step(g, s, m))
  {
    if !s.stage.Unconnected? && m.i == |s.conns| - 1 {
      var expected := Expected(g, s.stage);
      match m
      case ServerReads(i, outcome) => ServeOk(g, s.conns[i], outcome, expected);
      case ServerWrites(i) => WriteOk(g, s.conns[i], expected);
      case ServerCloses(i) => CloseOk(g, s.conns[i], expected);
    }
  }

  lemma SnapshotsOweNothing(g: Setting)
    ensures AllOwed(g, [Snapshot, Snapshot]) == [] && NoHello([Snapshot, Snapshot])
  {
    assert [Snapshot, Snapshot][1..] == [Snapshot];
    assert AllOwed(g, [Snapshot]) == [];
  }

  lemma ReadAckKeepsInv(g: Setting, s: System)
    requires Inv(g, s) && Enabled(s, ReadAck)
    ensures Inv(g, Step(g, s, ReadAck))
  {
    var c := Current(s);
    ReceiveOk(g, c, Expected(g, s.stage));
    assert Expected(g, s.stage)[1..] == [SnapShape, SnapShape];
    SnapshotsOweNothing(g);
    SendOk(g, Receive(c), [Snapshot, Snapshot], [SnapShape, SnapShape]);
    assert [SnapShape, SnapShape] + [] == [SnapShape, SnapShape];
  }

  lemma ReadSnapKeepsInv(g: Setting, s: System)
    requires Inv(g, s) && Enabled(s, ReadSnap)
    ensures Inv(g, Step(g, s, ReadSnap))
  {
    ReceiveOk(g, Current(s), Expected(g, s.stage));
    assert Expected(g, s.stage)[1..] == Expected(g, Step(g, s, ReadSnap).stage);
  }

  lemma LogGrows(g: Setting, log: seq<Exchange>, q: Request, a: Answer, bound: nat)
    requires LogOk(g, log, SerialOf(q)) && Answers(g, q, a) && SerialOf(q) < bound
    ensures LogOk(g, log + [Exchange(q, a)], bound)
  {
  }

  lemma ReadReplyKeepsInv(g: Setting, s: System)
    requires Inv(g, s) && Enabled(s, ReadReply)
    ensures Inv(g, Step(g, s, ReadReply))
  {
    var a := Current(s).toClient[0];
    ReceiveOk(g, Current(s), Expected(g, s.stage));
    ShapeAccepted(g, s.stage.q, a);
    LogGrows(g, s.log, s.stage.q, a, s.next);
  }

  lemma SendOneOk(g: Setting, c: Connection, f: Request)
    requires ConnectionOk(g, c, []) && !f.Hello?
    ensures ConnectionOk(g, Send(c, [f]), Owed(g, f))
  {
    SendOk(g, c, [f], []);
    assert AllOwed(g, [f]) == Owed(g, f);
    assert [] + Owed(g, f) == Owed(g, f);
  }

  lemma FireKeepsInv(g: Setting, s: System, f: Request)
    requires Inv(g, s) && Enabled(s, Fire(f))
    ensures Inv(g, Step(g, s, Fire(f)))
  {
    SendOneOk(g, Current(s), f);
  }

  lemma AskKeepsInv(g: Setting, s: System, q: Request)
    requires Inv(g, s) && Enabled(s, Ask(q))
    ensures Inv(g, Step(g, s, Ask(q)))
  {
    SendOneOk(g, Current(s), q);
  }

  lemma StepKeepsInv(g: Setting, s: System, m: Move)
    requires Inv(g, s) && Enabled(s, m)
    ensures Inv(g, Step(g, s, m))
  {
    match m
    case Connect =>
      var hello := [Hello(g.clientVersion)];
      assert AllOwed(g, hello) == Owed(g, hello[0]);
      assert Due(g, Connection(hello, [], [], AwaitingHello)) == Owed(g, hello[0]);
    case GiveUp =>
    case Fire(f) => FireKeepsInv(g, s, f);
    case Ask(q) => AskKeepsInv(g, s, q);
    case ReadAck => ReadAckKeepsInv(g, s);
    case ReadSnap => ReadSnapKeepsInv(g, s);
    case ReadReply => ReadReplyKeepsInv(g, s);
    case _ => ServerKeepsInv(g, s, m);
  }

  lemma {:induction false} RunKeepsInv(g: Setting, s: System, moves: seq<Move>)
    requires Inv(g, s) && Possible(g, s, moves)
    ensures Inv(g, After(g, s, moves))
    decreases |moves|
  {
    if moves != [] {
      StepKeepsInv(g, s, moves[0]);
      RunKeepsInv(g, Step(g, s, moves[0]), moves[1..]);
    }
  }

  /**
   Every run, whatever connections were lost on the way. No reply ever failed its check, and
   every reply taken is the server's answer to the request that was waiting for it, whatever
   correlation ids were used. Nothing is on its way to a client that is not waiting; to one
   that is, at most the one answer.
   */
  lemma RepliesMatchRequests(g: Setting, moves: seq<Move>)
    requires Possible(g, Start(), moves)
    ensures var s := After(g, Start(), moves);
            && s.mismatches == 0
            && LogOk(g, s.log, s.next)
            && (s.stage.Ready? ==> s.conns != [] && Due(g, Current(s)) == [])
            && (s.stage.Waiting? ==> s.conns != [] && |Due(g, Current(s))| <= 1)
            && (s.stage.Waiting? && Readable(s) ==> Answers(g, s.stage.q, Current(s).toClient[0]))
  {
    RunKeepsInv(g, Start(), moves);
    var s := After(g, Start(), moves);
    if s.stage.Waiting? && Readable(s) {
      ReceiveOk(g, Current(s), Expected(g, s.stage));
      ShapeAccepted(g, s.stage.q, Current(s).toClient[0]);
    }
  }

  // ----- versions -----

  ghost predicate ConnectionVersions(g: Setting, c: Connection) {
    && (c.server.Serving? ==> g.clientVersion == g.serverVersion)
    && (forall f :: f in c.toServer && f.Hello? ==> f.version == g.clientVersion)
    && (forall a :: a in c.pending && a.Ack? ==> a.version == g.serverVersion)
    && (forall a :: a in c.toClient && a.Ack? ==> a.version == g.serverVersion)
  }

  ghost predicate Versions(g: Setting, s: System) {
    && (forall i :: 0 <= i < |s.conns| ==> ConnectionVersions(g, s.conns[i]))
    && (!s.stage.Unconnected? && !s.stage.AfterHello? ==> g.clientVersion == g.serverVersion)
    && (s.log != [] ==> g.clientVersion == g.serverVersion)
  }

  lemma ServeVersions(g: Setting, c: Connection, outcome: Outcome)
    requires ConnectionVersions(g, c) && c.toServer != []
    ensures ConnectionVersions(g, Serve(g, c, outcome))
  {
    assert c.toServer[0] in c.toServer;
  }

  lemma StepVersions(g: Setting, s: System, m: Move)
    requires Versions(g, s) && Enabled(s, m)
    ensures Versions(g, Step(g, s, m))
  {
    var s' := Step(g, s, m);
    if m.ServerReads? {
      ServeVersions(g, s.conns[m.i], m.outcome);
    } else if m.ReadAck? || m.ReadSnap? || m.ReadReply? {
      assert ConnectionVersions(g, Current(s));
      assert Current(s).toClient[0] in Current(s).toClient;
    }
    forall i | 0 <= i < |s'.conns| ensures ConnectionVersions(g, s'.conns[i]) {
      assert i < |s.conns| ==> ConnectionVersions(g, s.conns[i]);
    }
  }

  lemma {:induction false} RunVersions(g: Setting, s: System, moves: seq<Move>)
    requires Versions(g, s) && Possible(g, s, moves)
    ensures Versions(g, After(g, s, moves))
    decreases |moves|
  {
    if moves != [] {
      StepVersions(g, s, moves[0]);
      RunVersions(g, Step(g, s, moves[0]), moves[1..]);
    }
  }

  /** Nobody serves, and no request is made or answered, between different protocol versions. */
  lemma EqualVersionsOnly(g: Setting, moves: seq<Move>)
    requires Possible(g, Start(), moves) && g.clientVersion != g.serverVersion
    ensures var s := After(g, Start(), moves);
            && s.log == [] && !s.stage.Ready? && !s.stage.Waiting?
            && forall i :: 0 <= i < |s.conns| ==> !s.conns[i].server.Serving?
  {
    RunVersions(g, Start(), moves);
    var s := After(g, Start(), moves);
    forall i | 0 <= i < |s.conns| ensures !s.conns[i].server.Serving? {
      assert ConnectionVersions(g, s.conns[i]);
    }
  }

  // ----- frames arrive in order -----

  /** Without the frames that set up a connection. */
  function Work(fs: seq<Request>): seq<Request> {
    if fs == [] then []
    else (if fs[0].Hello? || fs[0].Snapshot? then [] else [fs[0]]) + Work(fs[1..])
  }

  lemma {:induction false} WorkAppend(a: seq<Request>, b: seq<Request>)
    ensures Work(a + b) == Work(a) + Work(b)
    decreases |a|
  {
    if a == [] {
      assert a + b == b;
    } else {
      assert (a + b)[1..] == a[1..] + b;
      WorkAppend(a[1..], b);
    }
  }

  /** The frames that one move of the client hands to connection `i`, which is the current one. */
  function Handed(s: System, m: Move, i: nat): seq<Request> {
    if i + 1 != |s.conns| then []
    else if m.Fire? then [m.f]
    else if m.Ask? then [m.q]
    else []
  }

  /** The frame that one move of server `i` reads. */
  function Taken(s: System, m: Move, i: nat): seq<Request>
    requires Enabled(s, m)
  {
    if m.ServerReads? && m.i == i then [s.conns[i].toServer[0]] else []
  }

  /** Everything the client hands to connection `i` during a run. */
  ghost function AllHanded(g: Setting, s: System, moves: seq<Move>, i: nat): seq<Request>
    requires Possible(g, s, moves)
    decreases |moves|
  {
    if moves == [] then [] else Handed(s, moves[0], i) + AllHanded(g, Step(g, s, moves[0]), moves[1..], i)
  }

  /** Everything server `i` reads during a run. */
  ghost function AllTaken(g: Setting, s: System, moves: seq<Move>, i: nat): seq<Request>
    requires Possible(g, s, moves)
    decreases |moves|
  {
    if moves == [] then [] else Taken(s, moves[0], i) + AllTaken(g, Step(g, s, moves[0]), moves[1..], i)
  }

  function OnItsWay(s: System, i: nat): seq<Request> {
    if i < |s.conns| then s.conns[i].toServer else []
  }

  lemma ServeTakes(g: Setting, c: Connection, outcome: Outcome)
    requires c.toServer != []
    ensures Serve(g, c, outcome).toServer == c.toServer[1..]
  {
  }

  lemma ReadConserves(g: Setting, s: System, m: Move)
    requires Enabled(s, m) && m.ServerReads?
    ensures Work([s.conns[m.i].toServer[0]]) + Work(Step(g, s, m).conns[m.i].toServer) == Work(s.conns[m.i].toServer)
  {
    var frames := s.conns[m.i].toServer;
    ServeTakes(g, s.conns[m.i], m.outcome);
    assert frames == [frames[0]] + frames[1..];
    WorkAppend([frames[0]], frames[1..]);
  }

  lemma SendConserves(c: Connection, fs: seq<Request>)
    ensures Work(Send(c, fs).toServer) == Work(c.toServer) + Work(fs)
  {
    WorkAppend(c.toServer, fs);
  }

  lemma SetupIsNoWork(version: nat)
    ensures Work([Hello(version)]) == [] && Work([Snapshot, Snapshot]) == []
  {
    assert [Snapshot, Snapshot][1..] == [Snapshot] && Work([Snapshot]) == [];
  }

  lemma StepConserves(g: Setting, s: System, m: Move, i: nat)
    requires Enabled(s, m)
    ensures Work(Taken(s, m, i)) + Work(OnItsWay(Step(g, s, m), i)) == Work(OnItsWay(s, i)) + Work(Handed(s, m, i))
  {
    SetupIsNoWork(g.clientVersion);
    if m.ServerReads? && m.i == i {
      ReadConserves(g, s, m);
    } else if (m.Fire? || m.Ask?) && i + 1 == |s.conns| {
      SendConserves(Current(s), Handed(s, m, i));
    } else if m.ReadAck? && i + 1 == |s.conns| {
      SendConserves(Receive(Current(s)), [Snapshot, Snapshot]);
    } else if !(m.Connect? && i == |s.conns|) {
      assert OnItsWay(Step(g, s, m), i) == OnItsWay(s, i);
    }
  }

  lemma Chained(t1: seq<Request>, t2: seq<Request>, a: seq<Request>, b: seq<Request>, c: seq<Request>,
                h1: seq<Request>, h2: seq<Request>)
    requires t1 + b == a + h1 && t2 + c == b + h2
    ensures t1 + t2 + c == a + (h1 + h2)
  {
    calc {
      t1 + t2 + c;
      t1 + (t2 + c);
      t1 + b + h2;
      a + (h1 + h2);
    }
  }

  lemma {:induction false} RunConserves(g: Setting, s: System, moves: seq<Move>, i: nat)
    requires Possible(g, s, moves)
    ensures Work(AllTaken(g, s, moves, i)) + Work(OnItsWay(After(g, s, moves), i)) ==
            Work(OnItsWay(s, i)) + Work(AllHanded(g, s, moves, i))
    decreases |moves|
  {
    if moves != [] {
      var s1 := Step(g, s, moves[0]);
      StepConserves(g, s, moves[0], i);
      RunConserves(g, s1, moves[1..], i);
      WorkAppend(Taken(s, moves[0], i), AllTaken(g, s1, moves[1..], i));
      WorkAppend(Handed(s, moves[0], i), AllHanded(g, s1, moves[1..], i));
      Chained(Work(Taken(s, moves[0], i)), Work(AllTaken(g, s1, moves[1..], i)), Work(OnItsWay(s, i)),
              Work(OnItsWay(s1, i)), Work(OnItsWay(After(g, s1, moves[1..]), i)),
              Work(Handed(s, moves[0], i)), Work(AllHanded(g, s1, moves[1..], i)));
    }
  }

  /**
   On every connection of every run the server reads the client's messages in the order the
   client sent them, without loss or repetition: what it has read, followed by what is on
   its way, is what was sent.
   */
  lemma FramesArriveInOrder(g: Setting, moves: seq<Move>, i: nat)
    requires Possible(g, Start(), moves)
    ensures Work(AllTaken(g, Start(), moves, i)) + Work(OnItsWay(After(g, Start(), moves), i)) ==
            Work(AllHanded(g, Start(), moves, i))
  {
    RunConserves(g, Start(), moves, i);
  }
}
