/**
 The priority receive of an actor mailbox (concurrency/src/mailbox.rs:153-219 and 279-336),
 one channel access per step.

 Four channels, most urgent first: operating-system signals, stop, supervision, user
 messages. Any number of senders may send or go away between two accesses of the receiver.
 The two runtimes share the polling pass and differ in how they wait when it finds nothing.
 */
module MailboxReceive {

  type Payload = nat

  datatype Runtime = Tasks | Threads

  /** `sent` is everything ever sent; `open` says a sender is left; `closed` is the receiver's flag. */
  datatype Channel = Channel(sent: seq<Payload>, queue: seq<Payload>, open: bool, closed: bool)

  datatype Delivery = Delivery(cls: nat, item: Payload)

  datatype Outcome = NotYet | Item(cls: nat) | Nothing | Panicked

  /** Where the receiver is between two steps. */
  datatype Place = Outside | Head | Trying(c: nat) | Selecting(c: nat)

  /**
   `log` holds what calls have returned, `waiting` which channels held something when the
   latest call began, `outcome` what that call has come to.
   */
  datatype Mailbox = Mailbox(
    channels: seq<Channel>, place: Place, log: seq<Delivery>, waiting: seq<bool>, outcome: Outcome)

  datatype Move =
    | Call                        // the actor loop calls recv
    | Advance                     // the receiver takes its next step
    | Pick(c: nat)                // threads: the waiting select settles on a ready channel
    | Send(c: nat, item: Payload)
    | Hangup(c: nat)              // the last sender of a channel goes away

  function Start(): Mailbox {
    var empty := Channel([], [], true, false);
    Mailbox([empty, empty, empty, empty], Outside, [], [false, false, false, false], NotYet)
  }

  predicate Enabled(rt: Runtime, m: Mailbox, move: Move)
    requires |m.channels| == 4
  {
    match move
    case Call => m.place.Outside? && !m.outcome.Panicked?
    case Advance => !m.place.Outside? && (m.place.Selecting? ==> rt.Tasks?)
    case Pick(c) => rt.Threads? && m.place.Selecting? && c < 4 && (m.channels[c].queue != [] || !m.channels[c].open)
    case Send(c, _) => c < 4 && m.channels[c].open
    case Hangup(c) => c < 4 && m.channels[c].open
  }

  predicate AllClosed(m: Mailbox)
    requires |m.channels| == 4
  {
    m.channels[0].closed && m.channels[1].closed && m.channels[2].closed && m.channels[3].closed
  }

  /** The head of channel `c` becomes the call's result. */
  function Deliver(m: Mailbox, c: nat): Mailbox
    requires c < |m.channels| && m.channels[c].queue != []
  {
    var ch := m.channels[c];
    m.(channels := m.channels[c := ch.(queue := ch.queue[1..])],
       log := m.log + [Delivery(c, ch.queue[0])],
       place := Outside,
       outcome := Item(c))
  }

  function MarkClosed(m: Mailbox, c: nat, next: Place): Mailbox
    requires c < |m.channels|
  {
    m.(channels := m.channels[c := m.channels[c].(closed := true)], place := next)
  }

  /** Looks at channel `c`: skips, delivers, notices that it is finished, or passes on. */
  function Look(m: Mailbox, c: nat, next: Place, onClosed: Place): Mailbox
    requires c < |m.channels|
  {
    var ch := m.channels[c];
    if ch.closed then m.(place := next)
    else if ch.queue != [] then Deliver(m, c)
    else if !ch.open then MarkClosed(m, c, onClosed)
    else m.(place := next)
  }

  function Advance1(rt: Runtime, m: Mailbox): Mailbox
    requires |m.channels| == 4
  {
    match m.place
    case Outside => m
    case Head => if AllClosed(m) then m.(place := Outside, outcome := Nothing) else m.(place := Trying(0))
    case Trying(c) => if c < 4 then Look(m, c, Trying(c + 1), Trying(c + 1)) else m.(place := Selecting(0))
    case Selecting(c) =>
      // the tasks select polls its enabled branches in order, and panics if there is none
      if c == 0 && AllClosed(m) then m.(place := Outside, outcome := Panicked)
      else if c < 4 then Look(m, c, Selecting(c + 1), Head)
      else m.(place := Selecting(0))
  }

  function Step(rt: Runtime, m: Mailbox, move: Move): Mailbox
    requires |m.channels| == 4 && Enabled(rt, m, move)
  {
    match move
    case Call =>
      m.(place := Head, outcome := NotYet,
         waiting := [m.channels[0].queue != [], m.channels[1].queue != [],
                     m.channels[2].queue != [], m.channels[3].queue != []])
    case Advance => Advance1(rt, m)
    case Pick(c) => if m.channels[c].queue != [] then Deliver(m, c) else MarkClosed(m, c, Head)
    case Send(c, item) =>
      var ch := m.channels[c];
      m.(channels := m.channels[c := ch.(sent := ch.sent + [item], queue := ch.queue + [item])])
    case Hangup(c) => m.(channels := m.channels[c := m.channels[c].(open := false)])
  }

  ghost predicate Possible(rt: Runtime, m: Mailbox, moves: seq<Move>)
    decreases |moves|
  {
    |m.channels| == 4 &&
    (moves == [] || (Enabled(rt, m, moves[0]) && Possible(rt, Step(rt, m, moves[0]), moves[1..])))
  }

  ghost function After(rt: Runtime, m: Mailbox, moves: seq<Move>): (r: Mailbox)
    requires Possible(rt, m, moves)
    ensures |r.channels| == 4
    decreases |moves|
  {
    if moves == [] then m else After(rt, Step(rt, m, moves[0]), moves[1..])
  }

  // ----- invariant -----

  /** What calls have returned from channel `c`, in order. */
  function OfClass(log: seq<Delivery>, c: nat): seq<Payload> {
    if log == [] then []
    else OfClass(log[..|log| - 1], c) + if log[|log| - 1].cls == c then [log[|log| - 1].item] else []
  }

  lemma OfClassAppend(log: seq<Delivery>, d: Delivery, c: nat)
    ensures OfClass(log + [d], c) == OfClass(log, c) + if d.cls == c then [d.item] else []
  {
    assert (log + [d])[..|log|] == log;
  }

  ghost predicate ChannelOk(m: Mailbox, c: nat)
    requires c < |m.channels|
  {
    var ch := m.channels[c];
    && ch.sent == OfClass(m.log, c) + ch.queue
    && (ch.closed ==> !ch.open && ch.queue == [])
  }

  /** A channel that held something at the call still does, and the receiver has not passed it. */
  ghost predicate WaitingOk(m: Mailbox, c: nat)
    requires c < |m.channels| && c < |m.waiting|
  {
    m.waiting[c] ==>
      match m.place
      case Outside => m.outcome.Item? ==> m.outcome.cls <= c
      case Head => m.channels[c].queue != []
      case Trying(k) => m.channels[c].queue != [] && k <= c
      case Selecting(_) => false
  }

  ghost predicate Inv(m: Mailbox) {
    && |m.channels| == 4 && |m.waiting| == 4
    && (forall c: nat :: c < 4 ==> ChannelOk(m, c))
    && (forall c: nat :: c < 4 ==> WaitingOk(m, c))
    && (m.outcome.Item? ==> m.outcome.cls < 4 && m.log != [] && m.log[|m.log| - 1].cls == m.outcome.cls)
    && (m.outcome.Nothing? || m.outcome.Panicked? ==> AllClosed(m) && m.place.Outside?)
    && (m.outcome.Item? ==> m.place.Outside?)
    && (m.outcome.NotYet? && m.place.Outside? ==> m.log == [])
  }

  lemma DeliverKeepsInv(m: Mailbox, c: nat)
    requires Inv(m) && !m.place.Outside? && c < 4 && m.channels[c].queue != []
    requires forall k: nat :: k < c ==> !m.waiting[k]
    ensures Inv(Deliver(m, c))
  {
    var m' := Deliver(m, c);
    assert ChannelOk(m, c);
    forall k: nat | k < 4 ensures ChannelOk(m', k) && WaitingOk(m', k) {
      assert ChannelOk(m, k) && WaitingOk(m, k);
      OfClassAppend(m.log, Delivery(c, m.channels[c].queue[0]), k);
    }
  }

  lemma MarkKeepsInv(m: Mailbox, c: nat, next: Place)
    requires Inv(m) && !m.place.Outside? && c < 4 && m.channels[c].queue == [] && !m.channels[c].open
    requires next == Head || (m.place == Trying(c) && next == Trying(c + 1))
    ensures Inv(MarkClosed(m, c, next))
  {
    var m' := MarkClosed(m, c, next);
    forall k: nat | k < 4 ensures ChannelOk(m', k) && WaitingOk(m', k) {
      assert ChannelOk(m, k) && WaitingOk(m, k);
    }
  }

  lemma LookKeepsInv(m: Mailbox, c: nat, next: Place, onClosed: Place)
    requires Inv(m) && c < 4
    requires (m.place == Trying(c) && next == onClosed == Trying(c + 1)) ||
             (m.place == Selecting(c) && next == Selecting(c + 1) && onClosed == Head)
    ensures Inv(Look(m, c, next, onClosed))
  {
    var ch := m.channels[c];
    if !ch.closed && ch.queue != [] {
      forall k: nat | k < c ensures !m.waiting[k] { assert WaitingOk(m, k); }
      DeliverKeepsInv(m, c);
    } else if !ch.closed && !ch.open {
      MarkKeepsInv(m, c, onClosed);
    } else {
      var m' := m.(place := next);
      assert ChannelOk(m, c) && WaitingOk(m, c);
      forall k: nat | k < 4 ensures ChannelOk(m', k) && WaitingOk(m', k) {
        assert ChannelOk(m, k) && WaitingOk(m, k);
      }
    }
  }

  lemma AdvanceKeepsInv(rt: Runtime, m: Mailbox)
    requires Inv(m) && !m.place.Outside?
    ensures Inv(Advance1(rt, m))
  {
    var m' := Advance1(rt, m);
    if m.place.Trying? && m.place.c < 4 {
      LookKeepsInv(m, m.place.c, Trying(m.place.c + 1), Trying(m.place.c + 1));
    } else if m.place.Selecting? && m.place.c < 4 && !(m.place.c == 0 && AllClosed(m)) {
      LookKeepsInv(m, m.place.c, Selecting(m.place.c + 1), Head);
    } else {
      forall k: nat | k < 4 ensures ChannelOk(m', k) && WaitingOk(m', k) {
        assert ChannelOk(m, k) && WaitingOk(m, k);
      }
    }
  }

  lemma SenderKeepsInv(rt: Runtime, m: Mailbox, move: Move)
    requires Inv(m) && Enabled(rt, m, move) && (move.Send? || move.Hangup?)
    ensures Inv(Step(rt, m, move))
  {
    var m' := Step(rt, m, move);
    assert ChannelOk(m, move.c);
    forall k: nat | k < 4 ensures ChannelOk(m', k) && WaitingOk(m', k) {
      assert ChannelOk(m, k) && WaitingOk(m, k);
    }
  }

  lemma StepKeepsInv(rt: Runtime, m: Mailbox, move: Move)
    requires Inv(m) && Enabled(rt, m, move)
    ensures Inv(Step(rt, m, move))
  {
    match move
    case Advance => AdvanceKeepsInv(rt, m);
    case Send(_, _) => SenderKeepsInv(rt, m, move);
    case Hangup(_) => SenderKeepsInv(rt, m, move);
    case Pick(c) =>
      forall k: nat | k < c ensures !m.waiting[k] { assert WaitingOk(m, k); }
      if m.channels[c].queue != [] { DeliverKeepsInv(m, c); } else { MarkKeepsInv(m, c, Head); }
    case Call =>
      var m' := Step(rt, m, move);
      forall k: nat | k < 4 ensures ChannelOk(m', k) && WaitingOk(m', k) {
        assert ChannelOk(m, k);
      }
  }

  lemma {:induction false} RunKeepsInv(rt: Runtime, m: Mailbox, moves: seq<Move>)
    requires Inv(m) && Possible(rt, m, moves)
    ensures Inv(After(rt, m, moves))
    decreases |moves|
  {
    if moves != [] {
      StepKeepsInv(rt, m, moves[0]);
      RunKeepsInv(rt, Step(rt, m, moves[0]), moves[1..]);
    }
  }

  // ----- what the senders did -----

  /** What a run sends to channel `c`, in order. */
  function Sendings(moves: seq<Move>, c: nat): seq<Payload> {
    if moves == [] then []
    else (if moves[0].Send? && moves[0].c == c then [moves[0].item] else []) + Sendings(moves[1..], c)
  }

  lemma StepSends(rt: Runtime, m: Mailbox, move: Move, c: nat)
    requires |m.channels| == 4 && Enabled(rt, m, move) && c < 4
    ensures var m' := Step(rt, m, move);
            && |m'.channels| == 4
            && m'.channels[c].sent ==
                 m.channels[c].sent + (if move.Send? && move.c == c then [move.item] else [])
            && (m'.channels[c].open <==> m.channels[c].open && move != Hangup(c))
  {
  }

  lemma {:induction false} RunSends(rt: Runtime, m: Mailbox, moves: seq<Move>, c: nat)
    requires Possible(rt, m, moves) && c < 4
    ensures var m' := After(rt, m, moves);
            && m'.channels[c].sent == m.channels[c].sent + Sendings(moves, c)
            && (m'.channels[c].open <==> m.channels[c].open && Hangup(c) !in moves)
    decreases |moves|
  {
    if moves != [] {
      StepSends(rt, m, moves[0], c);
      RunSends(rt, Step(rt, m, moves[0]), moves[1..], c);
    }
  }

  // ----- main results -----

  /** Each clause is about the latest call: what it may have returned, and when it may be waiting. */
  ghost predicate Sound(m: Mailbox)
    requires |m.channels| == 4
  {
    && (forall c: nat :: c < 4 ==> m.channels[c].sent == OfClass(m.log, c) + m.channels[c].queue)
    && |m.waiting| == 4
    && (m.outcome.Item? ==> m.outcome.cls < 4 && forall c: nat :: c < m.outcome.cls ==> !m.waiting[c])
    && (m.outcome.Nothing? ==>
          forall c: nat :: c < 4 ==> !m.channels[c].open && OfClass(m.log, c) == m.channels[c].sent)
    && (m.place.Selecting? ==> forall c: nat :: c < 4 ==> !m.waiting[c])
  }

  lemma InvIsSound(m: Mailbox)
    requires Inv(m)
    ensures Sound(m)
  {
    forall c: nat | c < 4
      ensures m.channels[c].sent == OfClass(m.log, c) + m.channels[c].queue
      ensures m.outcome.Nothing? ==> !m.channels[c].open && OfClass(m.log, c) == m.channels[c].sent
    {
      assert ChannelOk(m, c);
    }
    forall c: nat | c < 4
      ensures m.outcome.Item? && c < m.outcome.cls ==> !m.waiting[c]
      ensures m.place.Selecting? ==> !m.waiting[c]
    {
      assert WaitingOk(m, c);
    }
  }

  lemma StartInv()
    ensures Inv(Start())
  {
    var m := Start();
    forall c: nat | c < 4 ensures ChannelOk(m, c) && WaitingOk(m, c) {}
  }

  /**
   Every interleaving, either runtime. Per class, what calls returned, followed by what is
   queued, is what was sent, and a channel is open until its last sender goes. A returned
   item is of the most urgent class that held something when the call began, or of a more
   urgent one. `None` means that all four channels have lost their senders and everything
   sent has been returned. A call never waits if something was there when it began.
   */
  lemma PriorityReceive(rt: Runtime, moves: seq<Move>)
    requires Possible(rt, Start(), moves)
    ensures var m := After(rt, Start(), moves);
            && Sound(m)
            && forall c: nat :: c < 4 ==>
                 && OfClass(m.log, c) + m.channels[c].queue == Sendings(moves, c)
                 && (m.channels[c].open <==> Hangup(c) !in moves)
  {
    StartInv();
    RunKeepsInv(rt, Start(), moves);
    var m := After(rt, Start(), moves);
    InvIsSound(m);
    forall c: nat | c < 4
      ensures OfClass(m.log, c) + m.channels[c].queue == Sendings(moves, c)
      ensures m.channels[c].open <==> Hangup(c) !in moves
    {
      RunSends(rt, Start(), moves, c);
    }
  }

  /** While one channel keeps a sender, a receive neither gives up nor panics. */
  lemma NeverFailsWhileReachable(rt: Runtime, moves: seq<Move>, c: nat)
    requires c < 4 && Possible(rt, Start(), moves) && After(rt, Start(), moves).channels[c].open
    ensures !After(rt, Start(), moves).outcome.Nothing? && !After(rt, Start(), moves).outcome.Panicked?
  {
    StartInv();
    RunKeepsInv(rt, Start(), moves);
    assert ChannelOk(After(rt, Start(), moves), c);
  }

  // ----- a mailbox everybody has left -----

  predicate Abandoned(m: Mailbox)
    requires |m.channels| == 4
  {
    && m.channels[0].queue == [] && !m.channels[0].open && m.channels[1].queue == [] && !m.channels[1].open
    && m.channels[2].queue == [] && !m.channels[2].open && m.channels[3].queue == [] && !m.channels[3].open
  }

  /** The receiver's own steps, `n` of them. */
  function Advances(rt: Runtime, m: Mailbox, n: nat): (r: Mailbox)
    requires |m.channels| == 4
    ensures |r.channels| == 4
    decreases n
  {
    if n == 0 then m else Advances(rt, Advance1(rt, m), n - 1)
  }

  /** The polling pass over an abandoned mailbox ends with every flag set. */
  lemma {:induction false} PassClosesAll(m: Mailbox, c: nat)
    requires |m.channels| == 4 && Abandoned(m) && c <= 4 && m.place == Trying(c)
    requires forall k: nat :: k < c ==> m.channels[k].closed
    ensures var r := Advances(Tasks, m, 5 - c); r.place == Selecting(0) && AllClosed(r)
    decreases 4 - c
  {
    if c < 4 {
      PassClosesAll(Advance1(Tasks, m), c + 1);
    } else {
      assert Advances(Tasks, m, 1) == Advances(Tasks, Advance1(Tasks, m), 0);
    }
  }

  /**
   On the tasks runtime a call on an abandoned mailbox returns `None` exactly when earlier
   calls had already noticed that all four channels are finished. Otherwise its first pass
   sets the missing flags, leaves the select no branch to wait on, and panics.
   */
  lemma AbandonedTasksReceive(m: Mailbox)
    requires |m.channels| == 4 && Abandoned(m) && m.place.Outside? && !m.outcome.Panicked?
    ensures var called := Step(Tasks, m, Call);
            var r := Advances(Tasks, called, if AllClosed(m) then 1 else 7);
            r.place.Outside? && r.outcome == if AllClosed(m) then Nothing else Panicked
  {
    var called := Step(Tasks, m, Call);
    if AllClosed(m) {
      assert Advances(Tasks, called, 1) == Advances(Tasks, Advance1(Tasks, called), 0);
    } else {
      var trying := Advance1(Tasks, called);
      PassClosesAll(trying, 0);
      AdvancesSplit(Tasks, trying, 5, 1);
      var r := Advances(Tasks, trying, 5);
      assert Advances(Tasks, r, 1) == Advances(Tasks, Advance1(Tasks, r), 0);
    }
  }

  lemma {:induction false} AdvancesSplit(rt: Runtime, m: Mailbox, a: nat, b: nat)
    requires |m.channels| == 4
    ensures Advances(rt, m, a + b) == Advances(rt, Advances(rt, m, a), b)
    decreases a
  {
    if a > 0 {
      AdvancesSplit(rt, Advance1(rt, m), a - 1, b);
    }
  }

  // ----- what is queued is returned -----

  function Unflagged(ch: Channel): nat {
    if ch.closed then 0 else 1
  }

  /** How many more channels the receiver can notice as finished. */
  function Noticeable(m: Mailbox): nat
    requires |m.channels| == 4
  {
    Unflagged(m.channels[0]) + Unflagged(m.channels[1]) + Unflagged(m.channels[2]) + Unflagged(m.channels[3])
  }

  /** The steps a pass takes at most to come to channel `c`, if no channel is noticed as finished. */
  function Distance(p: Place, c: nat): nat
    requires c < 4
  {
    match p
    case Outside => 0
    case Trying(k) => if k <= c then c + 1 - k else if k <= 4 then 18 - k else 14
    case Head => c + 2
    case Selecting(k) => if k <= c then 6 + c - k else if k <= 4 then 14 - k else 10
  }

  function StepsLeft(m: Mailbox, c: nat): nat
    requires |m.channels| == 4 && c < 4
  {
    30 * Noticeable(m) + Distance(m.place, c)
  }

  predicate OwnStep(move: Move) {
    move.Advance? || move.Pick?
  }

  function OwnSteps(moves: seq<Move>): nat {
    if moves == [] then 0 else OwnSteps(moves[1..]) + if OwnStep(moves[0]) then 1 else 0
  }

  /** In a call, with something in channel `c`. */
  ghost predicate Served(m: Mailbox, c: nat) {
    Inv(m) && c < 4 && !m.place.Outside? && m.channels[c].queue != []
  }

  predicate Returned(m: Mailbox) {
    m.place.Outside? && m.outcome.Item?
  }

  lemma MarkLowers(m: Mailbox, x: nat, next: Place, c: nat)
    requires |m.channels| == 4 && x < 4 && c < 4 && !m.channels[x].closed && !next.Outside?
    ensures StepsLeft(MarkClosed(m, x, next), c) < StepsLeft(m, c)
  {
    assert Noticeable(MarkClosed(m, x, next)) + 1 == Noticeable(m);
  }

  lemma OwnStepLowers(rt: Runtime, m: Mailbox, move: Move, c: nat)
    requires Served(m, c) && Enabled(rt, m, move) && OwnStep(move)
    ensures var m' := Step(rt, m, move);
            Returned(m') || (Served(m', c) && StepsLeft(m', c) < StepsLeft(m, c))
  {
    StepKeepsInv(rt, m, move);
    assert ChannelOk(m, c);
    var m' := Step(rt, m, move);
    if move.Pick? {
      if m.channels[move.c].queue == [] && !m.channels[move.c].closed {
        MarkLowers(m, move.c, Head, c);
      } else if m.channels[move.c].queue == [] {
        assert m'.channels == m.channels;
      }
    } else if !m.place.Head? && m.place.c < 4 {
      var ch := m.channels[m.place.c];
      if !ch.closed && ch.queue == [] && !ch.open {
        MarkLowers(m, m.place.c, m'.place, c);
      }
    }
  }

  lemma SenderKeepsServed(rt: Runtime, m: Mailbox, move: Move, c: nat)
    requires Served(m, c) && Enabled(rt, m, move) && (move.Send? || move.Hangup?)
    ensures var m' := Step(rt, m, move);
            Served(m', c) && StepsLeft(m', c) == StepsLeft(m, c)
  {
    StepKeepsInv(rt, m, move);
  }

  lemma ReturnedStays(rt: Runtime, m: Mailbox, move: Move)
    requires Returned(m) && |m.channels| == 4 && Enabled(rt, m, move) && !move.Call?
    ensures Returned(Step(rt, m, move)) && !OwnStep(move)
  {
  }

  lemma {:induction false} StaysReturned(rt: Runtime, m: Mailbox, moves: seq<Move>)
    requires Possible(rt, m, moves) && Call !in moves && Returned(m)
    ensures OwnSteps(moves) == 0 && Returned(After(rt, m, moves))
    decreases |moves|
  {
    if moves != [] {
      ReturnedStays(rt, m, moves[0]);
      StaysReturned(rt, Step(rt, m, moves[0]), moves[1..]);
    }
  }

  lemma {:induction false} StepsRunOut(rt: Runtime, m: Mailbox, moves: seq<Move>, c: nat)
    requires Served(m, c) && Possible(rt, m, moves) && Call !in moves
    ensures OwnSteps(moves) <= StepsLeft(m, c)
    ensures Returned(After(rt, m, moves)) || Served(After(rt, m, moves), c)
    decreases |moves|
  {
    if moves != [] {
      var m1 := Step(rt, m, moves[0]);
      if OwnStep(moves[0]) {
        OwnStepLowers(rt, m, moves[0], c);
      } else {
        SenderKeepsServed(rt, m, moves[0], c);
      }
      if Returned(m1) {
        StaysReturned(rt, m1, moves[1..]);
      } else {
        StepsRunOut(rt, m1, moves[1..], c);
      }
    }
  }

  /**
   No starvation, on either runtime and whatever the senders do meanwhile: a call that finds
   something queued at any point of its way returns an item within a fixed number of
   its own steps, and until then it can always take one.
   */
  lemma QueuedIsReturned(rt: Runtime, moves: seq<Move>, more: seq<Move>, c: nat)
    requires Possible(rt, Start(), moves) && c < 4
    requires var m := After(rt, Start(), moves);
             !m.place.Outside? && m.channels[c].queue != [] && Possible(rt, m, more) && Call !in more
    ensures var m' := After(rt, After(rt, Start(), moves), more);
            && OwnSteps(more) <= 138
            && (Returned(m') || exists move: Move :: OwnStep(move) && Enabled(rt, m', move))
  {
    StartInv();
    RunKeepsInv(rt, Start(), moves);
    var m := After(rt, Start(), moves);
    StepsRunOut(rt, m, more, c);
    var m' := After(rt, m, more);
    if !Returned(m') {
      var move := if rt.Threads? && m'.place.Selecting? then Pick(c) else Advance;
      assert OwnStep(move) && Enabled(rt, m', move);
    }
  }
}
