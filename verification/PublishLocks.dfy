/**
 The two locks behind a process-group publication (concurrency/src/pg.rs:232-251, 278-301 and
 461-480, cluster/src/tcp/transport.rs:140-199, cluster/src/control.rs:43-110). A join or a
 last leave publishes while it holds the store's write lock, and publishing takes the
 connection lock. Whoever finds no connection makes one under that lock, and on the way reads
 the store for a snapshot and writes the members the peer sends into it. The store's lock
 is not reentrant.

 Threads take these locks in any interleaving. A publication can come to its end if and only
 if the connection exists, or cannot be made, or the thread that is making it has its
 business with the store behind it. In every other case its thread waits for ever, and with
 it everybody who needs the store or the connection.
 */
module PublishLocks {
  import opened Reasons

  datatype Place =
    | Idle
    | HoldsStore            // a publisher, about to take the connection lock
    | HasConn               // about to look for the connection
    | Snapshotting          // connected to the peer, about to read the store
    | Reading               // holds the read lock
    | Applying(left: nat)   // members from the peer still to be written into the store
    | Using                 // about to write its frame
    | Unlocking
    | Done

  /** Publishers hold the store; others (sends, requests, farewells) do not. */
  datatype Thread = Thread(publisher: bool, place: Place)

  datatype State = State(
    writer: Option<nat>, readers: set<nat>, conn: Option<nat>, connected: bool, threads: seq<Thread>)

  /** Whether the peer answers, and how many members its snapshot has. */
  datatype Peer = Peer(reachable: bool, members: nat)

  /** A thread takes its next step; `fails` is about the frame it writes. */
  datatype Move = Advance(t: nat, fails: bool)

  predicate Enabled(s: State, m: Move) {
    m.t < |s.threads| &&
    var th := s.threads[m.t];
    match th.place
    case Idle => if th.publisher then s.writer.None? && s.readers == {} else s.conn.None?
    case HoldsStore => s.conn.None?
    case Snapshotting => s.writer.None?
    case Applying(left) => left > 0 ==> s.writer.None? && s.readers == {}
    case Done => false
    case _ => true
  }

  function At(s: State, t: nat, place: Place): State
    requires t < |s.threads|
  {
    s.(threads := s.threads[t := s.threads[t].(place := place)])
  }

  function Step(peer: Peer, s: State, m: Move): State
    requires Enabled(s, m)
  {
    var t := m.t;
    var th := s.threads[t];
    match th.place
    case Idle =>
      if th.publisher then At(s.(writer := Some(t)), t, HoldsStore) else At(s.(conn := Some(t)), t, HasConn)
    case HoldsStore => At(s.(conn := Some(t)), t, HasConn)
    case HasConn => At(s, t, if s.connected then Using else if peer.reachable then Snapshotting else Unlocking)
    case Snapshotting => At(s.(readers := s.readers + {t}), t, Reading)
    case Reading => At(s.(readers := s.readers - {t}), t, Applying(peer.members))
    case Applying(left) => if left > 0 then At(s, t, Applying(left - 1)) else At(s.(connected := true), t, Using)
    case Using => At(s.(connected := !m.fails), t, Unlocking)
    case Unlocking => At(s.(conn := None, writer := if th.publisher then None else s.writer), t, Done)
    case Done => s
  }

  /** A run as the states it goes through. */
  ghost predicate Follows(peer: Peer, states: seq<State>, moves: seq<Move>, k: nat)
    requires k < |moves| && |states| == |moves| + 1
  {
    Enabled(states[k], moves[k]) && states[k + 1] == Step(peer, states[k], moves[k])
  }

  ghost predicate Run(peer: Peer, states: seq<State>, moves: seq<Move>) {
    |states| == |moves| + 1 && forall k: nat :: k < |moves| ==> Follows(peer, states, moves, k)
  }

  // ----- who holds what -----

  predicate UnderConn(p: Place) {
    p.HasConn? || p.Snapshotting? || p.Reading? || p.Applying? || p.Using? || p.Unlocking?
  }

  ghost predicate ThreadOk(peer: Peer, s: State, t: nat)
    requires t < |s.threads|
  {
    var th := s.threads[t];
    && (UnderConn(th.place) <==> s.conn == Some(t))
    && (th.publisher && (th.place.HoldsStore? || UnderConn(th.place)) <==> s.writer == Some(t))
    && (th.place.HoldsStore? ==> th.publisher)
    && (th.place.Reading? <==> t in s.readers)
    && (th.place.Snapshotting? || th.place.Reading? || th.place.Applying? ==> !s.connected && peer.reachable)
    && (th.place.Reading? || th.place.Applying? ==> !th.publisher)
    && (th.place.Using? ==> s.connected)
  }

  ghost predicate Inv(peer: Peer, s: State) {
    && (s.writer.Some? ==> s.writer.value < |s.threads| && s.readers == {})
    && (s.conn.Some? ==> s.conn.value < |s.threads|)
    && (forall t :: t in s.readers ==> t < |s.threads|)
    && forall t: nat :: t < |s.threads| ==> ThreadOk(peer, s, t)
  }

  lemma StepKeepsInv(peer: Peer, s: State, m: Move)
    requires Inv(peer, s) && Enabled(s, m)
    ensures Inv(peer, Step(peer, s, m))
  {
    var s' := Step(peer, s, m);
    assert ThreadOk(peer, s, m.t);
    forall t: nat | t < |s'.threads| ensures ThreadOk(peer, s', t) {
      assert ThreadOk(peer, s, t);
    }
  }

  lemma StartInv(peer: Peer, s: State)
    requires s.writer.None? && s.readers == {} && s.conn.None?
    requires forall t: nat :: t < |s.threads| ==> s.threads[t].place.Idle?
    ensures Inv(peer, s)
  {
    forall t: nat | t < |s.threads| ensures ThreadOk(peer, s, t) {}
  }

  // ----- jammed -----

  /**
   A publisher holds the store, there is no connection but a reachable peer, and nobody is
   past his business with the store. The publisher itself is not on its way out.
   */
  predicate Jammed(peer: Peer, s: State) {
    && s.writer.Some? && s.writer.value < |s.threads| && !s.threads[s.writer.value].place.Unlocking?
    && !s.connected && peer.reachable
    && !(s.conn.Some? && s.conn.value < |s.threads| && s.threads[s.conn.value].place == Applying(0))
  }

  lemma JamStays(peer: Peer, s: State, m: Move)
    requires Inv(peer, s) && Jammed(peer, s) && Enabled(s, m)
    ensures Jammed(peer, Step(peer, s, m)) && Step(peer, s, m).writer == s.writer
  {
    assert ThreadOk(peer, s, m.t) && ThreadOk(peer, s, s.writer.value);
    if s.conn.Some? {
      assert ThreadOk(peer, s, s.conn.value);
    }
  }

  /** Whatever anybody does, a jammed publisher never gets to its end nor lets go of the store. */
  lemma {:induction false} JammedForEver(peer: Peer, states: seq<State>, moves: seq<Move>, k: nat)
    requires Run(peer, states, moves) && Inv(peer, states[0]) && Jammed(peer, states[0]) && k < |states|
    ensures Inv(peer, states[k]) && Jammed(peer, states[k]) && states[k].writer == states[0].writer
    ensures |states[k].threads| > states[k].writer.value && !states[k].threads[states[k].writer.value].place.Done?
  {
    if k > 0 {
      JammedForEver(peer, states, moves, k - 1);
      assert Follows(peer, states, moves, k - 1);
      StepKeepsInv(peer, states[k - 1], moves[k - 1]);
      JamStays(peer, states[k - 1], moves[k - 1]);
    }
    assert ThreadOk(peer, states[k], states[k].writer.value);
  }

  // ----- not jammed -----

  ghost predicate Finishes(peer: Peer, s: State, i: nat, states: seq<State>, moves: seq<Move>) {
    && Run(peer, states, moves) && states[0] == s
    && i < |states[|moves|].threads| && states[|moves|].threads[i].place.Done?
  }

  /** From `s` the threads can go on so that thread `i` gets to its end. */
  ghost predicate CanFinish(peer: Peer, s: State, i: nat) {
    exists states: seq<State>, moves: seq<Move> :: Finishes(peer, s, i, states, moves)
  }

  lemma Now(peer: Peer, s: State, i: nat)
    requires i < |s.threads| && s.threads[i].place.Done?
    ensures CanFinish(peer, s, i)
  {
    assert Finishes(peer, s, i, [s], []);
  }

  lemma Next(peer: Peer, s: State, m: Move, i: nat)
    requires Enabled(s, m) && CanFinish(peer, Step(peer, s, m), i)
    ensures CanFinish(peer, s, i)
  {
    var states: seq<State>, moves: seq<Move> :| Finishes(peer, Step(peer, s, m), i, states, moves);
    var states', moves' := [s] + states, [m] + moves;
    forall k: nat | k < |moves'| ensures Follows(peer, states', moves', k) {
      assert k > 0 ==> Follows(peer, states, moves, k - 1);
    }
    assert states'[|moves'|] == states[|moves|];
    assert Finishes(peer, s, i, states', moves');
  }

  lemma FinishUnlocking(peer: Peer, s: State, i: nat)
    requires i < |s.threads| && s.threads[i].place.Unlocking?
    ensures CanFinish(peer, s, i)
  {
    Now(peer, Step(peer, s, Advance(i, false)), i);
    Next(peer, s, Advance(i, false), i);
  }

  /** With the connection lock in hand, and a connection or no peer, it is two or three more steps. */
  lemma FinishHolding(peer: Peer, s: State, i: nat)
    requires i < |s.threads| && (s.threads[i].place.HasConn? || s.threads[i].place.Using?)
    requires s.connected || !peer.reachable
    ensures CanFinish(peer, s, i)
  {
    var s1 := Step(peer, s, Advance(i, false));
    if s1.threads[i].place.Using? {
      FinishUnlocking(peer, Step(peer, s1, Advance(i, false)), i);
      Next(peer, s1, Advance(i, false), i);
    } else {
      FinishUnlocking(peer, s1, i);
    }
    Next(peer, s, Advance(i, false), i);
  }

  lemma FinishFree(peer: Peer, s: State, i: nat)
    requires i < |s.threads| && s.threads[i].place.HoldsStore? && s.conn.None?
    requires s.connected || !peer.reachable
    ensures CanFinish(peer, s, i)
  {
    FinishHolding(peer, Step(peer, s, Advance(i, false)), i);
    Next(peer, s, Advance(i, false), i);
  }

  /** Another thread is about to let go of the connection. */
  lemma FinishAfterUnlock(peer: Peer, s: State, i: nat, j: nat)
    requires i < |s.threads| && s.threads[i].place.HoldsStore? && j < |s.threads| && j != i
    requires s.threads[j].place.Unlocking? && (s.connected || !peer.reachable)
    ensures CanFinish(peer, s, i)
  {
    FinishFree(peer, Step(peer, s, Advance(j, false)), i);
    Next(peer, s, Advance(j, false), i);
  }

  lemma FinishAfterUse(peer: Peer, s: State, i: nat, j: nat)
    requires i < |s.threads| && s.threads[i].place.HoldsStore? && j < |s.threads| && j != i
    requires s.threads[j].place.Using?
    ensures CanFinish(peer, s, i)
  {
    FinishAfterUnlock(peer, Step(peer, s, Advance(j, false)), i, j);
    Next(peer, s, Advance(j, false), i);
  }

  lemma FinishAfterOther(peer: Peer, s: State, i: nat, j: nat)
    requires Inv(peer, s) && i < |s.threads| && s.threads[i].place.HoldsStore? && s.conn == Some(j)
    requires s.writer == Some(i) && !Jammed(peer, s)
    ensures CanFinish(peer, s, i)
  {
    assert ThreadOk(peer, s, i) && ThreadOk(peer, s, j);
    var place := s.threads[j].place;
    if place.Using? {
      FinishAfterUse(peer, s, i, j);
    } else if place.Unlocking? {
      FinishAfterUnlock(peer, s, i, j);
    } else {
      assert place.HasConn? || place == Applying(0);
      var s1 := Step(peer, s, Advance(j, false));
      if s1.connected { FinishAfterUse(peer, s1, i, j); } else { FinishAfterUnlock(peer, s1, i, j); }
      Next(peer, s, Advance(j, false), i);
    }
  }

  /**
   A publication that holds the store can come to its end if and only if it is not jammed:
   the connection exists, or the peer cannot be reached, or the thread making the connection
   is done with the store, or the publication is already on its way out.
   */
  lemma PublicationExactly(peer: Peer, s: State, i: nat)
    requires Inv(peer, s) && s.writer == Some(i)
    ensures CanFinish(peer, s, i) <==> !Jammed(peer, s)
  {
    assert ThreadOk(peer, s, i);
    if Jammed(peer, s) {
      if CanFinish(peer, s, i) {
        var states: seq<State>, moves: seq<Move> :| Finishes(peer, s, i, states, moves);
        JammedForEver(peer, states, moves, |moves|);
      }
    } else {
      if s.threads[i].place.HoldsStore? {
        if s.conn.None? { FinishFree(peer, s, i); } else { FinishAfterOther(peer, s, i, s.conn.value); }
      } else if s.threads[i].place.Unlocking? {
        FinishUnlocking(peer, s, i);
      } else {
        FinishHolding(peer, s, i);
      }
    }
  }

  /** A publication that has the connection lock ends if and only if there is a connection or no peer. */
  lemma WithTheConnection(peer: Peer, s: State, i: nat)
    requires Inv(peer, s) && i < |s.threads| && s.threads[i].publisher && s.threads[i].place.HasConn?
    ensures CanFinish(peer, s, i) <==> s.connected || !peer.reachable
  {
    assert ThreadOk(peer, s, i);
    PublicationExactly(peer, s, i);
  }

  /** The first publication to a reachable peer, with nobody else around, waits for itself. */
  lemma FirstPublicationJams(peer: Peer)
    requires peer.reachable
    ensures var s := State(None, {}, None, false, [Thread(true, Idle)]);
            && Inv(peer, s) && Enabled(s, Advance(0, false))
            && !CanFinish(peer, Step(peer, s, Advance(0, false)), 0)
  {
    var s := State(None, {}, None, false, [Thread(true, Idle)]);
    StartInv(peer, s);
    StepKeepsInv(peer, s, Advance(0, false));
    PublicationExactly(peer, Step(peer, s, Advance(0, false)), 0);
  }

  // ----- who is no publisher -----

  /**
   A connection comes into being exactly when every member of the peer's snapshot has been
   written, and it is lost exactly when a frame cannot be written.
   */
  lemma ConnectionExactly(peer: Peer, s: State, m: Move)
    requires Inv(peer, s) && Enabled(s, m)
    ensures var place := s.threads[m.t].place;
            Step(peer, s, m).connected <==> place == Applying(0) || (s.connected && !(place.Using? && m.fails))
  {
    assert ThreadOk(peer, s, m.t);
  }

  lemma {:induction false} FinishApplying(peer: Peer, s: State, i: nat, left: nat)
    requires i < |s.threads| && s.threads[i].place == Applying(left) && s.writer.None? && s.readers == {}
    ensures CanFinish(peer, s, i)
    decreases left
  {
    var s1 := Step(peer, s, Advance(i, false));
    if left == 0 {
      FinishHolding(peer, s1, i);
    } else {
      FinishApplying(peer, s1, i, left - 1);
    }
    Next(peer, s, Advance(i, false), i);
  }

  lemma FinishConnecting(peer: Peer, s: State, i: nat)
    requires i < |s.threads| && s.threads[i].place.Snapshotting? && s.writer.None? && s.readers == {}
    ensures CanFinish(peer, s, i)
  {
    var s1 := Step(peer, s, Advance(i, false));
    var s2 := Step(peer, s1, Advance(i, false));
    assert s2.readers == {};
    FinishApplying(peer, s2, i, peer.members);
    Next(peer, s1, Advance(i, false), i);
    Next(peer, s, Advance(i, false), i);
  }

  /** A thread that does not publish, and finds both locks free, comes to its end by itself. */
  lemma SenderFinishes(peer: Peer, s: State, i: nat)
    requires i < |s.threads| && s.threads[i] == Thread(false, Idle)
    requires s.writer.None? && s.readers == {} && s.conn.None?
    ensures CanFinish(peer, s, i)
  {
    var s1 := Step(peer, s, Advance(i, false));
    if s1.connected || !peer.reachable {
      FinishHolding(peer, s1, i);
    } else {
      FinishConnecting(peer, Step(peer, s1, Advance(i, false)), i);
      Next(peer, s1, Advance(i, false), i);
    }
    Next(peer, s, Advance(i, false), i);
  }
}
