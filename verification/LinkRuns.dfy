/**
 Runs of the link protocol (concurrency/src/link.rs:124-239,
 concurrency/src/tasks/actor.rs:863-880): in every interleaving an entry leads to at most one
 signal, and an entry a link call pushes into its target's table is certain to be signalled
 outside the window between drain and publication.
 */
module LinkRuns {
  import opened Reasons
  import opened LinkTables
  import opened LinkProtocol

  ghost predicate Possible(s: State, moves: seq<Move>)
    requires Shape(s)
    decreases |moves|
  {
    moves == [] || (Enabled(s, moves[0]) && Possible(Step(s, moves[0]), moves[1..]))
  }

  /** The state a sequence of moves leads to. */
  ghost function After(s: State, moves: seq<Move>): (s': State)
    requires Shape(s) && Possible(s, moves)
    ensures Shape(s')
    decreases |moves|
  {
    if moves == [] then s else After(Step(s, moves[0]), moves[1..])
  }

  lemma {:induction false} TablesStay(s: State, moves: seq<Move>)
    requires Shape(s) && Possible(s, moves)
    ensures |After(s, moves).tables| == |s.tables|
    decreases |moves|
  {
    if moves != [] {
      TablesStay(Step(s, moves[0]), moves[1..]);
    }
  }

  /** A call's place changes only when the call continues. */
  lemma OthersKeepOp(s: State, m: Move, o: nat)
    requires Shape(s) && Enabled(s, m) && o < |s.ops| && m != Continue(o)
    ensures o < |Step(s, m).ops| && Step(s, m).ops[o] == s.ops[o]
  {
  }

  lemma {:induction false} RunKeepsInv(s: State, moves: seq<Move>)
    requires Inv(s) && Possible(s, moves)
    ensures Inv(After(s, moves))
    decreases |moves|
  {
    if moves != [] {
      StepKeepsInv(s, moves[0]);
      RunKeepsInv(Step(s, moves[0]), moves[1..]);
    }
  }

  /** Calls and exits are never blocked: the bounds that `Enabled` asks for always hold. */
  lemma NothingBlocks(n: nat, moves: seq<Move>, s: State)
    requires Possible(Start(n), moves) && s == After(Start(n), moves)
    ensures forall o: nat :: o < |s.ops| && !s.ops[o].LinkDone? && !s.ops[o].UnlinkDone? ==> Enabled(s, Continue(o))
    ensures forall a: ActorId :: a < |s.phases| && s.phases[a].Propagating? ==> Enabled(s, Propagate(a))
  {
    StartInv(n);
    RunKeepsInv(Start(n), moves);
    forall o: nat | o < |s.ops| && !s.ops[o].LinkDone? && !s.ops[o].UnlinkDone? ensures Enabled(s, Continue(o)) {
      assert OpOk(s, o);
    }
    forall a: ActorId | a < |s.phases| && s.phases[a].Propagating? ensures Enabled(s, Propagate(a)) {
      assert PhaseOk(s, a);
      if s.phases[a].pending != [] {
        assert s.phases[a].pending[0] in s.phases[a].pending;
      }
    }
  }

  /**
   In every reachable state a table holds a peer at most once, and no two signals ever
   stem from the same entry: an entry is consumed by the drain or by the fallback, never
   by both, and never twice. A signal always tells the entry's peer the reason of its holder.
   */
  lemma ExitSignalConservation(n: nat, moves: seq<Move>)
    requires Possible(Start(n), moves)
    ensures var s := After(Start(n), moves);
            && |s.tables| == |s.phases| && |s.born| == |s.fate|
            && (forall a :: 0 <= a < |s.tables| ==> DistinctPeers(s.tables[a]))
            && (forall i, j :: 0 <= i < j < |s.log| ==> s.log[i].token != s.log[j].token)
            && (forall i :: 0 <= i < |s.log| ==>
                  && s.log[i].token < |s.born|
                  && s.log[i].from == s.born[s.log[i].token].holder && s.log[i].to == s.born[s.log[i].token].peer
                  && s.log[i].from < |s.phases| && !s.phases[s.log[i].from].Alive?
                  && s.log[i].reason == s.phases[s.log[i].from].reason)
  {
    StartInv(n);
    RunKeepsInv(Start(n), moves);
    var s := After(Start(n), moves);
    forall a | 0 <= a < |s.tables| ensures DistinctPeers(s.tables[a]) {
      assert TableOk(s, a);
    }
    forall i | 0 <= i < |s.log|
      ensures && s.log[i].token < |s.born|
              && s.log[i].from == s.born[s.log[i].token].holder && s.log[i].to == s.born[s.log[i].token].peer
              && s.log[i].from < |s.phases| && !s.phases[s.log[i].from].Alive?
              && s.log[i].reason == s.phases[s.log[i].from].reason
    {
      assert LogOk(s, i);
    }
    forall i, j | 0 <= i < j < |s.log| ensures s.log[i].token != s.log[j].token {
      assert LogOk(s, i) && LogOk(s, j);
    }
  }

  /**
   What became of the entry a finished link call pushed into the table of a target whose
   completion is out. Unless somebody unlinked the pair or the owner itself exited, it was
   signalled, or another link call is about to signal it, or it is lost; and it can be lost
   only if it was pushed after the drain and the call saw no completion.
   */
  lemma FateOfALink(n: nat, moves: seq<Move>, s: State, o: nat)
    requires Possible(Start(n), moves) && s == After(Start(n), moves) && o < |s.ops|
    requires s.ops[o].LinkDone? && s.ops[o].mine.Some?
    requires s.ops[o].target < |s.phases| && s.phases[s.ops[o].target].Published?
    ensures var op := s.ops[o];
            var k := op.mine.value;
            && k < |s.fate| == |s.born|
            && s.born[k].holder == op.target && s.born[k].peer == op.owner
            && (s.fate[k].Delivered? ==>
                  s.fate[k].at < |s.log| &&
                  s.log[s.fate[k].at] == Delivery(op.owner, op.target, s.phases[op.target].reason, k))
            && (s.fate[k].PeerGone? ==> op.owner < |s.phases| && !s.phases[op.owner].Alive?)
            && !s.fate[k].Drained?
            && (s.fate[k].Held? ==> s.born[k].late && op.sawAlive)
  {
    StartInv(n);
    RunKeepsInv(Start(n), moves);
    assert OpOk(s, o);
    var k := s.ops[o].mine.value;
    assert TokenOk(s, k) && TableOk(s, s.ops[o].target);
    if s.fate[k].Held? {
      assert EntryOk(s, s.ops[o].target, Entry(s.ops[o].owner, k));
    }
    if s.fate[k].Delivered? {
      assert LogOk(s, s.fate[k].at);
    }
  }

  /** No step takes anything back: a token that has left its table never returns to one. */
  lemma FateIsFinal(s: State, m: Move, k: nat)
    requires Inv(s) && Enabled(s, m) && k < |s.fate| && !s.fate[k].Held?
    ensures k < |Step(s, m).fate| && !Step(s, m).fate[k].Held?
    ensures s.fate[k].Delivered? || s.fate[k].Unlinked? || s.fate[k].PeerGone? ==> Step(s, m).fate[k] == s.fate[k]
  {
    assert TokenOk(s, k);
    if m.Continue? {
      assert OpOk(s, m.op);
      var op := s.ops[m.op];
      if op.LinkTake? {
        DropEffect(s, op.target, op.owner, Carried(m.op));
      } else if op.UnlinkOwn? {
        DropEffect(s, op.owner, op.target, Unlinked);
      } else if op.UnlinkPeer? {
        DropEffect(s, op.target, op.owner, Unlinked);
      }
    } else if m.Propagate? && s.phases[m.actor].pending != [] {
      assert PhaseOk(s, m.actor);
      assert s.phases[m.actor].pending[0] in s.phases[m.actor].pending;
      assert PendingOk(s, m.actor, s.phases[m.actor].pending[0]);
      DropEffect(s, s.phases[m.actor].pending[0].peer, m.actor, PeerGone);
    }
  }

  /** The two pushes of a link call made while its target works off its (empty) table. */
  lemma LatePush(s: State)
    requires s == State([[], []], [Alive, Propagating(Kill, [], false)], [LinkOwn(0, 1)], [], [], [])
    ensures Resume(s, 0) == State([[Entry(1, 0)], []], s.phases, [LinkPeer(0, 1)], [Birth(0, 1, false)], [Held], [])
    ensures Resume(Resume(s, 0), 0) ==
            State([[Entry(1, 0)], [Entry(0, 1)]], s.phases, [LinkRead(0, 1, Some(1))],
                  [Birth(0, 1, false), Birth(1, 0, true)], [Held, Held], [])
  {
    assert !Has(s.tables[0], 1);
    assert s.tables[0] + [Entry(1, 0)] == [Entry(1, 0)];
    assert Push(s, 0, 1).tables == [[Entry(1, 0)], []];
    var s' := Resume(s, 0);
    assert !Has(s'.tables[1], 0);
    assert s'.tables[1] + [Entry(0, 1)] == [Entry(0, 1)];
    assert Push(s', 1, 0).tables == [[Entry(1, 0)], [Entry(0, 1)]];
  }

  lemma Cons(s: State, m: Move, moves: seq<Move>)
    requires Shape(s) && Enabled(s, m) && Possible(Step(s, m), moves)
    ensures Possible(s, [m] + moves) && After(s, [m] + moves) == After(Step(s, m), moves)
  {
    assert ([m] + moves)[1..] == moves;
  }

  /** The linker reads the completion too early, and it is published right afterwards. */
  lemma EarlyRead(s: State)
    requires Shape(s) && |s.phases| == 2 && s.phases == [Alive, Propagating(Kill, [], false)]
    requires s.ops == [LinkRead(0, 1, Some(1))]
    ensures Possible(s, [Continue(0), Propagate(1)])
    ensures After(s, [Continue(0), Propagate(1)]) ==
            s.(ops := [LinkDone(0, 1, Some(1), true, None)], phases := [Alive, Published(Kill)])
  {
    var s1 := s.(ops := [LinkDone(0, 1, Some(1), true, None)]);
    assert Step(s, Continue(0)) == s1;
    var s2 := s1.(phases := [Alive, Published(Kill)]);
    assert Step(s1, Propagate(1)) == s2;
    Cons(s1, Propagate(1), []);
    Cons(s, Continue(0), [Propagate(1)]);
    assert [Continue(0)] + [Propagate(1)] == [Continue(0), Propagate(1)];
  }

  /**
   The window is real: actor 1 drains its table, actor 0 links to it and sees no completion
   yet, actor 1 publishes. The entry stays in the dead actor's table and no signal was sent.
   */
  lemma LostSignal() returns (moves: seq<Move>)
    ensures Possible(Start(2), moves)
    ensures var s := After(Start(2), moves);
            && s.ops == [LinkDone(0, 1, Some(1), true, None)] && s.phases == [Alive, Published(Kill)]
            && |s.fate| == 2 && s.fate[1] == Held && |s.born| == 2 && s.born[1] == Birth(1, 0, true)
            && s.log == []
  {
    var s1 := Step(Start(2), Exit(1, Kill));
    assert s1 == State([[], []], [Alive, Propagating(Kill, [], false)], [], [], [], []);
    var s2 := Step(s1, StartLink(0, 1));
    LatePush(s2);
    var s4 := Resume(Resume(s2, 0), 0);
    EarlyRead(s4);
    moves := [Continue(0), Propagate(1)];
    Cons(Resume(s2, 0), Continue(0), moves);
    moves := [Continue(0)] + moves;
    Cons(s2, Continue(0), moves);
    moves := [Continue(0)] + moves;
    Cons(s1, StartLink(0, 1), moves);
    moves := [StartLink(0, 1)] + moves;
    Cons(Start(2), Exit(1, Kill), moves);
    moves := [Exit(1, Kill)] + moves;
  }
}
