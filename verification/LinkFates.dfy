/**
 What becomes of every entry in every link table (concurrency/src/link.rs:124-239,
 concurrency/src/tasks/actor.rs:863-880), whichever side of which link it belongs to. An
 entry pushed before its holder drains its table is signalled by the holder. One pushed
 later is signalled if and only if a link call from its peer to its holder comes to take it.
 */
module LinkFates {
  import opened Reasons
  import opened LinkTables
  import opened LinkProtocol
  import opened LinkRuns

  predicate Signalled(f: Fate) {
    f.Carried? || f.Delivered?
  }

  /** Call `o` links the entry's peer to its holder, read the holder's completion and took the entry. */
  ghost predicate Took(s: State, o: nat, k: nat)
    requires k < |s.born|
  {
    && o < |s.ops| && s.ops[o].owner == s.born[k].peer && s.ops[o].target == s.born[k].holder
    && ((s.ops[o].LinkSignal? && s.ops[o].token == k) ||
        (s.ops[o].LinkDone? && !s.ops[o].sawAlive && s.ops[o].took == Some(k)))
  }

  /**
   Every entry of an actor whose completion is out. An early entry was signalled by the
   holder itself, unlinked, or ended by its peer's exit. A late entry is never signalled by
   the holder: it is signalled, or about to be, exactly if a call took it, and otherwise
   unlinked, ended by its peer's exit, or lost in the table.
   */
  lemma FateOfEveryEntry(n: nat, moves: seq<Move>, s: State, k: nat)
    requires Possible(Start(n), moves) && s == After(Start(n), moves) && k < |s.born|
    requires s.born[k].holder < |s.phases| && s.phases[s.born[k].holder].Published?
    ensures |s.fate| == |s.born| && !s.fate[k].Drained?
    ensures !s.born[k].late ==>
              (s.fate[k].Delivered? && s.fate[k].caller.None?) || s.fate[k].Unlinked? || s.fate[k].PeerGone?
    ensures s.born[k].late ==> (Signalled(s.fate[k]) <==> exists o: nat :: Took(s, o, k))
    ensures s.fate[k].Delivered? ==>
              s.fate[k].at < |s.log| &&
              s.log[s.fate[k].at] ==
              Delivery(s.born[k].peer, s.born[k].holder, s.phases[s.born[k].holder].reason, k)
    ensures s.fate[k].PeerGone? ==> s.born[k].peer < |s.phases| && !s.phases[s.born[k].peer].Alive?
  {
    StartInv(n);
    RunKeepsInv(Start(n), moves);
    assert TokenOk(s, k);
    if s.fate[k].Held? {
      assert TableOk(s, s.born[k].holder);
      assert EntryOk(s, s.born[k].holder, Entry(s.born[k].peer, k));
    }
    if s.fate[k].Delivered? {
      assert LogOk(s, s.fate[k].at);
    }
    if Signalled(s.fate[k]) && (s.fate[k].Carried? || s.fate[k].caller.Some?) {
      var o := if s.fate[k].Carried? then s.fate[k].op else s.fate[k].caller.value;
      assert OpOk(s, o);
      assert Took(s, o, k);
    }
    forall o: nat | Took(s, o, k) ensures Signalled(s.fate[k]) && s.born[k].late {
      assert OpOk(s, o);
    }
  }

  // ----- late entries, step by step -----

  /** A link call from the entry's peer to its holder looks into the table after the publication. */
  predicate Takes(s: State, m: Move, k: nat)
    requires k < |s.born|
  {
    && m.Continue? && m.op < |s.ops| && s.ops[m.op].LinkTake?
    && s.ops[m.op].owner == s.born[k].peer && s.ops[m.op].target == s.born[k].holder
  }

  /** In this run such a call comes while the entry is still in the table. */
  ghost predicate TakenIn(s: State, moves: seq<Move>, k: nat)
    requires Shape(s) && Possible(s, moves) && k < |s.born|
    decreases |moves|
  {
    moves != [] &&
    (Takes(s, moves[0], k) ||
     (var s' := Step(s, moves[0]);
      k < |s'.born| && s'.fate[k].Held? && TakenIn(s', moves[1..], k)))
  }

  /** A late entry leaves its table to the call that takes it, to an unlink, or to its peer's exit. */
  lemma LateStep(s: State, m: Move, k: nat)
    requires Inv(s) && Enabled(s, m) && k < |s.fate| && s.fate[k].Held? && s.born[k].late
    ensures var s' := Step(s, m);
            && k < |s'.fate| && s'.born[k] == s.born[k]
            && (s'.fate[k].Held? || s'.fate[k].Unlinked? || s'.fate[k].PeerGone? || s'.fate[k].Carried?)
            && (s'.fate[k].Carried? <==> Takes(s, m, k))
  {
    assert TokenOk(s, k);
    assert TableOk(s, s.born[k].holder);
    assert EntryOk(s, s.born[k].holder, Entry(s.born[k].peer, k));
    match m
    case Continue(o) => LateResume(s, o, k);
    case Propagate(a) => LatePropagate(s, a, k);
    case _ =>
  }

  lemma LateResume(s: State, o: nat, k: nat)
    requires Inv(s) && Enabled(s, Continue(o)) && k < |s.fate| && s.fate[k].Held? && s.born[k].late
    ensures var s' := Resume(s, o);
            && k < |s'.fate| && k < |s'.born| && s'.born[k] == s.born[k]
            && (s'.fate[k].Held? || s'.fate[k].Unlinked? || s'.fate[k].Carried?)
            && (s'.fate[k].Carried? <==> Takes(s, Continue(o), k))
  {
    assert OpOk(s, o) && TokenOk(s, k);
    var op := s.ops[o];
    if op.LinkTake? {
      DropEffect(s, op.target, op.owner, Carried(o));
      if Takes(s, Continue(o), k) {
        HasMember(s.tables[op.target], Entry(op.owner, k));
      }
    } else if op.UnlinkOwn? {
      DropEffect(s, op.owner, op.target, Unlinked);
    } else if op.UnlinkPeer? {
      DropEffect(s, op.target, op.owner, Unlinked);
    }
  }

  lemma LatePropagate(s: State, a: ActorId, k: nat)
    requires Inv(s) && Enabled(s, Propagate(a)) && k < |s.fate| && s.fate[k].Held?
    ensures var s' := PropagateStep(s, a);
            && k < |s'.fate| && s'.born == s.born && (s'.fate[k].Held? || s'.fate[k].PeerGone?)
  {
    assert PhaseOk(s, a) && TokenOk(s, k);
    if s.phases[a].pending != [] {
      assert s.phases[a].pending[0] in s.phases[a].pending && PendingOk(s, a, s.phases[a].pending[0]);
      DropEffect(s, s.phases[a].pending[0].peer, a, PeerGone);
    }
  }

  /** A carried or signalled entry stays so; an ended one never becomes so. */
  lemma {:induction false} Settles(s: State, moves: seq<Move>, k: nat)
    requires Inv(s) && Possible(s, moves) && k < |s.fate| && s.born[k].late && !s.fate[k].Held?
    ensures k < |After(s, moves).fate| && (Signalled(After(s, moves).fate[k]) <==> Signalled(s.fate[k]))
    ensures !After(s, moves).fate[k].Held?
    decreases |moves|
  {
    assert TokenOk(s, k);
    if moves != [] {
      SettlesStep(s, moves[0], k);
      StepKeepsInv(s, moves[0]);
      Settles(Step(s, moves[0]), moves[1..], k);
    }
  }

  lemma LateIsNotDrained(s: State, k: nat)
    requires Inv(s) && k < |s.fate| && s.born[k].late
    ensures !s.fate[k].Drained?
  {
    assert TokenOk(s, k) && PhaseOk(s, s.born[k].holder);
    assert s.fate[k].Drained? ==> PendingOk(s, s.born[k].holder, Entry(s.born[k].peer, k));
  }

  lemma SettlesStep(s: State, m: Move, k: nat)
    requires Inv(s) && Enabled(s, m) && k < |s.fate| && s.born[k].late && !s.fate[k].Held?
    ensures var s' := Step(s, m);
            && k < |s'.fate| && s'.born[k].late && !s'.fate[k].Held?
            && (Signalled(s'.fate[k]) <==> Signalled(s.fate[k]))
  {
    FateIsFinal(s, m, k);
    assert TokenOk(s, k);
    LateIsNotDrained(s, k);
    if s.fate[k].Carried? {
      CarriedStep(s, m, k);
    }
  }

  lemma CarriedStep(s: State, m: Move, k: nat)
    requires Inv(s) && Enabled(s, m) && k < |s.fate| && s.fate[k].Carried?
    ensures k < |Step(s, m).fate| && k < |Step(s, m).born| && Step(s, m).born[k] == s.born[k]
    ensures Signalled(Step(s, m).fate[k])
  {
    assert TokenOk(s, k);
    match m
    case Continue(o) =>
      assert OpOk(s, o);
      var op := s.ops[o];
      if op.LinkTake? {
        DropEffect(s, op.target, op.owner, Carried(o));
      } else if op.UnlinkOwn? {
        DropEffect(s, op.owner, op.target, Unlinked);
      } else if op.UnlinkPeer? {
        DropEffect(s, op.target, op.owner, Unlinked);
      }
    case Propagate(a) =>
      assert PhaseOk(s, a);
      if s.phases[a].pending != [] {
        assert s.phases[a].pending[0] in s.phases[a].pending && PendingOk(s, a, s.phases[a].pending[0]);
        DropEffect(s, s.phases[a].pending[0].peer, a, PeerGone);
      }
    case _ =>
  }

  /**
   From any reachable state on, a late entry is signalled if and only if a link call from its
   peer to its holder comes to take it while it is still in the table.
   */
  lemma {:induction false} LateEntryExactly(s: State, moves: seq<Move>, k: nat)
    requires Inv(s) && Possible(s, moves) && k < |s.fate| && s.fate[k].Held? && s.born[k].late
    ensures k < |After(s, moves).fate| && (Signalled(After(s, moves).fate[k]) <==> TakenIn(s, moves, k))
    decreases |moves|
  {
    if moves != [] {
      var s' := Step(s, moves[0]);
      LateStep(s, moves[0], k);
      StepKeepsInv(s, moves[0]);
      if s'.fate[k].Held? {
        LateEntryExactly(s', moves[1..], k);
      } else {
        Settles(s', moves[1..], k);
      }
    }
  }

  // ----- a link made for a dead owner -----

  /** The pushes and the look at the living target, for an owner that is gone already. */
  lemma DeadOwnerCall(s: State)
    requires s == State([[], []], [Published(Kill), Alive], [LinkOwn(0, 1)], [], [], [])
    ensures Resume(s, 0) == State([[Entry(1, 0)], []], s.phases, [LinkPeer(0, 1)], [Birth(0, 1, true)], [Held], [])
    ensures Resume(Resume(s, 0), 0) ==
            State([[Entry(1, 0)], [Entry(0, 1)]], s.phases, [LinkRead(0, 1, Some(1))],
                  [Birth(0, 1, true), Birth(1, 0, false)], [Held, Held], [])
  {
    assert !Has(s.tables[0], 1);
    assert s.tables[0] + [Entry(1, 0)] == [Entry(1, 0)];
    assert Push(s, 0, 1).tables == [[Entry(1, 0)], []];
    var s' := Resume(s, 0);
    assert !Has(s'.tables[1], 0);
    assert s'.tables[1] + [Entry(0, 1)] == [Entry(0, 1)];
    assert Push(s', 1, 0).tables == [[Entry(1, 0)], [Entry(0, 1)]];
  }

  lemma DeadOwnerRest(s: State) returns (moves: seq<Move>)
    requires s == State([[], []], [Published(Kill), Alive], [LinkOwn(0, 1)], [], [], [])
    ensures Possible(s, moves)
    ensures var s' := After(s, moves);
            && s'.phases == s.phases && |s'.ops| == 1 && s'.ops[0].LinkDone? && s'.log == []
            && |s'.fate| == 2 && s'.fate[0] == Held && |s'.born| == 2 && s'.born[0] == Birth(0, 1, true)
  {
    DeadOwnerCall(s);
    var s1 := Resume(s, 0);
    var s2 := Resume(s1, 0);
    Cons(s2, Continue(0), []);
    moves := [Continue(0)] + [];
    Cons(s1, Continue(0), moves);
    moves := [Continue(0)] + moves;
    Cons(s, Continue(0), moves);
    moves := [Continue(0)] + moves;
  }

  /**
   No race is needed to lose a signal: a link call looks only at its target's completion, so
   a link made on behalf of an owner that is already dead leaves an entry in the dead owner's
   table, and the living target is never told.
   */
  lemma DeadOwner() returns (moves: seq<Move>)
    ensures Possible(Start(2), moves)
    ensures var s := After(Start(2), moves);
            && s.phases == [Published(Kill), Alive] && |s.ops| == 1 && s.ops[0].LinkDone?
            && |s.fate| == 2 && s.fate[0] == Held && |s.born| == 2 && s.born[0] == Birth(0, 1, true)
            && s.log == []
  {
    var s1 := Step(Start(2), Exit(0, Kill));
    assert s1 == State([[], []], [Propagating(Kill, [], false), Alive], [], [], [], []);
    var s2 := Step(s1, Propagate(0));
    assert s2 == State([[], []], [Published(Kill), Alive], [], [], [], []);
    var s3 := Step(s2, StartLink(0, 1));
    moves := DeadOwnerRest(s3);
    Cons(s2, StartLink(0, 1), moves);
    moves := [StartLink(0, 1)] + moves;
    Cons(s1, Propagate(0), moves);
    moves := [Propagate(0)] + moves;
    Cons(Start(2), Exit(0, Kill), moves);
    moves := [Exit(0, Kill)] + moves;
  }
}
