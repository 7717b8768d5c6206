/**
 What an unlink achieves (concurrency/src/link.rs:195-208), over every run of the link
 protocol. The call empties first the owner's and then the target's table of the other. An
 entry it finds is never signalled. As long as no link call pushes an entry between the two,
 neither table has the other once the unlink is done, and the only signals that still pass
 between them come from a holder that had drained its table, or from a link call that had
 taken the entry, before.
 */
module Unlinking {
  import opened Reasons
  import opened LinkTables
  import opened LinkProtocol
  import opened LinkRuns

  /** Token `k` is an entry for `p` in the table of `h`. */
  predicate Between(s: State, k: nat, h: ActorId, p: ActorId) {
    k < |s.born| && s.born[k].holder == h && s.born[k].peer == p
  }

  /** The next section of this call empties the table of `h` of `p`. */
  predicate Empties(s: State, m: Move, h: ActorId, p: ActorId) {
    && m.Continue? && m.op < |s.ops|
    && (s.ops[m.op] == UnlinkOwn(h, p) || s.ops[m.op] == UnlinkPeer(p, h))
  }

  /** No entry for `p` is in the table of `h`. */
  ghost predicate Apart(s: State, h: ActorId, p: ActorId) {
    forall k: nat :: Between(s, k, h, p) && k < |s.fate| ==> !s.fate[k].Held?
  }

  /** This step may push an entry for `p` into the table of `h`. */
  predicate Pushes(s: State, m: Move, h: ActorId, p: ActorId) {
    && m.Continue? && m.op < |s.ops|
    && (s.ops[m.op] == LinkOwn(h, p) || s.ops[m.op] == LinkPeer(p, h))
  }

  lemma ApartTables(s: State, h: ActorId, p: ActorId)
    requires Inv(s) && Apart(s, h, p) && h < |s.tables|
    ensures !Has(s.tables[h], p)
  {
    assert TableOk(s, h);
    forall i | 0 <= i < |s.tables[h]| ensures s.tables[h][i].peer != p {
      var e := s.tables[h][i];
      assert e in s.tables[h] && EntryOk(s, h, e);
      assert Between(s, e.token, h, e.peer);
    }
  }

  // ----- one section -----

  /** The section that empties a table leaves none of these entries, and marks those it finds. */
  lemma SectionEmpties(s: State, m: Move, h: ActorId, p: ActorId)
    requires Inv(s) && Enabled(s, m) && Empties(s, m, h, p)
    ensures Apart(Step(s, m), h, p)
    ensures forall k: nat :: Between(s, k, h, p) && k < |s.fate| && s.fate[k].Held? ==>
              k < |Step(s, m).fate| && Step(s, m).fate[k] == Unlinked
  {
    assert OpOk(s, m.op);
    DropEffect(s, h, p, Unlinked);
  }

  lemma {:induction false} FinalForEver(s: State, moves: seq<Move>, k: nat)
    requires Inv(s) && Possible(s, moves) && k < |s.fate|
    requires s.fate[k].Delivered? || s.fate[k].Unlinked? || s.fate[k].PeerGone?
    ensures k < |After(s, moves).fate| && After(s, moves).fate[k] == s.fate[k]
    decreases |moves|
  {
    if moves != [] {
      FateIsFinal(s, moves[0], k);
      StepKeepsInv(s, moves[0]);
      FinalForEver(Step(s, moves[0]), moves[1..], k);
    }
  }

  /**
   An entry that is in its table when an unlink call reaches that table is never signalled,
   neither by then nor in any run that follows.
   */
  lemma NeverSignalled(s: State, m: Move, moves: seq<Move>, h: ActorId, p: ActorId, k: nat)
    requires Inv(s) && Enabled(s, m) && Empties(s, m, h, p) && Possible(Step(s, m), moves)
    requires Between(s, k, h, p) && k < |s.fate| && s.fate[k].Held?
    ensures var s' := After(Step(s, m), moves);
            && k < |s'.fate| && s'.fate[k] == Unlinked
            && forall i :: 0 <= i < |s'.log| ==> s'.log[i].token != k
  {
    SectionEmpties(s, m, h, p);
    StepKeepsInv(s, m);
    FinalForEver(Step(s, m), moves, k);
    RunKeepsInv(Step(s, m), moves);
    var s' := After(Step(s, m), moves);
    forall i | 0 <= i < |s'.log| ensures s'.log[i].token != k {
      assert LogOk(s', i);
    }
  }

  // ----- staying apart -----

  /** Only a push of a link call of the pair makes a new entry. */
  lemma NewTokens(s: State, m: Move, h: ActorId, p: ActorId)
    requires Inv(s) && Enabled(s, m) && !Pushes(s, m, h, p)
    ensures |s.born| <= |Step(s, m).born| && Step(s, m).born[..|s.born|] == s.born
    ensures forall k: nat :: Between(Step(s, m), k, h, p) ==> k < |s.born|
  {
    if m.Continue? {
      assert OpOk(s, m.op);
    }
  }

  lemma ApartStep(s: State, m: Move, h: ActorId, p: ActorId)
    requires Inv(s) && Enabled(s, m) && Apart(s, h, p) && !Pushes(s, m, h, p)
    ensures Apart(Step(s, m), h, p)
  {
    var s' := Step(s, m);
    NewTokens(s, m, h, p);
    forall k: nat | Between(s', k, h, p) && k < |s'.fate| ensures !s'.fate[k].Held? {
      assert s'.born[..|s.born|][k] == s.born[k];
      assert Between(s, k, h, p);
      FateIsFinal(s, m, k);
    }
  }

  /** No step of the run pushes an entry between the two, either way. */
  ghost predicate NoPushes(s: State, moves: seq<Move>, a: ActorId, p: ActorId)
    requires Shape(s) && Possible(s, moves)
    decreases |moves|
  {
    moves != [] ==>
      && !Pushes(s, moves[0], a, p) && !Pushes(s, moves[0], p, a)
      && NoPushes(Step(s, moves[0]), moves[1..], a, p)
  }

  lemma {:induction false} ApartRun(s: State, moves: seq<Move>, a: ActorId, p: ActorId)
    requires Inv(s) && Possible(s, moves) && NoPushes(s, moves, a, p) && Apart(s, a, p) && Apart(s, p, a)
    ensures Apart(After(s, moves), a, p) && Apart(After(s, moves), p, a)
    decreases |moves|
  {
    if moves != [] {
      ApartStep(s, moves[0], a, p);
      ApartStep(s, moves[0], p, a);
      StepKeepsInv(s, moves[0]);
      ApartRun(Step(s, moves[0]), moves[1..], a, p);
    }
  }

  /** How far an unlink has come, and what it has achieved so far. */
  ghost predicate Progress(s: State, o: nat, a: ActorId, p: ActorId) {
    && o < |s.ops|
    && (|| s.ops[o] == UnlinkOwn(a, p)
        || (s.ops[o] == UnlinkPeer(a, p) && Apart(s, a, p))
        || (s.ops[o] == UnlinkDone(a, p) && Apart(s, a, p) && Apart(s, p, a)))
  }

  lemma ProgressStep(s: State, m: Move, o: nat, a: ActorId, p: ActorId)
    requires Inv(s) && Enabled(s, m) && Progress(s, o, a, p) && !Pushes(s, m, a, p) && !Pushes(s, m, p, a)
    ensures Progress(Step(s, m), o, a, p)
  {
    if Apart(s, a, p) {
      ApartStep(s, m, a, p);
    }
    if Apart(s, p, a) {
      ApartStep(s, m, p, a);
    }
    if m != Continue(o) {
      OthersKeepOp(s, m, o);
    } else if s.ops[o].UnlinkOwn? {
      SectionEmpties(s, m, a, p);
    } else {
      SectionEmpties(s, m, p, a);
    }
  }

  lemma {:induction false} ProgressRun(s: State, moves: seq<Move>, o: nat, a: ActorId, p: ActorId)
    requires Inv(s) && Possible(s, moves) && NoPushes(s, moves, a, p) && Progress(s, o, a, p)
    ensures Progress(After(s, moves), o, a, p)
    decreases |moves|
  {
    if moves != [] {
      ProgressStep(s, moves[0], o, a, p);
      StepKeepsInv(s, moves[0]);
      ProgressRun(Step(s, moves[0]), moves[1..], o, a, p);
    }
  }

  /**
   An unlink call, from its beginning to its end, in any run in which no link call
   pushes between the two: when it is done neither table has the other.
   */
  lemma UnlinkSeparates(before: State, moves: seq<Move>, a: ActorId, p: ActorId)
    requires Inv(before) && a < |before.tables| && p < |before.tables|
    requires var s := Step(before, StartUnlink(a, p)); Possible(s, moves) && NoPushes(s, moves, a, p)
    ensures var o, s' := |before.ops|, After(Step(before, StartUnlink(a, p)), moves);
            && |s'.tables| == |before.tables| && o < |s'.ops|
            && (s'.ops[o].UnlinkDone? ==>
                  !Has(s'.tables[a], p) && !Has(s'.tables[p], a) && Apart(s', a, p) && Apart(s', p, a))
  {
    var o, s := |before.ops|, Step(before, StartUnlink(a, p));
    StepKeepsInv(before, StartUnlink(a, p));
    ProgressRun(s, moves, o, a, p);
    RunKeepsInv(s, moves);
    TablesStay(s, moves);
    var s' := After(s, moves);
    if s'.ops[o].UnlinkDone? {
      ApartTables(s', a, p);
      ApartTables(s', p, a);
    }
  }

  // ----- later signals -----

  lemma {:induction false} NoNewTokens(s: State, moves: seq<Move>, a: ActorId, p: ActorId, k: nat)
    requires Inv(s) && Possible(s, moves) && NoPushes(s, moves, a, p)
    requires Between(After(s, moves), k, a, p) || Between(After(s, moves), k, p, a)
    ensures k < |s.born| && After(s, moves).born[k] == s.born[k]
    decreases |moves|
  {
    if moves != [] {
      var s' := Step(s, moves[0]);
      StepKeepsInv(s, moves[0]);
      NoNewTokens(s', moves[1..], a, p, k);
      NewTokens(s, moves[0], a, p);
      NewTokens(s, moves[0], p, a);
      assert Between(s', k, a, p) || Between(s', k, p, a);
      assert s'.born[..|s.born|][k] == s.born[k];
    }
  }

  /**
   From a state in which the two are apart, in any run without pushes between them: a signal
   that passes between them stems from an entry that its holder had drained, or that a link
   call had taken, by then; and no entry had been taken if no link call of the pair was
   about to signal.
   */
  lemma LaterSignals(s: State, moves: seq<Move>, a: ActorId, p: ActorId, i: nat)
    requires Inv(s) && Possible(s, moves) && NoPushes(s, moves, a, p) && Apart(s, a, p) && Apart(s, p, a)
    requires var log := After(s, moves).log;
             |s.log| <= i < |log| && ((log[i].from == a && log[i].to == p) || (log[i].from == p && log[i].to == a))
    ensures var k := After(s, moves).log[i].token;
            && k < |s.fate| && (s.fate[k].Drained? || s.fate[k].Carried?)
            && (s.fate[k].Drained? ==>
                  s.born[k].holder < |s.phases| && s.phases[s.born[k].holder].Propagating?)
            && (s.fate[k].Carried? ==>
                  && s.fate[k].op < |s.ops| && s.ops[s.fate[k].op].LinkSignal?
                  && s.ops[s.fate[k].op].owner == s.born[k].peer && s.ops[s.fate[k].op].target == s.born[k].holder)
  {
    var s' := After(s, moves);
    var k := s'.log[i].token;
    RunKeepsInv(s, moves);
    assert LogOk(s', i);
    NoNewTokens(s, moves, a, p, k);
    assert TokenOk(s, k);
    assert Between(s, k, a, p) || Between(s, k, p, a);
    if s.fate[k].Delivered? || s.fate[k].Unlinked? || s.fate[k].PeerGone? {
      FinalForEver(s, moves, k);
    }
    if s.fate[k].Carried? {
      assert OpOk(s, s.fate[k].op);
    }
  }

  // ----- the exiting actor unhooks itself -----

  /** In this step the exiting actor `p` takes itself out of the table of `h`. */
  predicate Unhooks(s: State, m: Move, h: ActorId, p: ActorId) {
    && m == Propagate(p) && p < |s.phases| && s.phases[p].Propagating? && !s.phases[p].unhooked
    && s.phases[p].pending != [] && s.phases[p].pending[0].peer == h
  }

  lemma UnhookEmpties(s: State, m: Move, h: ActorId, p: ActorId)
    requires Inv(s) && Enabled(s, m) && Unhooks(s, m, h, p)
    ensures Apart(Step(s, m), h, p)
    ensures forall k: nat :: Between(s, k, h, p) && k < |s.fate| && s.fate[k].Held? ==>
              k < |Step(s, m).fate| && Step(s, m).fate[k] == PeerGone
  {
    DropEffect(s, h, p, PeerGone);
  }

  /**
   An entry for an exiting actor that is in its peer's table when the actor comes to take
   itself out is never signalled: the dead are not told of later deaths.
   */
  lemma DeadNotSignalled(s: State, m: Move, moves: seq<Move>, h: ActorId, p: ActorId, k: nat)
    requires Inv(s) && Enabled(s, m) && Unhooks(s, m, h, p) && Possible(Step(s, m), moves)
    requires Between(s, k, h, p) && k < |s.fate| && s.fate[k].Held?
    ensures var s' := After(Step(s, m), moves);
            && k < |s'.fate| && s'.fate[k] == PeerGone
            && forall i :: 0 <= i < |s'.log| ==> s'.log[i].token != k
  {
    UnhookEmpties(s, m, h, p);
    StepKeepsInv(s, m);
    FinalForEver(Step(s, m), moves, k);
    RunKeepsInv(Step(s, m), moves);
    var s' := After(Step(s, m), moves);
    forall i | 0 <= i < |s'.log| ensures s'.log[i].token != k {
      assert LogOk(s', i);
    }
  }

  /** A signal is sent only to a peer the exiting actor has unhooked itself from just before. */
  lemma SignalAfterUnhook(s: State, p: ActorId)
    requires Inv(s) && Enabled(s, Propagate(p)) && |Step(s, Propagate(p)).log| > |s.log|
    ensures s.phases[p].unhooked && s.phases[p].pending != []
    ensures Step(s, Propagate(p)).log ==
            s.log + [Delivery(s.phases[p].pending[0].peer, p, s.phases[p].reason, s.phases[p].pending[0].token)]
  {
  }

  // ----- an exit cleans up behind itself -----

  /** The exiting actor `a` still has to take itself out of the table of `h`. */
  ghost predicate Ahead(s: State, a: ActorId, h: ActorId) {
    && a < |s.phases| && s.phases[a].Propagating?
    && exists i :: 0 <= i < |s.phases[a].pending| && s.phases[a].pending[i].peer == h
                   && (i == 0 ==> !s.phases[a].unhooked)
  }

  lemma OthersKeepPhase(s: State, m: Move, a: ActorId)
    requires Shape(s) && Enabled(s, m) && m != Propagate(a) && a < |s.phases| && s.phases[a].Propagating?
    ensures a < |Step(s, m).phases| && Step(s, m).phases[a] == s.phases[a]
  {
  }

  lemma AheadStep(s: State, m: Move, a: ActorId, h: ActorId)
    requires Shape(s) && Enabled(s, m) && Ahead(s, a, h) && !Unhooks(s, m, h, a)
    ensures Ahead(Step(s, m), a, h)
  {
    if m != Propagate(a) {
      OthersKeepPhase(s, m, a);
    } else {
      var pending, pending' := s.phases[a].pending, Step(s, m).phases[a].pending;
      var i :| 0 <= i < |pending| && pending[i].peer == h && (i == 0 ==> !s.phases[a].unhooked);
      assert i > 0;
      if s.phases[a].unhooked {
        assert pending'[i - 1] == pending[i];
      } else {
        assert pending'[i] == pending[i];
      }
    }
  }

  /** Entry `k` for `a` in the table of `h` is gone, or its removal is still ahead. */
  lemma {:induction false} CleanedUp(s: State, moves: seq<Move>, a: ActorId, h: ActorId, k: nat)
    requires Inv(s) && Possible(s, moves) && Between(s, k, h, a)
    requires s.fate[k].Held? ==> Ahead(s, a, h)
    ensures var s' := After(s, moves); k < |s'.fate| && (s'.fate[k].Held? ==> Ahead(s', a, h))
    decreases |moves|
  {
    if moves != [] {
      var m, s1 := moves[0], Step(s, moves[0]);
      StepKeepsInv(s, m);
      BirthsStay(s, m, k);
      if !s.fate[k].Held? {
        FateIsFinal(s, m, k);
      } else if Unhooks(s, m, h, a) {
        UnhookEmpties(s, m, h, a);
      } else {
        AheadStep(s, m, a, h);
      }
      CleanedUp(s1, moves[1..], a, h, k);
    }
  }

  lemma BirthsStay(s: State, m: Move, k: nat)
    requires Shape(s) && Enabled(s, m) && k < |s.born|
    ensures k < |Step(s, m).born| && Step(s, m).born[k] == s.born[k]
  {
  }

  /**
   An actor that has exited is in no table of a peer it was linked with: an entry for it that
   was there when it drained its own table is gone by the time it has published its reason.
   */
  lemma ExitCleansUp(before: State, reason: ExitReason, moves: seq<Move>, a: ActorId, h: ActorId, k: nat)
    requires Inv(before) && Enabled(before, Exit(a, reason)) && Possible(Step(before, Exit(a, reason)), moves)
    requires Has(before.tables[a], h) && Between(before, k, h, a)
    ensures var s' := After(Step(before, Exit(a, reason)), moves);
            a < |s'.phases| && k < |s'.fate| && (s'.phases[a].Published? ==> !s'.fate[k].Held?)
  {
    var s := Step(before, Exit(a, reason));
    StepKeepsInv(before, Exit(a, reason));
    assert s.phases[a].pending == before.tables[a] && !s.phases[a].unhooked;
    assert Ahead(s, a, h);
    CleanedUp(s, moves, a, h, k);
    RunKeepsInv(s, moves);
    TablesStay(s, moves);
  }
}
