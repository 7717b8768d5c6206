/**
 What a link achieves (concurrency/src/link.rs:124-189), over every run of the link protocol,
 and that every call and every exit comes to its end. A link call between two living actors
 leaves each in the table of the other, unless one of them exits or an unlink call parts
 them meanwhile.
 */
module Linking {
  import opened Reasons
  import opened LinkTables
  import opened LinkProtocol
  import opened LinkRuns

  // ----- an entry stays -----

  /** This is a section of an unlink call between the two. */
  predicate Parts(s: State, m: Move, a: ActorId, p: ActorId) {
    && m.Continue? && m.op < |s.ops| && (s.ops[m.op].UnlinkOwn? || s.ops[m.op].UnlinkPeer?)
    && ((s.ops[m.op].owner == a && s.ops[m.op].target == p) || (s.ops[m.op].owner == p && s.ops[m.op].target == a))
  }

  /** One of the two exits, or they are parted. */
  predicate Disturbs(s: State, m: Move, a: ActorId, p: ActorId) {
    Parts(s, m, a, p) || (m.Exit? && (m.actor == a || m.actor == p))
  }

  predicate Living(s: State, a: ActorId) {
    a < |s.tables| && a < |s.phases| && s.phases[a].Alive?
  }

  lemma WithoutHas(table: seq<Entry>, gone: ActorId, p: ActorId)
    requires Has(table, p) && p != gone
    ensures Has(Without(table, gone), p)
  {
    var i :| 0 <= i < |table| && table[i].peer == p;
    assert table[i] in table;
    HasMember(Without(table, gone), table[i]);
  }

  lemma PushHas(s: State, holder: ActorId, peer: ActorId, h: ActorId, p: ActorId)
    requires holder < |s.tables| == |s.phases| && h < |s.tables|
    ensures Has(Push(s, holder, peer).tables[h], p) <==> Has(s.tables[h], p) || (h == holder && p == peer)
  {
    HasAppend(s.tables[holder], Entry(peer, |s.fate|), p);
  }

  lemma DropHas(s: State, holder: ActorId, peer: ActorId, f: Fate, h: ActorId, p: ActorId)
    requires holder < |s.tables| && h < |s.tables| && Has(s.tables[h], p) && !(h == holder && p == peer)
    ensures Has(Drop(s, holder, peer, f).tables[h], p)
  {
    if h == holder {
      WithoutHas(s.tables[h], peer, p);
    }
  }

  lemma ResumeHas(s: State, o: nat, h: ActorId, p: ActorId)
    requires Inv(s) && Enabled(s, Continue(o)) && Living(s, h) && Living(s, p)
    requires Has(s.tables[h], p) && !Parts(s, Continue(o), h, p)
    ensures Has(Resume(s, o).tables[h], p)
  {
    assert OpOk(s, o);
    match s.ops[o]
    case LinkOwn(a, b) => PushHas(s, a, b, h, p);
    case LinkPeer(a, b) => PushHas(s, b, a, h, p);
    case LinkTake(a, b, _, _) => DropHas(s, b, a, Carried(o), h, p);
    case UnlinkOwn(a, b) => DropHas(s, a, b, Unlinked, h, p);
    case UnlinkPeer(a, b) => DropHas(s, b, a, Unlinked, h, p);
    case _ =>
  }

  /** Only an exit of one of the two, or an unlink between them, takes the entry out. */
  lemma EntryStays(s: State, m: Move, h: ActorId, p: ActorId)
    requires Inv(s) && Enabled(s, m) && Living(s, h) && Living(s, p)
    requires Has(s.tables[h], p) && !Disturbs(s, m, h, p)
    ensures Living(Step(s, m), h) && Has(Step(s, m).tables[h], p)
  {
    match m
    case Continue(o) => ResumeHas(s, o, h, p);
    case Propagate(x) =>
      if s.phases[x].pending != [] && !s.phases[x].unhooked {
        DropHas(s, s.phases[x].pending[0].peer, x, PeerGone, h, p);
      }
    case _ =>
  }

  lemma LivingStays(s: State, m: Move, a: ActorId)
    requires Shape(s) && Enabled(s, m) && Living(s, a) && !(m.Exit? && m.actor == a)
    ensures Living(Step(s, m), a)
  {
  }

  // ----- a link call -----

  /** How far a link call has come, and what it has achieved so far. */
  ghost predicate Progress(s: State, o: nat, a: ActorId, p: ActorId) {
    && o < |s.ops| && Living(s, a) && Living(s, p) && s.ops[o].owner == a && s.ops[o].target == p
    && (|| s.ops[o].LinkOwn?
        || (s.ops[o].LinkPeer? && Has(s.tables[a], p))
        || ((s.ops[o].LinkRead? || (s.ops[o].LinkDone? && s.ops[o].sawAlive))
            && Has(s.tables[a], p) && Has(s.tables[p], a)))
  }

  lemma OwnSection(s: State, o: nat, a: ActorId, p: ActorId)
    requires Inv(s) && Enabled(s, Continue(o)) && Progress(s, o, a, p)
    ensures Progress(Step(s, Continue(o)), o, a, p)
  {
    if s.ops[o].LinkOwn? {
      PushHas(s, a, p, a, p);
    } else if s.ops[o].LinkPeer? {
      PushHas(s, p, a, p, a);
      PushHas(s, p, a, a, p);
    }
  }

  lemma OtherSection(s: State, m: Move, o: nat, a: ActorId, p: ActorId)
    requires Inv(s) && Enabled(s, m) && Progress(s, o, a, p) && m != Continue(o) && !Disturbs(s, m, a, p)
    ensures Progress(Step(s, m), o, a, p)
  {
    OthersKeepOp(s, m, o);
    LivingStays(s, m, a);
    LivingStays(s, m, p);
    if Has(s.tables[a], p) {
      EntryStays(s, m, a, p);
    }
    if Has(s.tables[p], a) {
      EntryStays(s, m, p, a);
    }
  }

  ghost predicate Undisturbed(s: State, moves: seq<Move>, a: ActorId, p: ActorId)
    requires Shape(s) && Possible(s, moves)
    decreases |moves|
  {
    moves != [] ==> !Disturbs(s, moves[0], a, p) && Undisturbed(Step(s, moves[0]), moves[1..], a, p)
  }

  lemma {:induction false} ProgressRun(s: State, moves: seq<Move>, o: nat, a: ActorId, p: ActorId)
    requires Inv(s) && Possible(s, moves) && Undisturbed(s, moves, a, p) && Progress(s, o, a, p)
    ensures Progress(After(s, moves), o, a, p)
    decreases |moves|
  {
    if moves != [] {
      if moves[0] == Continue(o) {
        OwnSection(s, o, a, p);
      } else {
        OtherSection(s, moves[0], o, a, p);
      }
      StepKeepsInv(s, moves[0]);
      ProgressRun(Step(s, moves[0]), moves[1..], o, a, p);
    }
  }

  /**
   A link call between two living actors, from its beginning on and whatever else runs: if
   neither of them exits and no unlink parts them, then once the call is done, and from
   then on, each table has the other.
   */
  lemma LinkJoins(before: State, moves: seq<Move>, a: ActorId, p: ActorId)
    requires Inv(before) && Living(before, a) && Living(before, p)
    requires var s := Step(before, StartLink(a, p)); Possible(s, moves) && Undisturbed(s, moves, a, p)
    ensures var o, s' := |before.ops|, After(Step(before, StartLink(a, p)), moves);
            && o < |s'.ops| && |s'.tables| == |before.tables|
            && (s'.ops[o].LinkDone? ==>
                  s'.ops[o].sawAlive && Has(s'.tables[a], p) && Has(s'.tables[p], a))
  {
    var s := Step(before, StartLink(a, p));
    StepKeepsInv(before, StartLink(a, p));
    ProgressRun(s, moves, |before.ops|, a, p);
    TablesStay(s, moves);
  }

  // ----- everything comes to an end -----

  /** The sections a call has left at most. */
  function SectionsLeft(op: Op): nat {
    match op
    case LinkOwn(_, _) => 5
    case LinkPeer(_, _) => 4
    case LinkRead(_, _, _) => 3
    case LinkTake(_, _, _, _) => 2
    case LinkSignal(_, _, _, _, _) => 1
    case LinkDone(_, _, _, _, _) => 0
    case UnlinkOwn(_, _) => 2
    case UnlinkPeer(_, _) => 1
    case UnlinkDone(_, _) => 0
  }

  /** The steps an exiting actor has left at most: two for each entry it drained, and the publication. */
  function ExitLeft(phase: Phase): nat {
    match phase
    case Alive => 0
    case Propagating(_, pending, unhooked) => if pending != [] && unhooked then 2 * |pending| else 2 * |pending| + 1
    case Published(_) => 0
  }

  lemma ResumeLowers(s: State, o: nat)
    requires Shape(s) && Enabled(s, Continue(o))
    ensures o < |Resume(s, o).ops| && SectionsLeft(Resume(s, o).ops[o]) < SectionsLeft(s.ops[o])
  {
  }

  lemma SectionLowers(s: State, m: Move, o: nat)
    requires Shape(s) && Enabled(s, m) && o < |s.ops|
    ensures o < |Step(s, m).ops|
    ensures SectionsLeft(Step(s, m).ops[o]) + (if m == Continue(o) then 1 else 0) <= SectionsLeft(s.ops[o])
  {
    if m == Continue(o) {
      ResumeLowers(s, o);
    } else {
      OthersKeepOp(s, m, o);
    }
  }

  lemma ExitLowers(s: State, m: Move, a: ActorId)
    requires Shape(s) && Enabled(s, m) && a < |s.phases| && !s.phases[a].Alive?
    ensures a < |Step(s, m).phases| && !Step(s, m).phases[a].Alive?
    ensures ExitLeft(Step(s, m).phases[a]) + (if m == Propagate(a) then 1 else 0) <= ExitLeft(s.phases[a])
  {
  }

  lemma {:induction false} CallEnds(s: State, moves: seq<Move>, o: nat)
    requires Shape(s) && Possible(s, moves) && o < |s.ops|
    ensures o < |After(s, moves).ops|
    ensures multiset(moves)[Continue(o)] + SectionsLeft(After(s, moves).ops[o]) <= SectionsLeft(s.ops[o])
    decreases |moves|
  {
    if moves != [] {
      SectionLowers(s, moves[0], o);
      CallEnds(Step(s, moves[0]), moves[1..], o);
      assert moves == [moves[0]] + moves[1..];
    }
  }

  lemma {:induction false} ExitEnds(s: State, moves: seq<Move>, a: ActorId)
    requires Shape(s) && Possible(s, moves) && a < |s.phases| && !s.phases[a].Alive?
    ensures a < |After(s, moves).phases|
    ensures multiset(moves)[Propagate(a)] + ExitLeft(After(s, moves).phases[a]) <= ExitLeft(s.phases[a])
    decreases |moves|
  {
    if moves != [] {
      ExitLowers(s, moves[0], a);
      ExitEnds(Step(s, moves[0]), moves[1..], a);
      assert moves == [moves[0]] + moves[1..];
    }
  }

  /** A call is done after at most five sections, and an exit after two steps per drained entry and one more. */
  lemma EverythingEnds(before: State, m: Move, moves: seq<Move>)
    requires Inv(before) && Enabled(before, m) && Possible(Step(before, m), moves)
    ensures m.StartLink? ==> multiset(moves)[Continue(|before.ops|)] <= 5
    ensures m.StartUnlink? ==> multiset(moves)[Continue(|before.ops|)] <= 2
    ensures m.Exit? ==> multiset(moves)[Propagate(m.actor)] <= 2 * |before.tables[m.actor]| + 1
  {
    var s := Step(before, m);
    if m.Exit? {
      ExitEnds(s, moves, m.actor);
    } else if m.StartLink? || m.StartUnlink? {
      CallEnds(s, moves, |before.ops|);
    }
  }
}
