/**
 What replication of process groups guarantees (concurrency/src/pg.rs:232-301, 429-480 and
 484-549): an exact account of what the peer has, when it agrees with the sender, what goes
 wrong around a removal that is overtaken, and runs that show it.
 */
module PgReplicationResults {
  import opened Reasons
  import opened ProcessGroups
  import opened ProcessGroupRuns
  import opened PgReplication

  // ----- the account -----

  /** Nothing announced was or will be unknown to the peer, and the peer never lacked anything. */
  predicate Sound(node: nat, p: Pair, l: Link) {
    && l.tally.ignored == 0 && Idle(PeerCount(node, l, p), l.channel, p) == 0
    && l.tally.missing == 0 && l.tally.repaired == 0
  }

  /** Everything has arrived and no farewell is owed. */
  predicate Settled(p: Pair, l: Link) {
    l.channel == [] && CountDue(l.removals, p, true) == 0
  }

  /**
   Every run. What the peer stands to have plus what it lacks is the surplus, plus what
   removals missed, plus one if the pair is indexed, plus the farewells owed. Announcements
   always find their pair, and the peer lacks nothing, if and only if no farewell was hollow
   and the peer was there from the beginning; then every member is on its way to the peer.
   Once settled, peer and sender agree about the pair exactly when lack and surplus cancel.
   */
  lemma ReplicationConservation(typeOf: ActorId -> TypeId, node: nat, p: Pair, l0: Link, moves: seq<Move>)
    requires Fresh(node, p, l0) && Possible(typeOf, node, p, l0, moves)
    ensures var l := Reached(typeOf, node, p, l0, moves);
            var t := l.tally;
            && Outlook(node, l, p) + t.missing ==
                 t.surplus + t.missed + Bit(IsListed(l.sender, p)) + CountDue(l.removals, p, true)
            && (Sound(node, p, l) <==> t.hollow == 0 && !IsListed(l0.sender, p))
            && (Sound(node, p, l) && IsMember(l.sender, p) ==> Outlook(node, l, p) > 0)
            && (Settled(p, l) ==>
                  ((PeerCount(node, l, p) > 0 <==> IsMember(l.sender, p)) <==>
                   if IsMember(l.sender, p) then t.missing <= t.surplus + t.missed
                   else t.missing == t.surplus + t.missed + Bit(IsListed(l.sender, p))))
  {
    FreshInv(node, p, l0);
    RunKeepsInv(typeOf, node, p, Bit(IsListed(l0.sender, p)), l0, moves);
    assert GroupOk(Reached(typeOf, node, p, l0, moves).sender.store, p.k);
  }

  /** The outlook is what the peer gets: delivering all that is on its way leads there. */
  lemma {:induction false} DrainsToOutlook(typeOf: ActorId -> TypeId, node: nat, p: Pair, unseen: nat, l: Link)
    requires Inv(node, p, unseen, l)
    ensures var moves := seq(|l.channel|, _ => Deliver);
            && Possible(typeOf, node, p, l, moves)
            && var l' := Reached(typeOf, node, p, l, moves);
               l'.channel == [] && l'.sender == l.sender && PeerCount(node, l', p) == Outlook(node, l, p)
    decreases |l.channel|
  {
    if l.channel != [] {
      var l1 := Step(typeOf, node, p, l, Deliver);
      StepKeepsInv(typeOf, node, p, unseen, l, Deliver);
      ArriveCounts(node, l.peer, l.channel[0], p);
      DrainsToOutlook(typeOf, node, p, unseen, l1);
      assert seq(|l.channel|, _ => Deliver)[1..] == seq(|l1.channel|, _ => Deliver);
    }
  }

  // ----- overtaken removals -----

  /** A removal that empties the groups although its list is no longer right about the pair. */
  ghost predicate Inaccurate(l: Link, m: Move, p: Pair) {
    && m.Empties? && m.r < |l.removals| && l.removals[m.r].id == p.id
    && (p.k in l.removals[m.r].leaves) != IsListed(l.sender, p)
  }

  ghost function InaccurateCount(typeOf: ActorId -> TypeId, node: nat, p: Pair, l: Link, moves: seq<Move>): nat
    requires Possible(typeOf, node, p, l, moves)
    decreases |moves|
  {
    if moves == [] then 0
    else
      Bit(Inaccurate(l, moves[0], p)) +
      InaccurateCount(typeOf, node, p, Step(typeOf, node, p, l, moves[0]), moves[1..])
  }

  /** Hollow farewells, published or still to come, and joins that no farewell will take back. */
  function Damage(l: Link, p: Pair): nat {
    l.tally.hollow + CountDue(l.removals, p, false) + l.tally.missed
  }

  lemma StepDamage(typeOf: ActorId -> TypeId, node: nat, p: Pair, unseen: nat, l: Link, m: Move)
    requires Inv(node, p, unseen, l) && Enabled(node, l, m)
    ensures Damage(Step(typeOf, node, p, l, m), p) == Damage(l, p) + Bit(Inaccurate(l, m, p))
  {
    var l' := Step(typeOf, node, p, l, m);
    match m
    case Lists(id, leaves) => CountPush(l.removals, Removal(id, leaves, false, false), p, false);
    case Empties(r) =>
      ListingChanges(typeOf, l.sender, ActorRemoved(l.removals[r].id), p);
      CountUpdate(l.removals, r, l'.removals[r], p, false);
    case Farewell(r) =>
      assert RemovalOk(l, r);
      SaidFarewell(l.removals[r], p);
      CountUpdate(l.removals, r, l'.removals[r], p, false);
    case _ =>
  }

  /**
   The damage done by removals is exact: one for every removal whose list had become wrong
   about the pair, and none otherwise.
   */
  lemma {:induction false} RemovalDamage(
      typeOf: ActorId -> TypeId, node: nat, p: Pair, unseen: nat, l: Link, moves: seq<Move>)
    requires Inv(node, p, unseen, l) && Possible(typeOf, node, p, l, moves)
    ensures Damage(Reached(typeOf, node, p, l, moves), p) == Damage(l, p) + InaccurateCount(typeOf, node, p, l, moves)
    decreases |moves|
  {
    if moves != [] {
      StepDamage(typeOf, node, p, unseen, l, moves[0]);
      StepKeepsInv(typeOf, node, p, unseen, l, moves[0]);
      RemovalDamage(typeOf, node, p, unseen, Step(typeOf, node, p, l, moves[0]), moves[1..]);
    }
  }

  /**
   For a peer there from the beginning, and once no hollow farewell is left to come: every
   announcement finds its pair and the peer stands to have exactly the surplus, the indexed
   pair and the farewells owed, if and only if every removal found its list right.
   */
  lemma ConservationExactly(typeOf: ActorId -> TypeId, node: nat, p: Pair, l0: Link, moves: seq<Move>)
    requires Fresh(node, p, l0) && !IsListed(l0.sender, p) && Possible(typeOf, node, p, l0, moves)
    requires CountDue(Reached(typeOf, node, p, l0, moves).removals, p, false) == 0
    ensures var l := Reached(typeOf, node, p, l0, moves);
            InaccurateCount(typeOf, node, p, l0, moves) == 0 <==>
            && Sound(node, p, l)
            && Outlook(node, l, p) == l.tally.surplus + Bit(IsListed(l.sender, p)) + CountDue(l.removals, p, true)
  {
    FreshInv(node, p, l0);
    ReplicationConservation(typeOf, node, p, l0, moves);
    RemovalDamage(typeOf, node, p, 0, l0, moves);
  }

  // ----- when a list stays right -----

  ghost predicate InStep(w: World, p: Pair) {
    (IsListed(w, p) <==> IsMember(w, p)) && (p.id in w.dead ==> !IsListed(w, p))
  }

  /** The pair joins, leaves, dies or is removed in this step. */
  ghost predicate Touches(l: Link, m: Move, p: Pair) {
    match m
    case SenderDoes(op) => IsJoin(op, p) || op == LeaveOnce(p.k, p.id) || op == Died(p.id)
    case Empties(r) => r < |l.removals| && l.removals[r].id == p.id
    case _ => false
  }

  ghost predicate Untouched(typeOf: ActorId -> TypeId, node: nat, p: Pair, l: Link, moves: seq<Move>)
    requires Possible(typeOf, node, p, l, moves)
    decreases |moves|
  {
    moves != [] ==>
      !Touches(l, moves[0], p) && Untouched(typeOf, node, p, Step(typeOf, node, p, l, moves[0]), moves[1..])
  }

  lemma QuietOperation(typeOf: ActorId -> TypeId, w: World, op: Operation, p: Pair)
    requires Consistent(w.store) && InStep(w, p) && p.id !in w.dead
    requires !IsJoin(op, p) && op != LeaveOnce(p.k, p.id) && op != Died(p.id) && op != ActorRemoved(p.id)
    ensures var w' := Apply(typeOf, w, op);
            InStep(w', p) && p.id !in w'.dead && (IsListed(w', p) <==> IsListed(w, p))
  {
    ListingChanges(typeOf, w, op, p);
    MembershipLasts(typeOf, w, op, p);
    ApplyConsistent(typeOf, w, op);
    assert GroupOk(Apply(typeOf, w, op).store, p.k);
  }

  lemma QuietStep(typeOf: ActorId -> TypeId, node: nat, p: Pair, unseen: nat, l: Link, m: Move)
    requires Inv(node, p, unseen, l) && Enabled(node, l, m) && !Touches(l, m, p)
    requires InStep(l.sender, p) && p.id !in l.sender.dead
    ensures var w' := Step(typeOf, node, p, l, m).sender;
            InStep(w', p) && p.id !in w'.dead && (IsListed(w', p) <==> IsListed(l.sender, p))
  {
    match m
    case SenderDoes(op) => QuietOperation(typeOf, l.sender, op, p);
    case Empties(r) => QuietOperation(typeOf, l.sender, ActorRemoved(l.removals[r].id), p);
    case _ =>
  }

  /**
   A removal of a live actor is accurate if the pair neither joins nor leaves between its
   listing and its emptying, whatever everybody else does.
   */
  lemma {:induction false} UntouchedIsAccurate(
      typeOf: ActorId -> TypeId, node: nat, p: Pair, unseen: nat, l: Link, moves: seq<Move>, r: nat)
    requires Inv(node, p, unseen, l) && Possible(typeOf, node, p, l, moves) && Untouched(typeOf, node, p, l, moves)
    requires InStep(l.sender, p) && p.id !in l.sender.dead
    requires r < |l.removals| && l.removals[r].id == p.id && !l.removals[r].emptied
    requires p.k in l.removals[r].leaves <==> IsListed(l.sender, p)
    ensures var l' := Reached(typeOf, node, p, l, moves);
            Enabled(node, l', Empties(r)) && !Inaccurate(l', Empties(r), p)
    decreases |moves|
  {
    if moves != [] {
      var l1 := Step(typeOf, node, p, l, moves[0]);
      QuietStep(typeOf, node, p, unseen, l, moves[0]);
      StepKeepsInv(typeOf, node, p, unseen, l, moves[0]);
      assert r < |l1.removals| && l1.removals[r] == l.removals[r];
      UntouchedIsAccurate(typeOf, node, p, unseen, l1, moves[1..], r);
    }
  }

  // ----- one join per episode -----

  /**
   The pair joins only when it is alive and not a member, and dies only after its removal;
   its removals are accurate; and snapshots that contain it reach a peer that lacks it.
   */
  ghost predicate Orderly(node: nat, l: Link, m: Move, p: Pair) {
    match m
    case SenderDoes(op) =>
      && (IsJoin(op, p) ==> !IsMember(l.sender, p) && p.id !in l.sender.dead)
      && (op == Died(p.id) ==> !IsListed(l.sender, p))
    case Empties(_) => !Inaccurate(l, m, p)
    case SendSnapshot(_) => IsMember(l.sender, p) ==> Outlook(node, l, p) == 0
    case _ => true
  }

  ghost predicate OrderlyRun(typeOf: ActorId -> TypeId, node: nat, p: Pair, l: Link, moves: seq<Move>)
    requires Possible(typeOf, node, p, l, moves)
    decreases |moves|
  {
    moves != [] ==>
      Orderly(node, l, moves[0], p) && OrderlyRun(typeOf, node, p, Step(typeOf, node, p, l, moves[0]), moves[1..])
  }

  lemma OrderlyOperation(typeOf: ActorId -> TypeId, w: World, op: Operation, p: Pair)
    requires Consistent(w.store) && InStep(w, p)
    requires IsJoin(op, p) ==> !IsMember(w, p) && p.id !in w.dead
    requires op == Died(p.id) ==> !IsListed(w, p)
    ensures InStep(Apply(typeOf, w, op), p)
    ensures op != ActorRemoved(p.id) ==> Excess(typeOf, w, op, p) == 0
  {
    ListingChanges(typeOf, w, op, p);
    MembershipLasts(typeOf, w, op, p);
    ApplyConsistent(typeOf, w, op);
    assert GroupOk(w.store, p.k);
    assert GroupOk(Apply(typeOf, w, op).store, p.k);
  }

  ghost predicate Tidy(node: nat, p: Pair, l: Link) {
    InStep(l.sender, p) && l.tally.surplus == 0 && Damage(l, p) == 0
  }

  lemma OrderlyStep(typeOf: ActorId -> TypeId, node: nat, p: Pair, unseen: nat, l: Link, m: Move)
    requires Inv(node, p, unseen, l) && Enabled(node, l, m) && Tidy(node, p, l) && Orderly(node, l, m, p)
    ensures Tidy(node, p, Step(typeOf, node, p, l, m))
  {
    StepDamage(typeOf, node, p, unseen, l, m);
    match m
    case SenderDoes(op) => OrderlyOperation(typeOf, l.sender, op, p);
    case Empties(r) => OrderlyOperation(typeOf, l.sender, ActorRemoved(l.removals[r].id), p);
    case SendSnapshot(_) => assert GroupOk(l.sender.store, p.k);
    case _ =>
  }

  lemma {:induction false} OrderlyKeeps(
      typeOf: ActorId -> TypeId, node: nat, p: Pair, unseen: nat, l: Link, moves: seq<Move>)
    requires Inv(node, p, unseen, l) && Possible(typeOf, node, p, l, moves)
    requires Tidy(node, p, l) && OrderlyRun(typeOf, node, p, l, moves)
    ensures Tidy(node, p, Reached(typeOf, node, p, l, moves))
    decreases |moves|
  {
    if moves != [] {
      OrderlyStep(typeOf, node, p, unseen, l, moves[0]);
      StepKeepsInv(typeOf, node, p, unseen, l, moves[0]);
      OrderlyKeeps(typeOf, node, p, unseen, Step(typeOf, node, p, l, moves[0]), moves[1..]);
    }
  }

  /** One join per episode: once settled, peer and sender agree, with count one. */
  lemma OneJoinPerEpisode(typeOf: ActorId -> TypeId, node: nat, p: Pair, l0: Link, moves: seq<Move>)
    requires Fresh(node, p, l0) && !IsListed(l0.sender, p)
    requires Possible(typeOf, node, p, l0, moves) && OrderlyRun(typeOf, node, p, l0, moves)
    requires Settled(p, Reached(typeOf, node, p, l0, moves))
    ensures var l := Reached(typeOf, node, p, l0, moves);
            PeerCount(node, l, p) == Bit(IsMember(l.sender, p))
  {
    FreshInv(node, p, l0);
    assert GroupOk(l0.sender.store, p.k);
    OrderlyKeeps(typeOf, node, p, 0, l0, moves);
    RunKeepsInv(typeOf, node, p, 0, l0, moves);
  }

  // ----- a surplus stays -----

  lemma {:induction false} SurplusGrows(typeOf: ActorId -> TypeId, node: nat, p: Pair, l: Link, moves: seq<Move>)
    requires Possible(typeOf, node, p, l, moves)
    ensures Reached(typeOf, node, p, l, moves).tally.surplus >= l.tally.surplus
    decreases |moves|
  {
    if moves != [] {
      SurplusGrows(typeOf, node, p, Step(typeOf, node, p, l, moves[0]), moves[1..]);
    }
  }

  /**
   A second join in one episode: whatever follows, the peer never forgets the pair again, as
   long as no farewell is hollow, for only such a farewell can take a surplus back.
   */
  lemma SecondJoinSticks(typeOf: ActorId -> TypeId, node: nat, p: Pair, l: Link, m: Move, moves: seq<Move>)
    requires Inv(node, p, 0, l) && IsMember(l.sender, p) && m.SenderDoes? && IsJoin(m.op, p)
    requires Possible(typeOf, node, p, l, [m] + moves)
    requires Reached(typeOf, node, p, l, [m] + moves).tally.hollow == 0
    ensures Outlook(node, Reached(typeOf, node, p, l, [m] + moves), p) > 0
  {
    assert ([m] + moves)[1..] == moves;
    assert GroupOk(l.sender.store, p.k);
    SurplusGrows(typeOf, node, p, Step(typeOf, node, p, l, m), moves);
    RunKeepsInv(typeOf, node, p, 0, l, [m] + moves);
  }

  // ----- runs that lose the agreement -----

  function Quiet(): Link {
    Link(World(Empty(), {}), World(Empty(), {}), [], [], Tally(0, 0, 0, 0, 0, 0))
  }

  lemma QuietIsFresh(node: nat, p: Pair)
    ensures Fresh(node, p, Quiet()) && !IsListed(Quiet().sender, p) && Inv(node, p, 0, Quiet())
  {
    forall k ensures GroupOk(Empty(), k) && RemoteOk(Empty(), k) {}
    FreshInv(node, p, Quiet());
  }

  lemma Onward(typeOf: ActorId -> TypeId, node: nat, p: Pair, l: Link, m: Move, rest: seq<Move>)
    requires Enabled(node, l, m) && Possible(typeOf, node, p, Step(typeOf, node, p, l, m), rest)
    ensures Possible(typeOf, node, p, l, [m] + rest)
    ensures Reached(typeOf, node, p, l, [m] + rest) == Reached(typeOf, node, p, Step(typeOf, node, p, l, m), rest)
  {
    assert ([m] + rest)[1..] == rest;
  }

  /** A first join, as the index and the join count see it. */
  lemma JoinsOnce(typeOf: ActorId -> TypeId, node: nat, p: Pair, unseen: nat, l: Link)
    requires Inv(node, p, unseen, l) && !IsListed(l.sender, p)
    ensures var l' := Step(typeOf, node, p, l, SenderDoes(JoinOnly(p.k, p.id)));
            && Inv(node, p, unseen, l') && l'.tally == l.tally && l'.removals == l.removals
            && IsListed(l'.sender, p) && IsMember(l'.sender, p) && l'.sender.dead == l.sender.dead
            && KeysOf(l'.sender.store, Local(p.id)) == KeysOf(l.sender.store, Local(p.id)) + {p.k}
            && Joins(l'.sender.store.groups, p.k, Local(p.id)) == 1
  {
    var op := JoinOnly(p.k, p.id);
    StepKeepsInv(typeOf, node, p, unseen, l, SenderDoes(op));
    ListingChanges(typeOf, l.sender, op, p);
    MembershipLasts(typeOf, l.sender, op, p);
    assert GroupOk(l.sender.store, p.k);
    JoinKeeps(l.sender.store, p.k, p.id);
  }

  /** A last leave before its removal empties anything leaves the removal with a wrong list. */
  lemma LeavesLast(typeOf: ActorId -> TypeId, node: nat, p: Pair, l: Link)
    requires Inv(node, p, 0, l) && Joins(l.sender.store.groups, p.k, Local(p.id)) == 1
    requires l.tally == Tally(0, 0, 0, 0, 0, 0) && CountDue(l.removals, p, true) == 0
    ensures var l' := Step(typeOf, node, p, l, SenderDoes(LeaveOnce(p.k, p.id)));
            && Inv(node, p, 0, l') && l'.tally == l.tally && l'.removals == l.removals
            && !IsListed(l'.sender, p)
  {
    var op := LeaveOnce(p.k, p.id);
    StepKeepsInv(typeOf, node, p, 0, l, SenderDoes(op));
    ListingChanges(typeOf, l.sender, op, p);
  }

  /** The removal empties nothing of the pair, which then joins again; its farewell is out last. */
  lemma HollowFarewell(typeOf: ActorId -> TypeId, node: nat, p: Pair, l: Link)
    requires Inv(node, p, 0, l) && !IsListed(l.sender, p) && l.tally == Tally(0, 0, 0, 0, 0, 0)
    requires l.removals == [Removal(p.id, [p.k], false, false)]
    ensures var moves := [Empties(0)] + ([SenderDoes(JoinOnly(p.k, p.id))] + ([Farewell(0)] + []));
            && Possible(typeOf, node, p, l, moves)
            && var l' := Reached(typeOf, node, p, l, moves);
               IsMember(l'.sender, p) && Outlook(node, l', p) == 0 && l'.tally.hollow == 1
  {
    var l1 := Step(typeOf, node, p, l, Empties(0));
    StepKeepsInv(typeOf, node, p, 0, l, Empties(0));
    ListingChanges(typeOf, l.sender, ActorRemoved(p.id), p);
    assert l1.removals == [Removal(p.id, [p.k], true, false)];
    var l2 := Step(typeOf, node, p, l1, SenderDoes(JoinOnly(p.k, p.id)));
    JoinsOnce(typeOf, node, p, 0, l1);
    assert CountDue(l2.removals, p, true) == 0 by { assert l2.removals[..0] == []; }
    assert Outlook(node, l2, p) == 1;
    var l3 := Step(typeOf, node, p, l2, Farewell(0));
    EndAppend(PeerCount(node, l2, p), l2.channel, Left(p), p);
    assert Possible(typeOf, node, p, l3, []) && Reached(typeOf, node, p, l3, []) == l3;
    Onward(typeOf, node, p, l2, Farewell(0), []);
    Onward(typeOf, node, p, l1, SenderDoes(JoinOnly(p.k, p.id)), [Farewell(0)] + []);
    Onward(typeOf, node, p, l, Empties(0), [SenderDoes(JoinOnly(p.k, p.id))] + ([Farewell(0)] + []));
  }

  /**
   A member the peer will not have: the pair joins, its actor's removal lists it, the pair
   leaves, the removal finds nothing, the pair joins again, and the late farewell takes it away.
   */
  lemma OvertakenRemoval(typeOf: ActorId -> TypeId, node: nat, p: Pair) returns (moves: seq<Move>)
    ensures Possible(typeOf, node, p, Quiet(), moves)
    ensures var l := Reached(typeOf, node, p, Quiet(), moves);
            IsMember(l.sender, p) && Outlook(node, l, p) == 0 && l.tally.hollow == 1
  {
    QuietIsFresh(node, p);
    var join, leave := SenderDoes(JoinOnly(p.k, p.id)), SenderDoes(LeaveOnce(p.k, p.id));
    var l1 := Step(typeOf, node, p, Quiet(), join);
    JoinsOnce(typeOf, node, p, 0, Quiet());
    assert KeysOf(l1.sender.store, Local(p.id)) == {p.k};
    var l2 := Step(typeOf, node, p, l1, Lists(p.id, [p.k]));
    StepKeepsInv(typeOf, node, p, 0, l1, Lists(p.id, [p.k]));
    assert l2.removals == [Removal(p.id, [p.k], false, false)];
    assert CountDue(l2.removals, p, true) == 0 by { assert l2.removals[..0] == []; }
    var l3 := Step(typeOf, node, p, l2, leave);
    LeavesLast(typeOf, node, p, l2);
    HollowFarewell(typeOf, node, p, l3);
    moves := [Empties(0)] + ([SenderDoes(JoinOnly(p.k, p.id))] + ([Farewell(0)] + []));
    Onward(typeOf, node, p, l2, leave, moves);
    moves := [leave] + moves;
    Onward(typeOf, node, p, l1, Lists(p.id, [p.k]), moves);
    moves := [Lists(p.id, [p.k])] + moves;
    Onward(typeOf, node, p, Quiet(), join, moves);
    moves := [join] + moves;
  }

  lemma EmptiedUnlisted(typeOf: ActorId -> TypeId, node: nat, p: Pair, l: Link)
    requires Inv(node, p, 0, l) && IsListed(l.sender, p) && l.tally == Tally(0, 0, 0, 0, 0, 0)
    requires l.removals == [Removal(p.id, [], false, false)]
    ensures var l' := Step(typeOf, node, p, l, Empties(0));
            && !IsMember(l'.sender, p) && Outlook(node, l', p) == 1 && CountDue(l'.removals, p, true) == 0
            && l'.tally.missed == 1
  {
    var l' := Step(typeOf, node, p, l, Empties(0));
    StepKeepsInv(typeOf, node, p, 0, l, Empties(0));
    ListingChanges(typeOf, l.sender, ActorRemoved(p.id), p);
    assert GroupOk(l'.sender.store, p.k);
    assert l'.removals == [Removal(p.id, [], true, false)];
    assert CountDue(l'.removals, p, true) == 0 by { assert l'.removals[..0] == []; }
  }

  /**
   A non-member the peer keeps: the actor's removal lists nothing, the pair joins, and the
   removal empties the group without a farewell.
   */
  lemma MissedByRemoval(typeOf: ActorId -> TypeId, node: nat, p: Pair) returns (moves: seq<Move>)
    ensures Possible(typeOf, node, p, Quiet(), moves)
    ensures var l := Reached(typeOf, node, p, Quiet(), moves);
            !IsMember(l.sender, p) && Outlook(node, l, p) == 1 && Settled(p, l.(channel := [])) && l.tally.missed == 1
  {
    QuietIsFresh(node, p);
    var join := SenderDoes(JoinOnly(p.k, p.id));
    var l1 := Step(typeOf, node, p, Quiet(), Lists(p.id, []));
    StepKeepsInv(typeOf, node, p, 0, Quiet(), Lists(p.id, []));
    var l2 := Step(typeOf, node, p, l1, join);
    JoinsOnce(typeOf, node, p, 0, l1);
    assert l2.removals == [Removal(p.id, [], false, false)];
    var l3 := Step(typeOf, node, p, l2, Empties(0));
    EmptiedUnlisted(typeOf, node, p, l2);
    assert Possible(typeOf, node, p, l3, []) && Reached(typeOf, node, p, l3, []) == l3;
    Onward(typeOf, node, p, l2, Empties(0), []);
    Onward(typeOf, node, p, l1, join, [Empties(0)] + []);
    Onward(typeOf, node, p, Quiet(), Lists(p.id, []), [join] + ([Empties(0)] + []));
    moves := [Lists(p.id, [])] + ([join] + ([Empties(0)] + []));
  }

  /** Reading a group whose one member is dead leaves no trace of it. */
  lemma DeadGroupVanishes(s: Store, p: Pair, dead: set<ActorId>)
    requires s.groups == map[p.k := map[Local(p.id) := 1]] && s.remote == map[] && p.id in dead
    ensures var s' := Prune(s, p.k, dead); Local(p.id) !in At(s'.groups, p.k) && !Listed(s', Local(p.id), p.k)
  {
    assert Survivors(s.groups[p.k], dead) == map[];
    VacateKeeps(s.(groups := s.groups[p.k := map[]]), p.k);
  }

  /** The pair joins and its actor dies without having been removed. */
  lemma JoinsAndDies(typeOf: ActorId -> TypeId, node: nat, p: Pair) returns (l: Link)
    ensures var l1 := Step(typeOf, node, p, Quiet(), SenderDoes(JoinOnly(p.k, p.id)));
            l == Step(typeOf, node, p, l1, SenderDoes(Died(p.id)))
    ensures Inv(node, p, 0, l) && IsListed(l.sender, p) && p.id in l.sender.dead && l.removals == []
    ensures l.tally == Tally(0, 0, 0, 0, 0, 0)
    ensures l.sender.store.groups == map[p.k := map[Local(p.id) := 1]] && l.sender.store.remote == map[]
  {
    QuietIsFresh(node, p);
    var l1 := Step(typeOf, node, p, Quiet(), SenderDoes(JoinOnly(p.k, p.id)));
    JoinsOnce(typeOf, node, p, 0, Quiet());
    l := Step(typeOf, node, p, l1, SenderDoes(Died(p.id)));
    StepKeepsInv(typeOf, node, p, 0, l1, SenderDoes(Died(p.id)));
  }

  lemma ReadDropsDead(typeOf: ActorId -> TypeId, node: nat, p: Pair, l: Link)
    requires Inv(node, p, 0, l) && IsListed(l.sender, p) && p.id in l.sender.dead && l.removals == []
    requires l.tally == Tally(0, 0, 0, 0, 0, 0)
    requires l.sender.store.groups == map[p.k := map[Local(p.id) := 1]] && l.sender.store.remote == map[]
    ensures var l' := Step(typeOf, node, p, l, SenderDoes(LocalMembers(p.k)));
            !IsMember(l'.sender, p) && Outlook(node, l', p) == 1 && l'.removals == [] && l'.tally.surplus == 1
  {
    StepKeepsInv(typeOf, node, p, 0, l, SenderDoes(LocalMembers(p.k)));
    DeadGroupVanishes(l.sender.store, p, l.sender.dead);
  }

  /** A dead member dropped while its group was read: nobody tells the peer. */
  lemma SilentPrune(typeOf: ActorId -> TypeId, node: nat, p: Pair) returns (moves: seq<Move>)
    ensures Possible(typeOf, node, p, Quiet(), moves)
    ensures var l := Reached(typeOf, node, p, Quiet(), moves);
            !IsMember(l.sender, p) && Outlook(node, l, p) == 1 && l.removals == [] && l.tally.surplus == 1
  {
    var join, dies, read := SenderDoes(JoinOnly(p.k, p.id)), SenderDoes(Died(p.id)), SenderDoes(LocalMembers(p.k));
    var l1 := Step(typeOf, node, p, Quiet(), join);
    var l2 := JoinsAndDies(typeOf, node, p);
    ReadDropsDead(typeOf, node, p, l2);
    Onward(typeOf, node, p, l2, read, []);
    Onward(typeOf, node, p, l1, dies, [read] + []);
    Onward(typeOf, node, p, Quiet(), join, [dies] + ([read] + []));
    moves := [join] + ([dies] + ([read] + []));
  }

  /** A snapshot that finds the pair counted already, after a reconnection, counts it again. */
  lemma RepeatedSnapshot(typeOf: ActorId -> TypeId, node: nat, p: Pair, unseen: nat, l: Link, entries: seq<Pair>)
    requires Inv(node, p, unseen, l) && Enabled(node, l, SendSnapshot(entries)) && IsMember(l.sender, p)
    ensures var l' := Step(typeOf, node, p, l, SendSnapshot(entries));
            && Outlook(node, l', p) == Outlook(node, l, p) + 1
            && (Outlook(node, l, p) > 0 <==> l'.tally.surplus == l.tally.surplus + 1)
            && (Outlook(node, l, p) == 0 <==> l'.tally.repaired == l.tally.repaired + 1)
  {
    OccursOnce(entries, p);
    EndAppend(PeerCount(node, l, p), l.channel, Snapshot(entries), p);
    assert GroupOk(l.sender.store, p.k);
  }
}
