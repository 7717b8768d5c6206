/**
 Replication of process groups to a peer (concurrency/src/pg.rs:232-251, 278-301, 429-480
 and 484-549). Joins and leaves publish while they hold the store lock: one `Joined` per
 join, one `Left` when a join count reaches zero. Removing an actor takes three kinds of
 steps: it lists the actor's groups under a read lock, empties them under a write lock, and
 then, without any lock, publishes one `Left` per listed group. A new connection begins with
 a snapshot of the current members. Events travel in order and none is lost.

 Everything is stated for one watched group and actor, which stand for all of them.
 */
module PgReplication {
  import opened Reasons
  import opened ProcessGroups
  import opened ProcessGroupRuns

  /**
   A removal in progress: the groups it has still to announce, whether it has emptied them,
   and whether the watched pair was listed by it and still indexed when it did.
   */
  datatype Removal = Removal(id: ActorId, leaves: seq<Key>, emptied: bool, backed: bool)

  /**
   History of the watched pair; no step of sender or peer reads it.
   `surplus`: joins the peer will not take back, from repeated joins, repeated snapshots, and
   silent losses of the index entry. `missed`: the same from removals that had not listed the
   pair. `missing`: by how much the peer has too few. `hollow`: farewells published for a pair
   that its removal no longer found. `repaired`: snapshots that gave the peer what it lacked.
   `ignored`: announcements that found nothing at the peer.
   */
  datatype Tally = Tally(surplus: nat, missed: nat, missing: nat, hollow: nat, repaired: nat, ignored: nat)

  datatype Link = Link(sender: World, peer: World, channel: seq<Event<Pair>>, removals: seq<Removal>, tally: Tally)

  datatype Move =
    | SenderDoes(op: Operation)
    | Lists(id: ActorId, leaves: seq<Key>)
    | Empties(r: nat)
    | Farewell(r: nat)
    | SendSnapshot(entries: seq<Pair>)
    | Deliver
    | PeerDoes(op: Operation)

  // ----- what the sender publishes -----

  ghost predicate IsListed(w: World, p: Pair) {
    Listed(w.store, Local(p.id), p.k)
  }

  predicate IsJoin(op: Operation, p: Pair) {
    (op.JoinOnly? || op.JoinTyped?) && op.k == p.k && op.id == p.id
  }

  function Published(w: World, op: Operation): seq<Event<Pair>> {
    match op
    case JoinOnly(k, id) => [Joined(Pair(k, id))]
    case JoinTyped(k, id) => [Joined(Pair(k, id))]
    case LeaveOnce(k, id) => if Joins(w.store.groups, k, Local(id)) == 1 then [Left(Pair(k, id))] else []
    case _ => []
  }

  // ----- what the peer will have counted -----

  function Occurs(entries: seq<Pair>, p: Pair): nat {
    if entries == [] then 0 else Occurs(entries[..|entries| - 1], p) + Bit(entries[|entries| - 1] == p)
  }

  /** The peer's count of the pair after one more event; it never goes below zero. */
  function Counted(c: nat, e: Event<Pair>, p: Pair): nat {
    match e
    case Joined(q) => if q == p then c + 1 else c
    case Left(q) => if q == p && c > 0 then c - 1 else c
    case Snapshot(entries) => c + Occurs(entries, p)
  }

  /** The count once all these events have arrived. */
  function End(c: nat, events: seq<Event<Pair>>, p: Pair): nat
    decreases |events|
  {
    if events == [] then c else End(Counted(c, events[0], p), events[1..], p)
  }

  predicate FindsNothing(c: nat, e: Event<Pair>, p: Pair) {
    e == Left(p) && c == 0
  }

  /** How many of these events announce the end of a pair the peer does not have. */
  function Idle(c: nat, events: seq<Event<Pair>>, p: Pair): nat
    decreases |events|
  {
    if events == [] then 0
    else Idle(Counted(c, events[0], p), events[1..], p) + Bit(FindsNothing(c, events[0], p))
  }

  lemma {:induction false} EndAppend(c: nat, events: seq<Event<Pair>>, e: Event<Pair>, p: Pair)
    ensures End(c, events + [e], p) == Counted(End(c, events, p), e, p)
    ensures Idle(c, events + [e], p) ==
            Idle(c, events, p) + Bit(FindsNothing(End(c, events, p), e, p))
    decreases |events|
  {
    var all := events + [e];
    if events == [] {
      assert all[1..] == [];
    } else {
      assert all[1..] == events[1..] + [e];
      EndAppend(Counted(c, events[0], p), events[1..], e, p);
    }
  }

  // ----- steps -----

  /** The sender's local actor as the peer knows it. */
  function Seen(node: nat, p: Pair): Member {
    Member(p.k, Remote(node, p.id))
  }

  function AllSeen(node: nat, entries: seq<Pair>): seq<Member> {
    seq(|entries|, i requires 0 <= i < |entries| => Seen(node, entries[i]))
  }

  function EventSeen(node: nat, e: Event<Pair>): Event<Member> {
    match e
    case Joined(p) => Joined(Seen(node, p))
    case Left(p) => Left(Seen(node, p))
    case Snapshot(entries) => Snapshot(AllSeen(node, entries))
  }

  function Arrive(node: nat, w: World, e: Event<Pair>): World {
    w.(store := ApplyEvent(w.store, EventSeen(node, e)))
  }

  function PeerCount(node: nat, l: Link, p: Pair): nat {
    Joins(l.peer.store.remote, p.k, Remote(node, p.id))
  }

  /** What the peer will have when everything on its way has arrived. */
  function Outlook(node: nat, l: Link, p: Pair): nat {
    End(PeerCount(node, l, p), l.channel, p)
  }

  /** A farewell for the pair is still to come from this removal. */
  predicate Waiting(r: Removal, p: Pair) {
    r.id == p.id && p.k in r.leaves
  }

  ghost predicate NoDuplicates(leaves: seq<Key>) {
    forall i, j :: 0 <= i < j < |leaves| ==> leaves[i] != leaves[j]
  }

  ghost predicate Enabled(node: nat, l: Link, m: Move) {
    match m
    case SenderDoes(op) => !op.ActorRemoved?
    case Lists(id, leaves) =>
      NoDuplicates(leaves) && forall k :: k in leaves <==> k in KeysOf(l.sender.store, Local(id))
    case Empties(r) => r < |l.removals| && !l.removals[r].emptied
    case Farewell(r) => r < |l.removals| && l.removals[r].emptied && l.removals[r].leaves != []
    case SendSnapshot(entries) =>
      && (forall i, j :: 0 <= i < j < |entries| ==> entries[i] != entries[j])
      && (forall q :: q in entries <==> IsMember(l.sender, q))
    case Deliver => l.channel != []
    case PeerDoes(op) => (op.PeerJoined? || op.PeerLeft?) ==> op.a.Local? || op.a.node != node
  }

  /**
   What the peer will never take back: a join of a pair that is indexed already, or the loss
   of the index entry without a word (a dead member dropped while its group was read).
   */
  ghost function Excess(typeOf: ActorId -> TypeId, w: World, op: Operation, p: Pair): nat {
    if IsJoin(op, p) then if IsListed(w, p) then 1 else 0
    else if IsListed(w, p) && !IsListed(Apply(typeOf, w, op), p) && !IsLastLeave(w, op, p) then 1
    else 0
  }

  /** The end of the pair is announced while the peer stands to have `outlook`. */
  function Announced(t: Tally, outlook: nat, backed: bool): Tally {
    if backed then if outlook == 0 && t.missing > 0 then t.(missing := t.missing - 1) else t
    else t.(hollow := t.hollow + 1, missing := t.missing + if outlook > 0 then 1 else 0)
  }

  function Greeted(t: Tally, outlook: nat): Tally {
    if outlook == 0 && t.missing > 0 then t.(missing := t.missing - 1, repaired := t.repaired + 1)
    else t.(surplus := t.surplus + 1)
  }

  ghost function SenderStep(typeOf: ActorId -> TypeId, node: nat, p: Pair, l: Link, op: Operation): Link {
    var t := l.tally.(surplus := l.tally.surplus + Excess(typeOf, l.sender, op, p));
    l.(sender := Apply(typeOf, l.sender, op),
       channel := l.channel + Published(l.sender, op),
       tally := if IsLastLeave(l.sender, op, p) then Announced(t, Outlook(node, l, p), true) else t)
  }

  ghost function EmptyStep(typeOf: ActorId -> TypeId, p: Pair, l: Link, r: nat): Link
    requires r < |l.removals|
  {
    var removal := l.removals[r];
    var sender := Apply(typeOf, l.sender, ActorRemoved(removal.id));
    var backed := IsListed(l.sender, p) && Waiting(removal, p);
    var lost := if IsListed(l.sender, p) && !IsListed(sender, p) && !backed then 1 else 0;
    l.(sender := sender,
       removals := l.removals[r := removal.(emptied := true, backed := backed)],
       tally := if removal.id == p.id then l.tally.(missed := l.tally.missed + lost)
                else l.tally.(surplus := l.tally.surplus + lost))
  }

  function FarewellStep(node: nat, p: Pair, l: Link, r: nat): Link
    requires r < |l.removals| && l.removals[r].leaves != []
  {
    var removal := l.removals[r];
    var q := Pair(removal.leaves[0], removal.id);
    l.(channel := l.channel + [Left(q)],
       removals := l.removals[r := removal.(leaves := removal.leaves[1..])],
       tally := if q == p then Announced(l.tally, Outlook(node, l, p), removal.backed) else l.tally)
  }

  ghost function Step(typeOf: ActorId -> TypeId, node: nat, p: Pair, l: Link, m: Move): Link
    requires Enabled(node, l, m)
  {
    match m
    case SenderDoes(op) => SenderStep(typeOf, node, p, l, op)
    case Lists(id, leaves) => l.(removals := l.removals + [Removal(id, leaves, false, false)])
    case Empties(r) => EmptyStep(typeOf, p, l, r)
    case Farewell(r) => FarewellStep(node, p, l, r)
    case SendSnapshot(entries) =>
      l.(channel := l.channel + [Snapshot(entries)],
         tally := if IsMember(l.sender, p) then Greeted(l.tally, Outlook(node, l, p)) else l.tally)
    case Deliver =>
      l.(peer := Arrive(node, l.peer, l.channel[0]), channel := l.channel[1..],
         tally := if FindsNothing(PeerCount(node, l, p), l.channel[0], p)
                  then l.tally.(ignored := l.tally.ignored + 1) else l.tally)
    case PeerDoes(op) => l.(peer := Apply(typeOf, l.peer, op))
  }

  ghost predicate Possible(typeOf: ActorId -> TypeId, node: nat, p: Pair, l: Link, moves: seq<Move>)
    decreases |moves|
  {
    moves == [] ||
    (Enabled(node, l, moves[0]) && Possible(typeOf, node, p, Step(typeOf, node, p, l, moves[0]), moves[1..]))
  }

  ghost function Reached(typeOf: ActorId -> TypeId, node: nat, p: Pair, l: Link, moves: seq<Move>): Link
    requires Possible(typeOf, node, p, l, moves)
    decreases |moves|
  {
    if moves == [] then l else Reached(typeOf, node, p, Step(typeOf, node, p, l, moves[0]), moves[1..])
  }

  function Bit(b: bool): nat {
    if b then 1 else 0
  }

  /** A peer that knows nothing of the sender's groups yet. */
  ghost predicate Fresh(node: nat, p: Pair, l: Link) {
    && Consistent(l.sender.store) && Consistent(l.peer.store) && PeerCount(node, l, p) == 0
    && l.channel == [] && l.removals == []
    && l.tally == Tally(0, 0, Bit(IsListed(l.sender, p)), 0, 0, 0)
  }

  // ----- the invariant -----

  /** Farewells for the pair still to come from removals that have emptied its groups. */
  function CountDue(removals: seq<Removal>, p: Pair, backed: bool): nat {
    if removals == [] then 0
    else
      var last := removals[|removals| - 1];
      CountDue(removals[..|removals| - 1], p, backed) + Bit(IsDue(last, p, backed))
  }

  predicate IsDue(r: Removal, p: Pair, backed: bool) {
    r.emptied && r.backed == backed && Waiting(r, p)
  }

  lemma {:induction false} CountUpdate(removals: seq<Removal>, i: nat, r: Removal, p: Pair, backed: bool)
    requires i < |removals|
    ensures CountDue(removals[i := r], p, backed) + Bit(IsDue(removals[i], p, backed)) ==
            CountDue(removals, p, backed) + Bit(IsDue(r, p, backed))
  {
    var n := |removals| - 1;
    if i < n {
      CountUpdate(removals[..n], i, r, p, backed);
      assert removals[i := r][..n] == removals[..n][i := r];
    } else {
      assert removals[i := r][..n] == removals[..n];
    }
  }

  lemma CountPush(removals: seq<Removal>, r: Removal, p: Pair, backed: bool)
    ensures CountDue(removals + [r], p, backed) == CountDue(removals, p, backed) + Bit(IsDue(r, p, backed))
  {
    assert (removals + [r])[..|removals|] == removals;
  }

  ghost predicate RemovalOk(l: Link, r: nat)
    requires r < |l.removals|
  {
    NoDuplicates(l.removals[r].leaves)
  }

  /** What the peer stands to have, and lacks, against what is indexed or owed at the sender. */
  ghost predicate Balanced(node: nat, p: Pair, l: Link) {
    Outlook(node, l, p) + l.tally.missing ==
    l.tally.surplus + l.tally.missed + Bit(IsListed(l.sender, p)) + CountDue(l.removals, p, true)
  }

  /** Where hollow farewells, and what the peer lacked from the start, have gone. */
  ghost predicate Explained(node: nat, p: Pair, unseen: nat, l: Link) {
    l.tally.ignored + Idle(PeerCount(node, l, p), l.channel, p) + l.tally.missing + l.tally.repaired ==
    l.tally.hollow + unseen
  }

  ghost predicate Inv(node: nat, p: Pair, unseen: nat, l: Link) {
    && Consistent(l.sender.store) && Consistent(l.peer.store)
    && Balanced(node, p, l) && Explained(node, p, unseen, l)
    && forall r: nat :: r < |l.removals| ==> RemovalOk(l, r)
  }

  // ----- how the index entry of the pair changes -----

  /** Joins list a pair, its last leave and its removal unlist it, nothing else lists anything. */
  lemma ListingChanges(typeOf: ActorId -> TypeId, w: World, op: Operation, p: Pair)
    requires Consistent(w.store)
    ensures var w' := Apply(typeOf, w, op);
            && (IsJoin(op, p) ==> IsListed(w', p))
            && (!IsJoin(op, p) && IsListed(w', p) ==> IsListed(w, p))
            && (IsLastLeave(w, op, p) ==> IsListed(w, p) && !IsListed(w', p))
            && (op == ActorRemoved(p.id) ==> !IsListed(w', p))
  {
    assert GroupOk(w.store, p.k);
    match op
    case LeaveOnce(k, id) => LeaveListing(w.store, k, Local(id), p);
    case LocalMembers(k) => PruneListing(w.store, k, w.dead, p);
    case AllMembers(k) => PruneListing(w.store, k, w.dead, p);
    case PeerLeft(k, a) => RemoteLeaveListing(w.store, k, a, p);
    case _ =>
  }

  lemma LeaveListing(s: Store, k: Key, a: Address, p: Pair)
    ensures Listed(Leave(s, k, a), Local(p.id), p.k) ==> Listed(s, Local(p.id), p.k)
    ensures Joins(s.groups, k, a) == 1 && a == Local(p.id) && k == p.k ==> !Listed(Leave(s, k, a), a, k)
  {
    VacateKeeps(s.(groups := s.groups[k := At(s.groups, k) - {a}]), k);
  }

  lemma PruneListing(s: Store, k: Key, dead: set<ActorId>, p: Pair)
    ensures Listed(Prune(s, k, dead), Local(p.id), p.k) ==> Listed(s, Local(p.id), p.k)
    ensures Listed(PruneAll(s, k, dead), Local(p.id), p.k) ==> Listed(s, Local(p.id), p.k)
  {
    var s1 := if k in s.groups then s.(groups := s.groups[k := Survivors(s.groups[k], dead)]) else s;
    VacateKeeps(s1, k);
  }

  lemma RemoteLeaveListing(s: Store, k: Key, a: Address, p: Pair)
    ensures Listed(RemoteLeave(s, k, a), Local(p.id), p.k) ==> Listed(s, Local(p.id), p.k)
  {
    if a.Remote? && a in At(s.remote, k) {
      var left := if s.remote[k][a] <= 1 then s.remote[k] - {a} else s.remote[k][a := s.remote[k][a] - 1];
      VacateKeeps(s.(remote := s.remote[k := left]), k);
    }
  }

  // ----- the peer -----

  /** The peer's own business leaves what it has counted for the sender alone. */
  lemma PeerUntouched(typeOf: ActorId -> TypeId, node: nat, w: World, op: Operation, p: Pair)
    requires Consistent(w.store)
    requires (op.PeerJoined? || op.PeerLeft?) ==> op.a.Local? || op.a.node != node
    ensures Joins(Apply(typeOf, w, op).store.remote, p.k, Remote(node, p.id)) ==
            Joins(w.store.remote, p.k, Remote(node, p.id))
  {
    match op
    case LeaveOnce(k, id) => if Joins(w.store.groups, k, Local(id)) == 1 { ExpelKeeps(w.store, k, Local(id)); }
    case ActorRemoved(id) => RemoveActorKeeps(w.store, id);
    case LocalMembers(k) => PruneRemote(w.store, k, w.dead, p.k);
    case AllMembers(k) => PruneRemote(w.store, k, w.dead, p.k);
    case PeerJoined(k, a) => RemoteJoinKeeps(w.store, k, a);
    case PeerLeft(k, a) => RemoteLeaveCounts(w.store, k, a);
    case _ =>
  }

  lemma PruneRemote(s: Store, k: Key, dead: set<ActorId>, k': Key)
    ensures At(Prune(s, k, dead).remote, k') == At(PruneAll(s, k, dead).remote, k') == At(s.remote, k')
  {
    VacateKeeps(if k in s.groups then s.(groups := s.groups[k := Survivors(s.groups[k], dead)]) else s, k);
  }

  lemma {:induction false} EntriesCount(node: nat, s: Store, entries: seq<Pair>, p: Pair)
    requires Consistent(s)
    ensures var s' := ApplyEntries(s, AllSeen(node, entries));
            && Consistent(s')
            && Joins(s'.remote, p.k, Remote(node, p.id)) ==
                 Joins(s.remote, p.k, Remote(node, p.id)) + Occurs(entries, p)
    decreases |entries|
  {
    if entries != [] {
      var n := |entries| - 1;
      EntriesCount(node, s, entries[..n], p);
      assert AllSeen(node, entries)[..n] == AllSeen(node, entries[..n]);
      RemoteJoinKeeps(ApplyEntries(s, AllSeen(node, entries[..n])), entries[n].k, Remote(node, entries[n].id));
    }
  }

  lemma ArriveCounts(node: nat, w: World, e: Event<Pair>, p: Pair)
    requires Consistent(w.store)
    ensures Consistent(Arrive(node, w, e).store)
    ensures Joins(Arrive(node, w, e).store.remote, p.k, Remote(node, p.id)) ==
            Counted(Joins(w.store.remote, p.k, Remote(node, p.id)), e, p)
  {
    match e
    case Joined(q) => RemoteJoinKeeps(w.store, q.k, Remote(node, q.id));
    case Left(q) =>
      RemoteLeaveKeeps(w.store, q.k, Remote(node, q.id));
      RemoteLeaveCounts(w.store, q.k, Remote(node, q.id));
    case Snapshot(entries) => EntriesCount(node, w.store, entries, p);
  }

  lemma {:induction false} OccursOnce(entries: seq<Pair>, p: Pair)
    requires forall i, j :: 0 <= i < j < |entries| ==> entries[i] != entries[j]
    ensures Occurs(entries, p) == Bit(p in entries)
    decreases |entries|
  {
    if entries != [] {
      var n := |entries| - 1;
      OccursOnce(entries[..n], p);
      assert p in entries <==> p in entries[..n] || p == entries[n];
    }
  }

  // ----- every step keeps the balance -----

  /** At most one event, which concerns the pair exactly when it joins or leaves for the last time. */
  lemma PublishedAbout(w: World, op: Operation, p: Pair)
    ensures IsJoin(op, p) ==> Published(w, op) == [Joined(p)]
    ensures IsLastLeave(w, op, p) ==> Published(w, op) == [Left(p)]
    ensures Published(w, op) == [] ||
            (|Published(w, op)| == 1 && (Published(w, op)[0].Joined? || Published(w, op)[0].Left?)
             && (Published(w, op)[0].who == p <==> IsJoin(op, p) || IsLastLeave(w, op, p)))
  {
  }

  lemma PublishedEnd(c: nat, events: seq<Event<Pair>>, w: World, op: Operation, p: Pair)
    ensures var e := End(c, events, p);
            && End(c, events + Published(w, op), p) ==
                 (if IsJoin(op, p) then e + 1 else if IsLastLeave(w, op, p) && e > 0 then e - 1 else e)
            && Idle(c, events + Published(w, op), p) ==
                 Idle(c, events, p) + Bit(IsLastLeave(w, op, p) && e == 0)
  {
    PublishedAbout(w, op, p);
    if Published(w, op) == [] {
      assert events + Published(w, op) == events;
    } else {
      assert Published(w, op) == [Published(w, op)[0]];
      EndAppend(c, events, Published(w, op)[0], p);
    }
  }

  lemma RemovalsKept(l: Link, l': Link)
    requires (forall r: nat :: r < |l.removals| ==> RemovalOk(l, r)) && l'.removals == l.removals
    ensures forall r: nat :: r < |l'.removals| ==> RemovalOk(l', r)
  {
    forall r: nat | r < |l'.removals| ensures RemovalOk(l', r) { assert RemovalOk(l, r); }
  }

  lemma SenderKeepsInv(typeOf: ActorId -> TypeId, node: nat, p: Pair, unseen: nat, l: Link, op: Operation)
    requires Inv(node, p, unseen, l) && !op.ActorRemoved?
    ensures Inv(node, p, unseen, SenderStep(typeOf, node, p, l, op))
  {
    ApplyConsistent(typeOf, l.sender, op);
    ListingChanges(typeOf, l.sender, op, p);
    PublishedEnd(PeerCount(node, l, p), l.channel, l.sender, op, p);
    RemovalsKept(l, SenderStep(typeOf, node, p, l, op));
  }

  lemma ListsKeepsInv(node: nat, p: Pair, unseen: nat, l: Link, r: Removal)
    requires Inv(node, p, unseen, l) && !r.emptied && NoDuplicates(r.leaves)
    ensures Inv(node, p, unseen, l.(removals := l.removals + [r]))
  {
    var l' := l.(removals := l.removals + [r]);
    CountPush(l.removals, r, p, true);
    forall i: nat | i < |l'.removals| ensures RemovalOk(l', i) {
      assert i < |l.removals| ==> RemovalOk(l, i);
    }
  }

  lemma EmptiesKeepsInv(typeOf: ActorId -> TypeId, node: nat, p: Pair, unseen: nat, l: Link, r: nat)
    requires Inv(node, p, unseen, l) && Enabled(node, l, Empties(r))
    ensures Inv(node, p, unseen, EmptyStep(typeOf, p, l, r))
  {
    var l' := EmptyStep(typeOf, p, l, r);
    ApplyConsistent(typeOf, l.sender, ActorRemoved(l.removals[r].id));
    ListingChanges(typeOf, l.sender, ActorRemoved(l.removals[r].id), p);
    CountUpdate(l.removals, r, l'.removals[r], p, true);
    forall i: nat | i < |l'.removals| ensures RemovalOk(l', i) { assert RemovalOk(l, i); }
  }

  /** Once its farewell is out, a removal owes the pair nothing more. */
  lemma SaidFarewell(removal: Removal, p: Pair)
    requires removal.leaves != [] && NoDuplicates(removal.leaves)
    ensures var rest := removal.(leaves := removal.leaves[1..]);
            && NoDuplicates(rest.leaves)
            && (Pair(removal.leaves[0], removal.id) == p ==> Waiting(removal, p) && !Waiting(rest, p))
            && (Pair(removal.leaves[0], removal.id) != p ==> (Waiting(removal, p) <==> Waiting(rest, p)))
  {
    assert removal.leaves == [removal.leaves[0]] + removal.leaves[1..];
  }

  lemma FarewellKeepsInv(node: nat, p: Pair, unseen: nat, l: Link, r: nat)
    requires Inv(node, p, unseen, l) && Enabled(node, l, Farewell(r))
    ensures Inv(node, p, unseen, FarewellStep(node, p, l, r))
  {
    var l' := FarewellStep(node, p, l, r);
    var removal := l.removals[r];
    assert RemovalOk(l, r);
    SaidFarewell(removal, p);
    CountUpdate(l.removals, r, l'.removals[r], p, true);
    EndAppend(PeerCount(node, l, p), l.channel, Left(Pair(removal.leaves[0], removal.id)), p);
    forall i: nat | i < |l'.removals| ensures RemovalOk(l', i) { assert RemovalOk(l, i); }
  }

  lemma SnapshotKeepsInv(typeOf: ActorId -> TypeId, node: nat, p: Pair, unseen: nat, l: Link, entries: seq<Pair>)
    requires Inv(node, p, unseen, l) && Enabled(node, l, SendSnapshot(entries))
    ensures Inv(node, p, unseen, Step(typeOf, node, p, l, SendSnapshot(entries)))
  {
    OccursOnce(entries, p);
    EndAppend(PeerCount(node, l, p), l.channel, Snapshot(entries), p);
    assert GroupOk(l.sender.store, p.k);
    RemovalsKept(l, Step(typeOf, node, p, l, SendSnapshot(entries)));
  }

  lemma StepKeepsInv(typeOf: ActorId -> TypeId, node: nat, p: Pair, unseen: nat, l: Link, m: Move)
    requires Inv(node, p, unseen, l) && Enabled(node, l, m)
    ensures Inv(node, p, unseen, Step(typeOf, node, p, l, m))
  {
    match m
    case SenderDoes(op) => SenderKeepsInv(typeOf, node, p, unseen, l, op);
    case Lists(id, leaves) => ListsKeepsInv(node, p, unseen, l, Removal(id, leaves, false, false));
    case Empties(r) => EmptiesKeepsInv(typeOf, node, p, unseen, l, r);
    case Farewell(r) => FarewellKeepsInv(node, p, unseen, l, r);
    case SendSnapshot(entries) => SnapshotKeepsInv(typeOf, node, p, unseen, l, entries);
    case Deliver =>
      ArriveCounts(node, l.peer, l.channel[0], p);
      RemovalsKept(l, Step(typeOf, node, p, l, m));
    case PeerDoes(op) =>
      ApplyConsistent(typeOf, l.peer, op);
      PeerUntouched(typeOf, node, l.peer, op, p);
      RemovalsKept(l, Step(typeOf, node, p, l, m));
  }

  lemma {:induction false} RunKeepsInv(
      typeOf: ActorId -> TypeId, node: nat, p: Pair, unseen: nat, l: Link, moves: seq<Move>)
    requires Inv(node, p, unseen, l) && Possible(typeOf, node, p, l, moves)
    ensures Inv(node, p, unseen, Reached(typeOf, node, p, l, moves))
    decreases |moves|
  {
    if moves != [] {
      StepKeepsInv(typeOf, node, p, unseen, l, moves[0]);
      RunKeepsInv(typeOf, node, p, unseen, Step(typeOf, node, p, l, moves[0]), moves[1..]);
    }
  }

  lemma FreshInv(node: nat, p: Pair, l: Link)
    requires Fresh(node, p, l)
    ensures Inv(node, p, Bit(IsListed(l.sender, p)), l)
  {
  }
}
