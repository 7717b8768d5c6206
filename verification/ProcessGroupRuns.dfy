/**
 Every sequence of process-group operations (concurrency/src/pg.rs:232-375 and 407-549): the
 store stays consistent, memberships end only by their own leave, removal or death, and all
 operations but joins keep the typed cache in agreement with the members.
 */
module ProcessGroupRuns {
  import opened Reasons
  import opened ProcessGroups

  /** The store together with the actors that have died so far. */
  datatype World = World(store: Store, dead: set<ActorId>)

  datatype Operation =
    | JoinOnly(k: Key, id: ActorId)       // the untyped join
    | CacheOnly(k: Key, id: ActorId)      // the second half of a typed join
    | JoinTyped(k: Key, id: ActorId)
    | LeaveOnce(k: Key, id: ActorId)
    | ActorRemoved(id: ActorId)
    | LocalMembers(k: Key)
    | AllMembers(k: Key)
    | PeerJoined(k: Key, a: Address)
    | PeerLeft(k: Key, a: Address)
    | Died(id: ActorId)

  function Apply(typeOf: ActorId -> TypeId, w: World, op: Operation): World {
    match op
    case JoinOnly(k, id) => w.(store := Join(w.store, k, Local(id)))
    case CacheOnly(k, id) => w.(store := TypedJoin(w.store, k, typeOf(id), Local(id)))
    case JoinTyped(k, id) => w.(store := TypedJoin(Join(w.store, k, Local(id)), k, typeOf(id), Local(id)))
    case LeaveOnce(k, id) => w.(store := Leave(w.store, k, Local(id)))
    case ActorRemoved(id) => w.(store := RemoveActor(w.store, Local(id)))
    case LocalMembers(k) => w.(store := Prune(w.store, k, w.dead))
    case AllMembers(k) => w.(store := PruneAll(w.store, k, w.dead))
    case PeerJoined(k, a) => w.(store := RemoteJoin(w.store, k, a))
    case PeerLeft(k, a) => w.(store := RemoteLeave(w.store, k, a))
    case Died(id) => w.(dead := w.dead + {id})
  }

  function After(typeOf: ActorId -> TypeId, w: World, ops: seq<Operation>): World
    decreases |ops|
  {
    if ops == [] then w else After(typeOf, Apply(typeOf, w, ops[0]), ops[1..])
  }

  lemma ApplyConsistent(typeOf: ActorId -> TypeId, w: World, op: Operation)
    requires Consistent(w.store)
    ensures Consistent(Apply(typeOf, w, op).store)
  {
    match op
    case JoinOnly(k, id) => JoinKeeps(w.store, k, id);
    case CacheOnly(k, id) => TypedJoinKeeps(w.store, k, typeOf(id), Local(id));
    case JoinTyped(k, id) =>
      JoinKeeps(w.store, k, id);
      TypedJoinKeeps(Join(w.store, k, Local(id)), k, typeOf(id), Local(id));
    case LeaveOnce(k, id) => LeaveKeeps(w.store, k, Local(id));
    case ActorRemoved(id) => RemoveActorConsistent(w.store, Local(id));
    case LocalMembers(k) => PruneKeeps(w.store, k, w.dead);
    case AllMembers(k) => PruneKeeps(w.store, k, w.dead);
    case PeerJoined(k, a) => RemoteJoinKeeps(w.store, k, a);
    case PeerLeft(k, a) => RemoteLeaveKeeps(w.store, k, a);
    case Died(_) =>
  }

  /** Every store an arbitrary mix of operations can reach is consistent. */
  lemma {:induction false} AlwaysConsistent(typeOf: ActorId -> TypeId, w: World, ops: seq<Operation>)
    requires Consistent(w.store)
    ensures Consistent(After(typeOf, w, ops).store)
    decreases |ops|
  {
    if ops != [] {
      ApplyConsistent(typeOf, w, ops[0]);
      AlwaysConsistent(typeOf, Apply(typeOf, w, ops[0]), ops[1..]);
    }
  }

  // ----- membership -----

  /** A group and a local actor. */
  datatype Pair = Pair(k: Key, id: ActorId)

  predicate IsMember(w: World, p: Pair) {
    Local(p.id) in At(w.store.groups, p.k)
  }

  /** The leave that ends a membership. */
  predicate IsLastLeave(w: World, op: Operation, p: Pair) {
    op == LeaveOnce(p.k, p.id) && Joins(w.store.groups, p.k, Local(p.id)) == 1
  }

  /** Does this operation end the membership: its last leave, or the removal of its actor? */
  predicate Ends(w: World, op: Operation, p: Pair) {
    IsLastLeave(w, op, p) || op == ActorRemoved(p.id)
  }

  /** Only its own last leave or removal, or its death, ends a membership. */
  lemma MembershipLasts(typeOf: ActorId -> TypeId, w: World, op: Operation, p: Pair)
    requires Consistent(w.store)
    ensures IsMember(w, p) && p.id !in w.dead && !Ends(w, op, p) ==> IsMember(Apply(typeOf, w, op), p)
    ensures op == JoinOnly(p.k, p.id) || op == JoinTyped(p.k, p.id) ==> IsMember(Apply(typeOf, w, op), p)
  {
    var a := Local(p.id);
    assert GroupOk(w.store, p.k);
    ApplyConsistent(typeOf, w, op);
    var s' := Apply(typeOf, w, op).store;
    assert GroupOk(s', p.k);
    assert IsMember(w, p) ==> Joins(w.store.groups, p.k, a) >= 1;
    assert Joins(s'.groups, p.k, a) >= 1 ==> a in At(s'.groups, p.k);
    match op
    case JoinOnly(k', id') => JoinKeeps(w.store, k', id');
    case JoinTyped(k', id') => JoinKeeps(w.store, k', id');
    case LeaveOnce(k', id') => LeaveKeeps(w.store, k', Local(id'));
    case ActorRemoved(id') => RemoveActorKeeps(w.store, id');
    case LocalMembers(k') => PruneKeeps(w.store, k', w.dead);
    case AllMembers(k') => PruneKeeps(w.store, k', w.dead);
    case PeerLeft(k', b) => RemoteLeaveKeeps(w.store, k', b);
    case _ =>
  }

  // ----- the store as counters -----

  /** The join count of one pair after an operation, from its count before and whether its actor is dead. */
  function LocalCount(n: nat, dead: bool, op: Operation, p: Pair): nat {
    match op
    case JoinOnly(k, id) => if Pair(k, id) == p then n + 1 else n
    case JoinTyped(k, id) => if Pair(k, id) == p then n + 1 else n
    case LeaveOnce(k, id) => if Pair(k, id) == p && n > 0 then n - 1 else n
    case ActorRemoved(id) => if id == p.id then 0 else n
    case LocalMembers(k) => if k == p.k && dead then 0 else n
    case AllMembers(k) => if k == p.k && dead then 0 else n
    case _ => n
  }

  function LocalCounts(n: nat, dead: bool, ops: seq<Operation>, p: Pair): nat
    decreases |ops|
  {
    if ops == [] then n
    else LocalCounts(LocalCount(n, dead, ops[0], p), dead || ops[0] == Died(p.id), ops[1..], p)
  }

  lemma StepCounts(typeOf: ActorId -> TypeId, w: World, op: Operation, p: Pair)
    requires Consistent(w.store)
    ensures var w' := Apply(typeOf, w, op);
            && Joins(w'.store.groups, p.k, Local(p.id)) ==
                 LocalCount(Joins(w.store.groups, p.k, Local(p.id)), p.id in w.dead, op, p)
            && (p.id in w'.dead <==> p.id in w.dead || op == Died(p.id))
  {
    match op
    case JoinOnly(k, id) => JoinKeeps(w.store, k, id);
    case JoinTyped(k, id) => JoinKeeps(w.store, k, id);
    case LeaveOnce(k, id) => LeaveKeeps(w.store, k, Local(id));
    case ActorRemoved(id) => RemoveActorKeeps(w.store, id);
    case LocalMembers(k) => PruneKeeps(w.store, k, w.dead);
    case AllMembers(k) => PruneKeeps(w.store, k, w.dead);
    case PeerLeft(k, a) => RemoteLeaveKeeps(w.store, k, a);
    case _ =>
  }

  /**
   Over every sequence of operations, a pair's join count is what a single counter makes of
   the operations that concern it, and the pair is a member exactly while it is positive.
   */
  lemma {:induction false} MembersExactly(typeOf: ActorId -> TypeId, w: World, ops: seq<Operation>, p: Pair)
    requires Consistent(w.store)
    ensures var w' := After(typeOf, w, ops);
            && Joins(w'.store.groups, p.k, Local(p.id)) ==
                 LocalCounts(Joins(w.store.groups, p.k, Local(p.id)), p.id in w.dead, ops, p)
            && (IsMember(w', p) <==> Joins(w'.store.groups, p.k, Local(p.id)) > 0)
    decreases |ops|
  {
    if ops == [] {
      assert GroupOk(w.store, p.k);
    } else {
      StepCounts(typeOf, w, ops[0], p);
      ApplyConsistent(typeOf, w, ops[0]);
      MembersExactly(typeOf, Apply(typeOf, w, ops[0]), ops[1..], p);
    }
  }

  /** The same for an address of another node; only what peers announce concerns it. */
  function RemoteCounts(n: nat, ops: seq<Operation>, k: Key, a: Address): nat
    decreases |ops|
  {
    if ops == [] then n
    else if ops[0] == PeerJoined(k, a) then RemoteCounts(n + 1, ops[1..], k, a)
    else if ops[0] == PeerLeft(k, a) && n > 0 then RemoteCounts(n - 1, ops[1..], k, a)
    else RemoteCounts(n, ops[1..], k, a)
  }

  lemma LocalKeepsRemote(typeOf: ActorId -> TypeId, w: World, op: Operation, k: Key, a: Address)
    requires Consistent(w.store) && !op.PeerJoined? && !op.PeerLeft?
    ensures Joins(Apply(typeOf, w, op).store.remote, k, a) == Joins(w.store.remote, k, a)
  {
    match op
    case LeaveOnce(k', id) =>
      if Joins(w.store.groups, k', Local(id)) == 1 {
        ExpelKeeps(w.store, k', Local(id));
      }
    case ActorRemoved(id) => RemoveActorKeeps(w.store, id);
    case LocalMembers(k') => PruneKeepsRemote(w.store, k', w.dead, k);
    case AllMembers(k') => PruneKeepsRemote(w.store, k', w.dead, k);
    case _ =>
  }

  lemma PruneKeepsRemote(s: Store, k: Key, dead: set<ActorId>, k': Key)
    ensures At(Prune(s, k, dead).remote, k') == At(s.remote, k')
    ensures At(PruneAll(s, k, dead).remote, k') == At(s.remote, k')
  {
    if k in s.groups {
      VacateKeeps(s.(groups := s.groups[k := Survivors(s.groups[k], dead)]), k);
    } else {
      VacateKeeps(s, k);
    }
  }

  lemma {:induction false} RemoteMembersExactly(
      typeOf: ActorId -> TypeId, w: World, ops: seq<Operation>, k: Key, a: Address)
    requires Consistent(w.store) && a.Remote?
    ensures var w' := After(typeOf, w, ops);
            && Joins(w'.store.remote, k, a) == RemoteCounts(Joins(w.store.remote, k, a), ops, k, a)
            && (a in At(w'.store.remote, k) <==> Joins(w'.store.remote, k, a) > 0)
    decreases |ops|
  {
    if ops == [] {
      assert RemoteOk(w.store, k);
    } else {
      match ops[0] {
        case PeerJoined(k', b) => RemoteJoinKeeps(w.store, k', b);
        case PeerLeft(k', b) => RemoteLeaveCounts(w.store, k', b);
        case _ => LocalKeepsRemote(typeOf, w, ops[0], k, a);
      }
      ApplyConsistent(typeOf, w, ops[0]);
      RemoteMembersExactly(typeOf, Apply(typeOf, w, ops[0]), ops[1..], k, a);
    }
  }

  // ----- events from a peer -----

  function PeerJoins(entries: seq<Member>): seq<Operation> {
    seq(|entries|, i requires 0 <= i < |entries| => PeerJoined(entries[i].k, entries[i].a))
  }

  function AsOperations(e: Event<Member>): seq<Operation> {
    match e
    case Joined(m) => [PeerJoined(m.k, m.a)]
    case Left(m) => [PeerLeft(m.k, m.a)]
    case Snapshot(entries) => PeerJoins(entries)
  }

  lemma {:induction false} AfterAppend(typeOf: ActorId -> TypeId, w: World, ops: seq<Operation>, op: Operation)
    ensures After(typeOf, w, ops + [op]) == Apply(typeOf, After(typeOf, w, ops), op)
    decreases |ops|
  {
    if ops == [] {
      assert [op][1..] == [];
    } else {
      assert (ops + [op])[1..] == ops[1..] + [op];
      AfterAppend(typeOf, Apply(typeOf, w, ops[0]), ops[1..], op);
    }
  }

  lemma {:induction false} EntriesAreJoins(typeOf: ActorId -> TypeId, w: World, entries: seq<Member>)
    ensures w.(store := ApplyEntries(w.store, entries)) == After(typeOf, w, PeerJoins(entries))
    decreases |entries|
  {
    if entries != [] {
      var n := |entries| - 1;
      EntriesAreJoins(typeOf, w, entries[..n]);
      assert PeerJoins(entries) == PeerJoins(entries[..n]) + [PeerJoined(entries[n].k, entries[n].a)];
      AfterAppend(typeOf, w, PeerJoins(entries[..n]), PeerJoined(entries[n].k, entries[n].a));
    }
  }

  /** A peer's event does what its joins and leaves do one by one, a snapshot included. */
  lemma EventIsOperations(typeOf: ActorId -> TypeId, w: World, e: Event<Member>)
    ensures w.(store := ApplyEvent(w.store, e)) == After(typeOf, w, AsOperations(e))
  {
    match e
    case Joined(m) => AfterAppend(typeOf, w, [], PeerJoined(m.k, m.a));
    case Left(m) => AfterAppend(typeOf, w, [], PeerLeft(m.k, m.a));
    case Snapshot(entries) => EntriesAreJoins(typeOf, w, entries);
  }

  // ----- the typed cache, one member at a time -----

  lemma LeaveCached(s: Store, typeOf: ActorId -> TypeId, dead: set<ActorId>, k: Key, a: Address, k': Key, b: Address)
    requires Consistent(s) && CacheOk(s, typeOf, dead, k', b)
    ensures CacheOk(Leave(s, k, a), typeOf, dead, k', b)
  {
    if Joins(s.groups, k, a) == 1 {
      ExpelKeeps(s, k, a);
    }
  }

  lemma RemoveCached(s: Store, typeOf: ActorId -> TypeId, dead: set<ActorId>, id: ActorId, k': Key, b: Address)
    requires Consistent(s) && CacheOk(s, typeOf, dead, k', b)
    ensures CacheOk(RemoveActor(s, Local(id)), typeOf, dead, k', b)
  {
    var s' := RemoveActor(s, Local(id));
    RemoveActorKeeps(s, id);
    assert b in At(s'.groups, k') <==> b in At(s.groups, k') && b != Local(id);
  }

  /** Dropping dead members, and tidying the group if nobody is left, touches no live entry. */
  lemma PruneCached(
      s: Store, typeOf: ActorId -> TypeId, gone: set<ActorId>, dead: set<ActorId>, k: Key, k': Key, b: Address)
    requires CacheOk(s, typeOf, dead, k', b) && gone <= dead
    ensures CacheOk(Prune(s, k, gone), typeOf, dead, k', b) && CacheOk(PruneAll(s, k, gone), typeOf, dead, k', b)
  {
    var s' := if k in s.groups then s.(groups := s.groups[k := Survivors(s.groups[k], gone)]) else s;
    assert CacheOk(s', typeOf, dead, k', b);
    VacateKeeps(s', k);
  }

  lemma RemoteCached(s: Store, typeOf: ActorId -> TypeId, dead: set<ActorId>, k: Key, a: Address, k': Key, b: Address)
    requires Consistent(s) && CacheOk(s, typeOf, dead, k', b)
    ensures CacheOk(RemoteJoin(s, k, a), typeOf, dead, k', b) && CacheOk(RemoteLeave(s, k, a), typeOf, dead, k', b)
  {
    RemoteJoinKeeps(s, k, a);
    RemoteLeaveKeeps(s, k, a);
  }

  /**
   Everything but a join keeps a member's typed entry in agreement with its membership;
   `exempt` holds actors about which nothing is asked, besides the dead.
   */
  lemma ApplyCached(typeOf: ActorId -> TypeId, w: World, op: Operation, exempt: set<ActorId>, k: Key, a: Address)
    requires Consistent(w.store) && CacheOk(w.store, typeOf, w.dead + exempt, k, a)
    requires !op.JoinOnly? && !op.CacheOnly? && !op.JoinTyped?
    ensures var w' := Apply(typeOf, w, op); CacheOk(w'.store, typeOf, w'.dead + exempt, k, a)
  {
    var dead := w.dead + exempt;
    match op
    case LeaveOnce(k', id) => LeaveCached(w.store, typeOf, dead, k', Local(id), k, a);
    case ActorRemoved(id) => RemoveCached(w.store, typeOf, dead, id, k, a);
    case LocalMembers(k') => PruneCached(w.store, typeOf, w.dead, dead, k', k, a);
    case AllMembers(k') => PruneCached(w.store, typeOf, w.dead, dead, k', k, a);
    case PeerJoined(k', b) => RemoteCached(w.store, typeOf, dead, k', b, k, a);
    case PeerLeft(k', b) => RemoteCached(w.store, typeOf, dead, k', b, k, a);
    case Died(_) =>
  }
}
