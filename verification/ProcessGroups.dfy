/**
 The process-group store (concurrency/src/pg.rs:69-162, 232-375, 407-420 and 452-549) as a
 value: refcounted local memberships, remote memberships learned from peers, the reverse
 index of local actors, and the cache of typed references.

 Whatever the store goes through, the four maps stay consistent with each other.
 */
module ProcessGroups {
  import opened Reasons

  datatype Key = Key(scope: string, group: string)

  datatype Address = Local(id: ActorId) | Remote(node: nat, id: ActorId)

  type TypeId = nat

  datatype TypedKey = TypedKey(key: Key, ty: TypeId)

  type Table = map<Key, map<Address, nat>>

  datatype Store = Store(
    groups: Table, remote: Table, index: map<Address, set<Key>>, typed: map<TypedKey, set<Address>>)

  function Empty(): Store {
    Store(map[], map[], map[], map[])
  }

  function At(t: Table, k: Key): map<Address, nat> {
    if k in t then t[k] else map[]
  }

  /** How often `a` has joined `k`; zero when it is no member. */
  function Joins(t: Table, k: Key, a: Address): nat {
    if a in At(t, k) then At(t, k)[a] else 0
  }

  function KeysOf(s: Store, a: Address): set<Key> {
    if a in s.index then s.index[a] else {}
  }

  function Bucket(s: Store, tk: TypedKey): set<Address> {
    if tk in s.typed then s.typed[tk] else {}
  }

  // ----- operations -----

  function Bump(t: Table, k: Key, a: Address): Table {
    t[k := At(t, k)[a := Joins(t, k, a) + 1]]
  }

  function Join(s: Store, k: Key, a: Address): Store {
    s.(groups := Bump(s.groups, k, a), index := s.index[a := KeysOf(s, a) + {k}])
  }

  function TypedJoin(s: Store, k: Key, ty: TypeId, a: Address): Store {
    s.(typed := s.typed[TypedKey(k, ty) := Bucket(s, TypedKey(k, ty)) + {a}])
  }

  function DropIfEmpty(t: Table, k: Key): Table {
    if At(t, k) == map[] then t - {k} else t
  }

  function WithoutKey(index: map<Address, set<Key>>, k: Key): map<Address, set<Key>> {
    map a | a in index && index[a] - {k} != {} :: index[a] - {k}
  }

  function WithoutBuckets(typed: map<TypedKey, set<Address>>, k: Key): map<TypedKey, set<Address>> {
    map tk | tk in typed && tk.key != k && typed[tk] != {} :: typed[tk]
  }

  predicate Vacant(s: Store, k: Key) {
    At(s.groups, k) == map[] && At(s.remote, k) == map[]
  }

  /** Tidies up after removals from `k`: a group without any member leaves no trace. */
  function Vacate(s: Store, k: Key): Store {
    Store(
      DropIfEmpty(s.groups, k),
      DropIfEmpty(s.remote, k),
      if Vacant(s, k) then WithoutKey(s.index, k) else s.index,
      if Vacant(s, k) then WithoutBuckets(s.typed, k) else s.typed)
  }

  function Unlist(index: map<Address, set<Key>>, a: Address, k: Key): map<Address, set<Key>> {
    if a !in index then index
    else if index[a] - {k} == {} then index - {a}
    else index[a := index[a] - {k}]
  }

  function Uncache(s: Store, tk: TypedKey, k: Key, a: Address): set<Address> {
    if tk.key == k then Bucket(s, tk) - {a} else Bucket(s, tk)
  }

  function Uncached(s: Store, k: Key, a: Address): map<TypedKey, set<Address>> {
    map tk | tk in s.typed && Uncache(s, tk, k, a) != {} :: Uncache(s, tk, k, a)
  }

  /** The last leave of an episode: the membership goes, and with it every trace of it. */
  function Expel(s: Store, k: Key, a: Address): Store {
    var v := Vacate(s.(groups := s.groups[k := At(s.groups, k) - {a}]), k);
    v.(index := Unlist(v.index, a, k), typed := Uncached(v, k, a))
  }

  /** Leaving a group one is not in is an error and changes nothing. */
  function Leave(s: Store, k: Key, a: Address): Store {
    if Joins(s.groups, k, a) == 0 then s
    else if Joins(s.groups, k, a) == 1 then Expel(s, k, a)
    else s.(groups := s.groups[k := At(s.groups, k)[a := Joins(s.groups, k, a) - 1]])
  }

  function Survivors(members: map<Address, nat>, dead: set<ActorId>): map<Address, nat> {
    map a | a in members && a.id !in dead :: members[a]
  }

  /** What reading the local members of `k` leaves: its dead members are dropped. */
  function Prune(s: Store, k: Key, dead: set<ActorId>): Store {
    if k !in s.groups then s
    else
      var s' := s.(groups := s.groups[k := Survivors(s.groups[k], dead)]);
      if s'.groups[k] == map[] then Vacate(s', k) else s'
  }

  /** Reading local and remote members tidies the group even when nothing was dropped. */
  function PruneAll(s: Store, k: Key, dead: set<ActorId>): Store {
    Vacate(if k in s.groups then s.(groups := s.groups[k := Survivors(s.groups[k], dead)]) else s, k)
  }

  function RemoteJoin(s: Store, k: Key, a: Address): Store {
    if a.Local? then s else s.(remote := Bump(s.remote, k, a))
  }

  function RemoteLeave(s: Store, k: Key, a: Address): Store {
    if a.Local? || a !in At(s.remote, k) then s
    else
      var left := if s.remote[k][a] <= 1 then s.remote[k] - {a} else s.remote[k][a := s.remote[k][a] - 1];
      Vacate(s.(remote := s.remote[k := left]), k)
  }

  /** An event from a peer about `T`; a snapshot stands for one join per entry. */
  datatype Event<T> = Joined(who: T) | Left(who: T) | Snapshot(entries: seq<T>)

  datatype Member = Member(k: Key, a: Address)

  function ApplyEntries(s: Store, entries: seq<Member>): Store
    decreases |entries|
  {
    if entries == [] then s
    else
      var n := |entries| - 1;
      RemoteJoin(ApplyEntries(s, entries[..n]), entries[n].k, entries[n].a)
  }

  function ApplyEvent(s: Store, e: Event<Member>): Store {
    match e
    case Joined(m) => RemoteJoin(s, m.k, m.a)
    case Left(m) => RemoteLeave(s, m.k, m.a)
    case Snapshot(entries) => ApplyEntries(s, entries)
  }

  // ----- removing an actor from everything -----

  function StripTable(t: Table, keys: set<Key>, a: Address): Table {
    map k | k in t && (k in keys ==> t[k] - {a} != map[]) :: if k in keys then t[k] - {a} else t[k]
  }

  /** Of `keys`, the groups that have nobody left once `a` is gone. */
  function Orphaned(s: Store, keys: set<Key>, a: Address): set<Key> {
    set k | k in keys && At(s.groups, k) - {a} == map[] && At(s.remote, k) - {a} == map[]
  }

  function StripIndex(index: map<Address, set<Key>>, gone: set<Key>): map<Address, set<Key>> {
    map b | b in index && index[b] - gone != {} :: index[b] - gone
  }

  function StripTyped(typed: map<TypedKey, set<Address>>, gone: set<Key>): map<TypedKey, set<Address>> {
    map tk | tk in typed && tk.key !in gone :: typed[tk]
  }

  /** `a` taken out of the groups in `keys`, and those left empty tidied away. */
  function Strip(s: Store, keys: set<Key>, a: Address): Store {
    Store(
      StripTable(s.groups, keys, a), StripTable(s.remote, keys, a),
      StripIndex(s.index, Orphaned(s, keys, a)),
      StripTyped(s.typed, Orphaned(s, keys, a)))
  }

  function ForgetTyped(s: Store, a: Address): Store {
    s.(typed := map tk | tk in s.typed && s.typed[tk] - {a} != {} :: s.typed[tk] - {a})
  }

  function RemoveActor(s: Store, a: Address): Store {
    ForgetTyped(Strip(s.(index := s.index - {a}), KeysOf(s, a), a), a)
  }

  // ----- consistency -----

  ghost predicate Listed(s: Store, a: Address, k: Key) {
    k in KeysOf(s, a)
  }

  ghost predicate GroupOk(s: Store, k: Key) {
    && (k in s.groups ==> s.groups[k] != map[])
    && forall a :: a in At(s.groups, k) ==> a.Local? && Joins(s.groups, k, a) >= 1 && Listed(s, a, k)
  }

  ghost predicate RemoteOk(s: Store, k: Key) {
    && (k in s.remote ==> s.remote[k] != map[])
    && forall a :: a in At(s.remote, k) ==> a.Remote? && Joins(s.remote, k, a) >= 1
  }

  ghost predicate IndexOk(s: Store, a: Address) {
    a in s.index ==> a.Local? && s.index[a] != {}
  }

  ghost predicate TypedOk(s: Store, tk: TypedKey) {
    tk in s.typed ==> s.typed[tk] != {}
  }

  /** No empty inner map, local and remote members apart, every local membership indexed. */
  ghost predicate Consistent(s: Store) {
    && (forall k :: GroupOk(s, k))
    && (forall k :: RemoteOk(s, k))
    && (forall a :: IndexOk(s, a))
    && (forall tk :: TypedOk(s, tk))
  }

  /** `a` is cached for `k` under its own type only and, unless dead, exactly if it is a member. */
  ghost predicate CacheOk(s: Store, typeOf: ActorId -> TypeId, dead: set<ActorId>, k: Key, a: Address) {
    && (forall ty :: a in Bucket(s, TypedKey(k, ty)) ==> a.Local? && ty == typeOf(a.id))
    && (a.id !in dead ==> (a in Bucket(s, TypedKey(k, typeOf(a.id))) <==> a in At(s.groups, k)))
  }

  // ----- tidying keeps consistency -----

  /** Consistent, except that the two inner maps of `k` may be empty. */
  ghost predicate Nearly(s: Store, k: Key) {
    && (forall k' :: GroupOk(s, k') || (k' == k && At(s.groups, k) == map[]))
    && (forall k' :: RemoteOk(s, k') || (k' == k && At(s.remote, k) == map[]))
    && (forall a :: IndexOk(s, a))
    && (forall tk :: TypedOk(s, tk))
  }

  /** What tidying keeps, entry by entry. */
  lemma VacateKeeps(s: Store, k: Key)
    ensures var v := Vacate(s, k);
            && (forall k' :: At(v.groups, k') == At(s.groups, k'))
            && (forall k' :: At(v.remote, k') == At(s.remote, k'))
            && (forall a :: KeysOf(v, a) == if Vacant(s, k) then KeysOf(s, a) - {k} else KeysOf(s, a))
            && (forall tk :: Bucket(v, tk) == if Vacant(s, k) && tk.key == k then {} else Bucket(s, tk))
  {
  }

  lemma VacateConsistent(s: Store, k: Key)
    requires Nearly(s, k)
    ensures Consistent(Vacate(s, k))
  {
    var v := Vacate(s, k);
    VacateKeeps(s, k);
    forall k' ensures GroupOk(v, k') && RemoteOk(v, k') {
      assert GroupOk(s, k') || (k' == k && At(s.groups, k) == map[]);
      assert RemoteOk(s, k') || (k' == k && At(s.remote, k) == map[]);
      assert At(v.groups, k') == At(s.groups, k') && At(v.remote, k') == At(s.remote, k');
      forall a | a in At(v.groups, k')
        ensures a.Local? && Joins(v.groups, k', a) >= 1 && Listed(v, a, k')
      {
        assert Listed(s, a, k') && Joins(v.groups, k', a) == Joins(s.groups, k', a);
      }
      forall a | a in At(v.remote, k') ensures a.Remote? && Joins(v.remote, k', a) >= 1 {
        assert Joins(v.remote, k', a) == Joins(s.remote, k', a);
      }
    }
    forall a ensures IndexOk(v, a) { assert IndexOk(s, a); }
    forall tk ensures TypedOk(v, tk) { assert TypedOk(s, tk); }
  }

  // ----- each operation keeps consistency, and changes exactly the memberships it should -----

  lemma JoinCounts(s: Store, k: Key, id: ActorId)
    ensures var s' := Join(s, k, Local(id));
            && (forall k', a :: Joins(s'.groups, k', a) ==
                  Joins(s.groups, k', a) + if k' == k && a == Local(id) then 1 else 0)
            && (forall k', a :: a in At(s'.groups, k') <==> a in At(s.groups, k') || (k' == k && a == Local(id)))
            && (forall k' :: At(s'.remote, k') == At(s.remote, k'))
            && (forall a, k' :: Listed(s', a, k') <==> Listed(s, a, k') || (k' == k && a == Local(id)))
  {
  }

  lemma JoinKeeps(s: Store, k: Key, id: ActorId)
    requires Consistent(s)
    ensures var s' := Join(s, k, Local(id));
            && Consistent(s')
            && (forall k', a :: Joins(s'.groups, k', a) ==
                  Joins(s.groups, k', a) + if k' == k && a == Local(id) then 1 else 0)
            && (forall k', a :: a in At(s'.groups, k') <==> a in At(s.groups, k') || (k' == k && a == Local(id)))
  {
    var s' := Join(s, k, Local(id));
    JoinCounts(s, k, id);
    forall k' ensures GroupOk(s', k') && RemoteOk(s', k') {
      assert GroupOk(s, k') && RemoteOk(s, k');
      forall a | a in At(s'.groups, k')
        ensures a.Local? && Joins(s'.groups, k', a) >= 1 && Listed(s', a, k')
      {
        assert a in At(s.groups, k') || (k' == k && a == Local(id));
      }
    }
    forall a ensures IndexOk(s', a) { assert IndexOk(s, a); }
    forall tk ensures TypedOk(s', tk) { assert TypedOk(s, tk); }
  }

  lemma TypedJoinKeeps(s: Store, k: Key, ty: TypeId, a: Address)
    requires Consistent(s)
    ensures Consistent(TypedJoin(s, k, ty, a))
  {
    var s' := TypedJoin(s, k, ty, a);
    forall k' ensures GroupOk(s', k') && RemoteOk(s', k') {
      assert GroupOk(s, k') && RemoteOk(s, k');
      forall b | b in At(s'.groups, k') ensures b.Local? && Joins(s'.groups, k', b) >= 1 && Listed(s', b, k') {
        assert Listed(s, b, k');
      }
    }
    forall b ensures IndexOk(s', b) { assert IndexOk(s, b); }
    forall tk ensures TypedOk(s', tk) { assert TypedOk(s, tk); }
  }

  /** The members of `k` replaced by some of them, the rest of the store as it was. */
  lemma FewerNearly(s: Store, k: Key, members: map<Address, nat>)
    requires Consistent(s) && k in s.groups
    requires forall a :: a in members ==> a in s.groups[k] && members[a] >= 1
    ensures Nearly(s.(groups := s.groups[k := members]), k)
    ensures members != map[] ==> Consistent(s.(groups := s.groups[k := members]))
  {
    var s' := s.(groups := s.groups[k := members]);
    assert GroupOk(s, k);
    forall k' ensures (GroupOk(s', k') || (k' == k && members == map[])) && RemoteOk(s', k') {
      assert GroupOk(s, k') && RemoteOk(s, k');
      forall a | a in At(s'.groups, k')
        ensures a.Local? && Joins(s'.groups, k', a) >= 1 && Listed(s', a, k')
      {
        assert Listed(s, a, k') && a in At(s.groups, k');
      }
    }
    forall a ensures IndexOk(s', a) { assert IndexOk(s, a); }
    forall tk ensures TypedOk(s', tk) { assert TypedOk(s, tk); }
  }

  lemma PruneKeeps(s: Store, k: Key, dead: set<ActorId>)
    requires Consistent(s)
    ensures forall s' | s' == Prune(s, k, dead) || s' == PruneAll(s, k, dead) ::
              && Consistent(s')
              && (forall k', a :: Joins(s'.groups, k', a) ==
                    if k' == k && a.id in dead then 0 else Joins(s.groups, k', a))
  {
    if k in s.groups {
      var members := Survivors(s.groups[k], dead);
      assert GroupOk(s, k);
      forall a | a in members ensures a in s.groups[k] && members[a] >= 1 {
        assert members[a] == Joins(s.groups, k, a);
      }
      FewerNearly(s, k, members);
      var s1 := s.(groups := s.groups[k := members]);
      VacateKeeps(s1, k);
      VacateConsistent(s1, k);
    } else {
      ConsistentNearly(s, k);
      VacateKeeps(s, k);
      VacateConsistent(s, k);
    }
  }

  lemma ConsistentNearly(s: Store, k: Key)
    requires Consistent(s)
    ensures Nearly(s, k)
  {
    forall k' ensures GroupOk(s, k') && RemoteOk(s, k') {}
  }

  lemma ExpelKeeps(s: Store, k: Key, a: Address)
    requires Consistent(s) && Joins(s.groups, k, a) == 1
    ensures var s' := Expel(s, k, a);
            && Consistent(s')
            && (forall k' :: At(s'.groups, k') == if k' == k then At(s.groups, k) - {a} else At(s.groups, k'))
            && (forall k' :: At(s'.remote, k') == At(s.remote, k'))
            && KeysOf(s', a) == KeysOf(s, a) - {k}
            && (forall tk :: Bucket(s', tk) ==
                  if tk.key != k then Bucket(s, tk)
                  else if At(s'.groups, k) == map[] && At(s.remote, k) == map[] then {}
                  else Bucket(s, tk) - {a})
  {
    var members := At(s.groups, k) - {a};
    var s1 := s.(groups := s.groups[k := members]);
    assert GroupOk(s, k);
    forall b | b in members ensures b in s.groups[k] && members[b] >= 1 {
      assert members[b] == Joins(s.groups, k, b);
    }
    FewerNearly(s, k, members);
    VacateKeeps(s1, k);
    VacateConsistent(s1, k);
    UnlistKeeps(Vacate(s1, k), k, a);
  }

  lemma UnlistKeeps(v: Store, k: Key, a: Address)
    requires Consistent(v) && a !in At(v.groups, k)
    ensures var s' := v.(index := Unlist(v.index, a, k), typed := Uncached(v, k, a));
            && Consistent(s')
            && forall tk :: Bucket(s', tk) == if tk.key == k then Bucket(v, tk) - {a} else Bucket(v, tk)
  {
    var s' := v.(index := Unlist(v.index, a, k), typed := Uncached(v, k, a));
    forall k' ensures GroupOk(s', k') && RemoteOk(s', k') {
      assert GroupOk(v, k') && RemoteOk(v, k');
      forall b | b in At(s'.groups, k') ensures b.Local? && Joins(s'.groups, k', b) >= 1 && Listed(s', b, k') {
        assert Listed(v, b, k');
      }
    }
    forall b ensures IndexOk(s', b) { assert IndexOk(v, b); }
    forall tk ensures TypedOk(s', tk) { assert TypedOk(v, tk); }
  }

  lemma LeaveKeeps(s: Store, k: Key, a: Address)
    requires Consistent(s)
    ensures var s' := Leave(s, k, a);
            && Consistent(s')
            && (forall k', b :: Joins(s'.groups, k', b) ==
                  if k' == k && b == a && Joins(s.groups, k, a) > 0 then Joins(s.groups, k, a) - 1
                  else Joins(s.groups, k', b))
  {
    if Joins(s.groups, k, a) == 1 {
      ExpelKeeps(s, k, a);
    } else if Joins(s.groups, k, a) > 1 {
      var members := At(s.groups, k)[a := Joins(s.groups, k, a) - 1];
      assert GroupOk(s, k);
      forall b | b in members ensures b in s.groups[k] && members[b] >= 1 {
        assert b != a ==> members[b] == Joins(s.groups, k, b);
      }
      FewerNearly(s, k, members);
    }
  }

  lemma RemoteChangeNearly(s: Store, k: Key, members: map<Address, nat>)
    requires Consistent(s)
    requires forall a :: a in members ==> a.Remote? && members[a] >= 1
    ensures Nearly(s.(remote := s.remote[k := members]), k)
    ensures members != map[] ==> Consistent(s.(remote := s.remote[k := members]))
  {
    var s' := s.(remote := s.remote[k := members]);
    forall k' ensures GroupOk(s', k') && (RemoteOk(s', k') || (k' == k && members == map[])) {
      assert GroupOk(s, k') && RemoteOk(s, k');
      forall a | a in At(s'.groups, k') ensures a.Local? && Joins(s'.groups, k', a) >= 1 && Listed(s', a, k') {
        assert Listed(s, a, k');
      }
      forall a | a in At(s'.remote, k') ensures a.Remote? && Joins(s'.remote, k', a) >= 1 {
        assert k' != k ==> Joins(s'.remote, k', a) == Joins(s.remote, k', a);
      }
    }
    forall a ensures IndexOk(s', a) { assert IndexOk(s, a); }
    forall tk ensures TypedOk(s', tk) { assert TypedOk(s, tk); }
  }

  lemma RemoteJoinKeeps(s: Store, k: Key, a: Address)
    requires Consistent(s)
    ensures var s' := RemoteJoin(s, k, a);
            && Consistent(s') && s'.groups == s.groups && s'.typed == s.typed
            && (forall k', b :: Joins(s'.remote, k', b) ==
                  Joins(s.remote, k', b) + if k' == k && b == a && a.Remote? then 1 else 0)
  {
    if a.Remote? {
      var members := At(s.remote, k)[a := Joins(s.remote, k, a) + 1];
      assert RemoteOk(s, k);
      forall b | b in members ensures b.Remote? && members[b] >= 1 {
        assert b != a ==> members[b] == Joins(s.remote, k, b);
      }
      RemoteChangeNearly(s, k, members);
    }
  }

  lemma RemoteLeaveKeeps(s: Store, k: Key, a: Address)
    requires Consistent(s)
    ensures var s' := RemoteLeave(s, k, a);
            && Consistent(s') && (forall k' :: At(s'.groups, k') == At(s.groups, k'))
            && (forall tk :: Bucket(s', tk) == Bucket(s, tk) ||
                  (Bucket(s', tk) == {} && At(s.groups, tk.key) == map[]))
  {
    if a.Remote? && a in At(s.remote, k) {
      var left := if s.remote[k][a] <= 1 then s.remote[k] - {a} else s.remote[k][a := s.remote[k][a] - 1];
      assert RemoteOk(s, k);
      forall b | b in left ensures b.Remote? && left[b] >= 1 {
        assert b != a ==> left[b] == Joins(s.remote, k, b);
      }
      RemoteChangeNearly(s, k, left);
      var s1 := s.(remote := s.remote[k := left]);
      VacateKeeps(s1, k);
      VacateConsistent(s1, k);
    }
  }

  lemma RemoteLeaveCounts(s: Store, k: Key, a: Address)
    requires Consistent(s)
    ensures forall k', b :: Joins(RemoteLeave(s, k, a).remote, k', b) ==
              if k' == k && b == a && a.Remote? && Joins(s.remote, k, a) > 0 then Joins(s.remote, k, a) - 1
              else Joins(s.remote, k', b)
  {
    assert RemoteOk(s, k);
    if a.Remote? && a in At(s.remote, k) {
      assert Joins(s.remote, k, a) >= 1;
      var left := if s.remote[k][a] <= 1 then s.remote[k] - {a} else s.remote[k][a := s.remote[k][a] - 1];
      VacateKeeps(s.(remote := s.remote[k := left]), k);
    }
  }

  // ----- removing an actor -----

  lemma StripTableAt(t: Table, keys: set<Key>, a: Address, k: Key)
    ensures At(StripTable(t, keys, a), k) == if k in keys then At(t, k) - {a} else At(t, k)
  {
  }

  /**
   Removing an actor erases it from every group and every typed bucket, keeps every other
   membership with its join count, every remote member, and the typed entries of everybody
   who is still a member.
   */
  lemma RemoveActorKeeps(s: Store, id: ActorId)
    requires Consistent(s)
    ensures var a := Local(id); var s' := RemoveActor(s, a);
            && Consistent(s')
            && (forall k, b :: Joins(s'.groups, k, b) == if b == a then 0 else Joins(s.groups, k, b))
            && (forall k, b :: Joins(s'.remote, k, b) == Joins(s.remote, k, b))
            && (forall tk :: a !in Bucket(s', tk)) && a !in s'.index
            && (forall tk, b :: b in Bucket(s', tk) ==> b in Bucket(s, tk))
            && (forall tk, b :: b != a && b in Bucket(s, tk) && b in At(s.groups, tk.key) ==> b in Bucket(s', tk))
            && (forall k, b :: b in At(s'.groups, k) <==> b in At(s.groups, k) && b != a)
  {
    var a := Local(id);
    var s' := RemoveActor(s, a);
    var keys := KeysOf(s, a);
    forall k
      ensures At(s'.groups, k) == At(s.groups, k) - {a} && At(s'.remote, k) == At(s.remote, k)
    {
      assert GroupOk(s, k) && RemoteOk(s, k);
      StripTableAt(s.groups, keys, a, k);
      StripTableAt(s.remote, keys, a, k);
      assert a in At(s.groups, k) ==> Listed(s, a, k);
      assert At(s.remote, k) - {a} == At(s.remote, k);
    }
    forall k, b
      ensures Joins(s'.groups, k, b) == if b == a then 0 else Joins(s.groups, k, b)
      ensures Joins(s'.remote, k, b) == Joins(s.remote, k, b)
      ensures b in At(s'.groups, k) <==> b in At(s.groups, k) && b != a
    {
      assert At(s'.groups, k) == At(s.groups, k) - {a} && At(s'.remote, k) == At(s.remote, k);
    }
    RemoveActorConsistent(s, a);
    RemoveActorTyped(s, a);
  }

  lemma RemoveActorTyped(s: Store, a: Address)
    ensures var s' := RemoveActor(s, a);
            && a !in s'.index && (forall tk :: a !in Bucket(s', tk))
            && (forall tk, b :: b in Bucket(s', tk) ==> b in Bucket(s, tk))
            && (forall tk, b :: b != a && b in Bucket(s, tk) && b in At(s.groups, tk.key) ==> b in Bucket(s', tk))
  {
    var s' := RemoveActor(s, a);
    forall tk, b | b != a && b in Bucket(s, tk) && b in At(s.groups, tk.key) ensures b in Bucket(s', tk) {
      assert b in At(s.groups, tk.key) - {a};
      assert tk.key !in Orphaned(s.(index := s.index - {a}), KeysOf(s, a), a);
    }
  }

  lemma RemoveActorConsistent(s: Store, a: Address)
    requires Consistent(s)
    ensures Consistent(RemoveActor(s, a))
  {
    var s' := RemoveActor(s, a);
    var keys := KeysOf(s, a);
    forall k ensures GroupOk(s', k) && RemoteOk(s', k) {
      assert GroupOk(s, k) && RemoteOk(s, k);
      StripTableAt(s.groups, keys, a, k);
      StripTableAt(s.remote, keys, a, k);
      forall b | b in At(s'.groups, k) ensures b.Local? && Joins(s'.groups, k, b) >= 1 && Listed(s', b, k) {
        assert Listed(s, b, k) && b != a;
        assert Joins(s'.groups, k, b) == Joins(s.groups, k, b);
        assert k !in Orphaned(s.(index := s.index - {a}), keys, a);
      }
      forall b | b in At(s'.remote, k) ensures b.Remote? && Joins(s'.remote, k, b) >= 1 {
        assert Joins(s'.remote, k, b) == Joins(s.remote, k, b);
      }
    }
    forall b ensures IndexOk(s', b) { assert IndexOk(s, b); }
    forall tk ensures TypedOk(s', tk) { assert TypedOk(s, tk); }
  }
}
