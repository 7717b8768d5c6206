/**
 The process-group store as the program keeps it (concurrency/src/pg.rs:69-162, 232-375 and
 452-549): four maps updated in place. Each method refines the operation of the same name
 on values. A vector whose order comes from a hash map is a set here.
 */
module PgStoreModel {
  import opened Reasons
  import opened ProcessGroups

  // ----- removing an actor group by group -----

  function EraseFrom(t: Table, k: Key, a: Address): Table {
    if k in t then t[k := t[k] - {a}] else t
  }

  lemma StripTableStep(t: Table, done: set<Key>, k: Key, a: Address)
    requires k !in done
    ensures DropIfEmpty(EraseFrom(StripTable(t, done, a), k, a), k) == StripTable(t, done + {k}, a)
  {
    StripTableAt(t, done, a, k);
  }

  lemma OrphanedStep(s: Store, done: set<Key>, k: Key, a: Address)
    ensures Orphaned(s, done + {k}, a) == Orphaned(s, done, a) + Orphaned(s, {k}, a)
  {
  }

  lemma StripIndexStep(index: map<Address, set<Key>>, gone: set<Key>, k: Key)
    ensures WithoutKey(StripIndex(index, gone), k) == StripIndex(index, gone + {k})
  {
    forall b | b in index ensures index[b] - gone - {k} == index[b] - (gone + {k}) {}
  }

  lemma StripTypedStep(s: Store, gone: set<Key>, k: Key)
    requires forall tk :: TypedOk(s, tk)
    ensures WithoutBuckets(StripTyped(s.typed, gone), k) == StripTyped(s.typed, gone + {k})
  {
    assert forall tk :: tk in s.typed ==> TypedOk(s, tk);
  }

  lemma VacantStep(s: Store, done: set<Key>, k: Key, a: Address)
    requires k !in done
    ensures var t := Strip(s, done, a);
            var e := t.(groups := EraseFrom(t.groups, k, a), remote := EraseFrom(t.remote, k, a));
            Orphaned(s, done + {k}, a) == if Vacant(e, k) then Orphaned(s, done, a) + {k} else Orphaned(s, done, a)
  {
    OrphanedStep(s, done, k, a);
    StripTableAt(s.groups, done, a, k);
    StripTableAt(s.remote, done, a, k);
  }

  /** Groups may be visited in any order: each visit adds one group to those already done. */
  lemma StripStep(s: Store, done: set<Key>, k: Key, a: Address)
    requires k !in done && (forall tk :: TypedOk(s, tk))
    ensures var t := Strip(s, done, a);
            Vacate(t.(groups := EraseFrom(t.groups, k, a), remote := EraseFrom(t.remote, k, a)), k) ==
            Strip(s, done + {k}, a)
  {
    StripTableStep(s.groups, done, k, a);
    StripTableStep(s.remote, done, k, a);
    VacantStep(s, done, k, a);
    StripIndexStep(s.index, Orphaned(s, done, a), k);
    StripTypedStep(s, Orphaned(s, done, a), k);
  }

  lemma StripNothing(s: Store, a: Address)
    requires forall b :: IndexOk(s, b)
    ensures Strip(s, {}, a) == s
  {
    forall b | b in s.index ensures s.index[b] - {} == s.index[b] && s.index[b] != {} {
      assert IndexOk(s, b);
    }
    assert Orphaned(s, {}, a) == {};
    assert StripTable(s.groups, {}, a) == s.groups && StripTable(s.remote, {}, a) == s.remote;
    assert StripIndex(s.index, {}) == s.index;
    assert StripTyped(s.typed, {}) == s.typed;
  }

  lemma UnindexedOk(s: Store, a: Address)
    requires Consistent(s)
    ensures var s' := s.(index := s.index - {a}); (forall b :: IndexOk(s', b)) && (forall tk :: TypedOk(s', tk))
  {
    var s' := s.(index := s.index - {a});
    forall b ensures IndexOk(s', b) { assert IndexOk(s, b); }
    forall tk ensures TypedOk(s', tk) { assert TypedOk(s, tk); }
  }

  // ----- the store -----

  class PgStore {
    var groups: Table
    var remote: Table
    var index: map<Address, set<Key>>
    var typed: map<TypedKey, set<Address>>

    ghost function View(): Store
      reads this
    {
      Store(groups, remote, index, typed)
    }

    ghost predicate Valid()
      reads this
    {
      Consistent(View())
    }

    constructor ()
      ensures Valid() && View() == Empty()
    {
      groups, remote, index, typed := map[], map[], map[], map[];
      new;
      forall k ensures GroupOk(Empty(), k) && RemoteOk(Empty(), k) {}
    }

    method RemoveGroupIfEmpty(k: Key)
      modifies this
      ensures View() == Vacate(old(View()), k)
    {
      var localEmpty := k !in groups || groups[k] == map[];
      var remoteEmpty := k !in remote || remote[k] == map[];
      if localEmpty && remoteEmpty {
        groups := groups - {k};
        remote := remote - {k};
        index := map a | a in index :: index[a] - {k};
        index := map a | a in index && index[a] != {} :: index[a];
        typed := map tk | tk in typed && tk.key != k && typed[tk] != {} :: typed[tk];
        assert index == WithoutKey(old(index), k);
      } else if localEmpty {
        groups := groups - {k};
      } else if remoteEmpty {
        remote := remote - {k};
      }
    }

    method JoinScoped(k: Key, id: ActorId)
      requires Valid()
      modifies this
      ensures Valid() && View() == Join(old(View()), k, Local(id))
    {
      JoinKeeps(View(), k, id);
      var a := Local(id);
      var members := if k in groups then groups[k] else map[];
      var joins := if a in members then members[a] + 1 else 1;
      groups := groups[k := members[a := joins]];
      var keys := if a in index then index[a] else {};
      index := index[a := keys + {k}];
    }

    method TypedJoinScoped(k: Key, ty: TypeId, id: ActorId)
      requires Valid()
      modifies this
      ensures Valid() && View() == TypedJoin(old(View()), k, ty, Local(id))
    {
      TypedJoinKeeps(View(), k, ty, Local(id));
      var tk := TypedKey(k, ty);
      var bucket := if tk in typed then typed[tk] else {};
      typed := typed[tk := bucket + {Local(id)}];
    }

    /** Fails without a change exactly when the actor is no member. */
    method LeaveScoped(k: Key, id: ActorId) returns (ok: bool)
      requires Valid()
      modifies this
      ensures Valid() && View() == Leave(old(View()), k, Local(id))
      ensures ok <==> Local(id) in At(old(groups), k)
    {
      LeaveKeeps(View(), k, Local(id));
      var a := Local(id);
      assert GroupOk(View(), k);
      if k !in groups || a !in groups[k] {
        return false;
      }
      var joins := groups[k][a] - 1;
      if joins == 0 {
        groups := groups[k := groups[k] - {a}];
        RemoveGroupIfEmpty(k);
        ForgetMembership(k, a);
      } else {
        groups := groups[k := groups[k][a := joins]];
      }
      return true;
    }

    method ForgetMembership(k: Key, a: Address)
      modifies this`index, this`typed
      ensures index == Unlist(old(index), a, k) && typed == Uncached(old(View()), k, a)
    {
      if a in index {
        var keys := index[a] - {k};
        index := index[a := keys];
        if keys == {} {
          index := index - {a};
        }
      }
      assert index == Unlist(old(index), a, k);
      UncacheMember(k, a);
    }

    method UncacheMember(k: Key, a: Address)
      modifies this`typed
      ensures typed == Uncached(old(View()), k, a)
    {
      typed := map tk | tk in typed :: if tk.key == k then typed[tk] - {a} else typed[tk];
      typed := map tk | tk in typed && typed[tk] != {} :: typed[tk];
    }

    /** Erases a local actor; hash-set order decides in which order its groups are visited. */
    method RemoveActorEverywhere(id: ActorId)
      requires Valid()
      modifies this
      ensures Valid() && View() == RemoveActor(old(View()), Local(id))
    {
      var a := Local(id);
      RemoveActorConsistent(View(), a);
      UnindexedOk(View(), a);
      TakeOutOfGroups(a);
      ForgetTypedReferences(a);
    }

    method TakeOutOfGroups(a: Address)
      requires forall b :: IndexOk(View().(index := index - {a}), b)
      requires forall tk :: TypedOk(View().(index := index - {a}), tk)
      modifies this
      ensures View() == Strip(old(View().(index := index - {a})), KeysOf(old(View()), a), a)
    {
      if a in index {
        var keys := index[a];
        index := index - {a};
        assert View() == old(View().(index := index - {a}));
        StripGroups(keys, a);
      } else {
        assert index - {a} == index;
        StripNothing(View(), a);
      }
    }

    method ForgetTypedReferences(a: Address)
      modifies this`typed
      ensures View() == ForgetTyped(old(View()), a)
    {
      typed := map tk | tk in typed :: typed[tk] - {a};
      typed := map tk | tk in typed && typed[tk] != {} :: typed[tk];
    }

    method StripGroups(keys: set<Key>, a: Address)
      requires forall b :: IndexOk(View(), b)
      requires forall tk :: TypedOk(View(), tk)
      modifies this
      ensures View() == Strip(old(View()), keys, a)
    {
      var left := keys;
      ghost var s := View();
      StripNothing(s, a);
      assert keys - left == {};
      while left != {}
        invariant left <= keys && View() == Strip(s, keys - left, a)
      {
        var k :| k in left;
        StripStep(s, keys - left, k, a);
        assert keys - left + {k} == keys - (left - {k});
        if k in groups {
          groups := groups[k := groups[k] - {a}];
        }
        if k in remote {
          remote := remote[k := remote[k] - {a}];
        }
        RemoveGroupIfEmpty(k);
        left := left - {k};
      }
      assert keys - left == keys;
    }

    method DropDead(k: Key, dead: set<ActorId>) returns (members: set<Address>)
      requires k in groups
      modifies this`groups
      ensures groups == old(groups)[k := Survivors(old(groups)[k], dead)]
      ensures members == set a | a in old(groups)[k] && a.id !in dead
    {
      groups := groups[k := map a | a in groups[k] && a.id !in dead :: groups[k][a]];
      members := groups[k].Keys;
    }

    /** The live local members; dead ones are dropped on the way. */
    method GetLocalMembers(k: Key, dead: set<ActorId>) returns (members: set<Address>)
      requires Valid()
      modifies this
      ensures Valid() && View() == Prune(old(View()), k, dead)
      ensures members == set a | a in At(old(groups), k) && a.id !in dead
    {
      PruneKeeps(View(), k, dead);
      if k !in groups {
        return {};
      }
      members := DropDead(k, dead);
      if groups[k] == map[] {
        RemoveGroupIfEmpty(k);
      }
    }

    method MemberAddresses(k: Key, dead: set<ActorId>) returns (members: set<Address>)
      requires Valid()
      modifies this
      ensures Valid() && View() == PruneAll(old(View()), k, dead)
      ensures members == (set a | a in At(old(groups), k) && a.id !in dead) + At(old(remote), k).Keys
    {
      PruneKeeps(View(), k, dead);
      members := {};
      if k in groups {
        members := DropDead(k, dead);
      }
      if k in remote {
        members := members + remote[k].Keys;
      }
      RemoveGroupIfEmpty(k);
    }

    method ApplyRemoteJoin(k: Key, a: Address)
      requires Valid()
      modifies this
      ensures Valid() && View() == RemoteJoin(old(View()), k, a)
    {
      RemoteJoinKeeps(View(), k, a);
      if a.Remote? {
        var members := if k in remote then remote[k] else map[];
        var joins := if a in members then members[a] + 1 else 1;
        remote := remote[k := members[a := joins]];
      }
    }

    method ApplyRemoteLeave(k: Key, a: Address)
      requires Valid()
      modifies this
      ensures Valid() && View() == RemoteLeave(old(View()), k, a)
    {
      RemoteLeaveKeeps(View(), k, a);
      if a.Local? || k !in remote || a !in remote[k] {
        return;
      }
      var joins := if remote[k][a] == 0 then 0 else remote[k][a] - 1;
      remote := remote[k := if joins == 0 then remote[k] - {a} else remote[k][a := joins]];
      RemoveGroupIfEmpty(k);
    }

    method ApplyRemotePgEvent(e: Event<Member>)
      requires Valid()
      modifies this
      ensures Valid() && View() == ApplyEvent(old(View()), e)
    {
      match e
      case Joined(m) => ApplyRemoteJoin(m.k, m.a);
      case Left(m) => ApplyRemoteLeave(m.k, m.a);
      case Snapshot(entries) =>
        ghost var s := View();
        var i := 0;
        while i < |entries|
          invariant 0 <= i <= |entries|
          invariant Valid() && View() == ApplyEntries(s, entries[..i])
        {
          ApplyRemoteJoin(entries[i].k, entries[i].a);
          i := i + 1;
          assert entries[..i][..i - 1] == entries[..i - 1];
        }
        assert entries[..i] == entries;
    }
  }
}
