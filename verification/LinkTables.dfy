/**
 Link tables: one vector of peers per actor, changed in place under its own lock
 (concurrency/src/link.rs). Every entry carries a token that identifies the
 insertion it came from, so that later modules can follow a single entry.
 */
module LinkTables {
  import opened Reasons

  datatype Entry = Entry(peer: ActorId, token: nat)

  predicate Has(table: seq<Entry>, peer: ActorId) {
    exists i :: 0 <= i < |table| && table[i].peer == peer
  }

  /** At most one entry per peer. */
  ghost predicate DistinctPeers(table: seq<Entry>) {
    forall i, j :: 0 <= i < j < |table| ==> table[i].peer != table[j].peer
  }

  /** The entries whose peer is not `peer`, in order. */
  function Without(table: seq<Entry>, peer: ActorId): (rest: seq<Entry>)
    ensures |rest| <= |table|
    ensures forall e :: e in rest <==> e in table && e.peer != peer
  {
    if table == [] then []
    else
      var init := Without(table[..|table| - 1], peer);
      var last := table[|table| - 1];
      assert table == table[..|table| - 1] + [last];
      if last.peer == peer then init else init + [last]
  }

  /** The entry for `peer`, if there is one. */
  function Find(table: seq<Entry>, peer: ActorId): (found: Option<Entry>)
    ensures found.Some? ==> found.value in table && found.value.peer == peer
    ensures found.None? ==> !Has(table, peer)
  {
    if table == [] then None
    else if table[0].peer == peer then Some(table[0])
    else
      var found := Find(table[1..], peer);
      assert found.None? ==> forall i :: 0 <= i < |table| ==> i == 0 || table[i] == table[1..][i - 1];
      found
  }

  lemma HasMember(table: seq<Entry>, e: Entry)
    requires e in table
    ensures Has(table, e.peer)
  {
    var i :| 0 <= i < |table| && table[i] == e;
  }

  /** With distinct peers an entry is determined by its peer. */
  lemma SamePeerSameEntry(table: seq<Entry>, e: Entry, f: Entry)
    requires DistinctPeers(table) && e in table && f in table && e.peer == f.peer
    ensures e == f
  {
    var i :| 0 <= i < |table| && table[i] == e;
    var j :| 0 <= j < |table| && table[j] == f;
    assert i < j ==> table[i].peer != table[j].peer;
  }

  /** Removing a peer keeps peers distinct and really removes the peer. */
  lemma {:induction false} WithoutDistinct(table: seq<Entry>, peer: ActorId)
    requires DistinctPeers(table)
    ensures DistinctPeers(Without(table, peer))
    ensures !Has(Without(table, peer), peer)
  {
    if table != [] {
      var prefix, last := table[..|table| - 1], table[|table| - 1];
      WithoutDistinct(prefix, peer);
      KeptDistinct(Without(prefix, peer), prefix, last);
    }
  }

  /** Entry by entry, in order: this and the empty table determine what is kept. */
  lemma WithoutAppend(table: seq<Entry>, e: Entry, peer: ActorId)
    ensures Without([], peer) == []
    ensures Without(table + [e], peer) == Without(table, peer) + if e.peer == peer then [] else [e]
  {
    assert (table + [e])[..|table|] == table;
  }

  lemma KeptDistinct(kept: seq<Entry>, prefix: seq<Entry>, last: Entry)
    requires DistinctPeers(kept) && DistinctPeers(prefix + [last])
    requires forall e :: e in kept ==> e in prefix
    ensures DistinctPeers(kept + [last])
  {
    forall i | 0 <= i < |kept| ensures kept[i].peer != last.peer {
      assert kept[i] in prefix;
      var k :| 0 <= k < |prefix| && prefix[k] == kept[i];
      assert (prefix + [last])[k] == kept[i] && (prefix + [last])[|prefix|] == last;
    }
  }

  /** A table after an entry was pushed, unless its peer has one already. */
  function Inserted(table: seq<Entry>, e: Entry): seq<Entry> {
    if Has(table, e.peer) then table else table + [e]
  }

  lemma HasAppend(table: seq<Entry>, e: Entry, p: ActorId)
    ensures Has(table + [e], p) <==> Has(table, p) || p == e.peer
  {
    var longer := table + [e];
    if Has(table, p) {
      var i :| 0 <= i < |table| && table[i].peer == p;
      assert longer[i].peer == p;
    }
    assert longer[|table|].peer == e.peer;
  }

  lemma InsertedHas(table: seq<Entry>, e: Entry, p: ActorId)
    ensures Has(Inserted(table, e), p) <==> Has(table, p) || p == e.peer
  {
    HasAppend(table, e, p);
  }

  /** The guard keeps one entry per peer, adds the peer, and keeps all others as they were. */
  lemma InsertedDistinct(table: seq<Entry>, e: Entry)
    requires DistinctPeers(table)
    ensures DistinctPeers(Inserted(table, e))
    ensures forall p :: Has(Inserted(table, e), p) <==> Has(table, p) || p == e.peer
  {
    forall p ensures Has(Inserted(table, e), p) <==> Has(table, p) || p == e.peer {
      InsertedHas(table, e, p);
    }
  }

  /** The mutable table itself; each method is one critical section of the source. */
  class LinkTable {
    var entries: seq<Entry>

    constructor ()
      ensures entries == []
    {
      entries := [];
    }

    /** Push an entry unless the peer is already linked. */
    method InsertIfAbsent(e: Entry) returns (inserted: bool)
      modifies this
      ensures inserted == !Has(old(entries), e.peer)
      ensures entries == Inserted(old(entries), e)
      ensures DistinctPeers(old(entries)) ==> DistinctPeers(entries)
    {
      if DistinctPeers(entries) {
        InsertedDistinct(entries, e);
      }
      var i := 0;
      while i < |entries|
        invariant 0 <= i <= |entries|
        invariant forall k :: 0 <= k < i ==> entries[k].peer != e.peer
      {
        if entries[i].peer == e.peer {
          return false;
        }
        i := i + 1;
      }
      entries := entries + [e];
      return true;
    }

    /** Keep every entry of another peer; say whether anything went. */
    method TakePeer(peer: ActorId) returns (removed: bool)
      modifies this
      ensures entries == Without(old(entries), peer)
      ensures removed == Has(old(entries), peer)
    {
      var kept: seq<Entry> := [];
      var i := 0;
      while i < |entries|
        invariant 0 <= i <= |entries|
        invariant entries == old(entries)
        invariant kept == Without(entries[..i], peer)
        invariant |kept| == i <==> !Has(entries[..i], peer)
      {
        assert entries[..i + 1] == entries[..i] + [entries[i]];
        HasAppend(entries[..i], entries[i], peer);
        if entries[i].peer != peer {
          kept := kept + [entries[i]];
        }
        i := i + 1;
      }
      assert entries[..i] == entries;
      removed := |kept| != |entries|;
      entries := kept;
    }

    /** Take the whole table, leaving it empty. */
    method Drain() returns (drained: seq<Entry>)
      modifies this
      ensures drained == old(entries) && entries == []
    {
      drained := entries;
      entries := [];
    }
  }

  lemma {:induction false} WithoutTwice(table: seq<Entry>, peer: ActorId)
    ensures Without(Without(table, peer), peer) == Without(table, peer)
  {
    if table != [] {
      var prefix, last := table[..|table| - 1], table[|table| - 1];
      WithoutTwice(prefix, peer);
      if last.peer != peer {
        var init := Without(prefix, peer);
        assert (init + [last])[..|init|] == init;
      }
    }
  }

  /**
   Both halves of a link, one table after the other; linking twice changes nothing. An actor
   linked to itself has one table for both halves.
   */
  method RegisterLink(own: ActorId, ownLinks: LinkTable, peer: ActorId, peerLinks: LinkTable, token: nat)
    modifies ownLinks, peerLinks
    ensures Has(ownLinks.entries, peer) && Has(peerLinks.entries, own)
    ensures ownLinks != peerLinks ==>
              && ownLinks.entries == Inserted(old(ownLinks.entries), Entry(peer, token))
              && peerLinks.entries == Inserted(old(peerLinks.entries), Entry(own, token + 1))
    ensures ownLinks == peerLinks ==>
              ownLinks.entries == Inserted(Inserted(old(ownLinks.entries), Entry(peer, token)), Entry(own, token + 1))
    ensures old(DistinctPeers(ownLinks.entries)) ==> DistinctPeers(ownLinks.entries)
    ensures old(DistinctPeers(peerLinks.entries)) ==> DistinctPeers(peerLinks.entries)
  {
    var _ := ownLinks.InsertIfAbsent(Entry(peer, token));
    InsertedHas(old(ownLinks.entries), Entry(peer, token), peer);
    InsertedHas(peerLinks.entries, Entry(own, token + 1), own);
    InsertedHas(peerLinks.entries, Entry(own, token + 1), peer);
    var _ := peerLinks.InsertIfAbsent(Entry(own, token + 1));
  }

  /**
   The exit loop with nobody interfering: the own table ends up empty, the dying actor is
   gone from the table of every peer it had, every other table is untouched, and the peers
   are signalled in table order, one signal per entry.
   */
  method PropagateExit(own: ActorId, tables: seq<LinkTable>) returns (signalled: seq<ActorId>)
    requires own < |tables|
    requires forall i, j :: 0 <= i < j < |tables| ==> tables[i] != tables[j]
    requires forall i :: 0 <= i < |tables[own].entries| ==> tables[own].entries[i].peer < |tables|
    modifies tables
    ensures tables[own].entries == []
    ensures |signalled| == old(|tables[own].entries|)
    ensures forall i :: 0 <= i < |signalled| ==> signalled[i] == old(tables[own].entries)[i].peer
    ensures forall p :: 0 <= p < |tables| && p != own ==>
              tables[p].entries == Unhooked(old(tables[p].entries), own, p in signalled)
  {
    var drained := tables[own].Drain();
    signalled := [];
    var i := 0;
    ghost var done: set<ActorId> := {};
    ghost var before := seq(|tables|, k requires 0 <= k < |tables| => old(tables[k].entries));
    while i < |drained|
      invariant 0 <= i <= |drained| && drained == old(tables[own].entries)
      invariant |signalled| == i && forall k :: 0 <= k < i ==> signalled[k] == drained[k].peer
      invariant forall p :: p in done <==> p in signalled
      invariant tables[own].entries == []
      invariant forall p :: 0 <= p < |tables| && p != own ==> Settled(tables, before, own, done, p)
    {
      var p := drained[i].peer;
      UnhookAndNote(tables, before, own, done, p);
      signalled, done := signalled + [p], done + {p};
      i := i + 1;
    }
    forall p | 0 <= p < |tables| && p != own
      ensures tables[p].entries == Unhooked(old(tables[p].entries), own, p in signalled)
    {
      assert Settled(tables, before, own, done, p);
    }
  }

  /** Table `p` is as it was before the loop, less the dying actor if it has been visited. */
  ghost predicate Settled(tables: seq<LinkTable>, before: seq<seq<Entry>>, own: ActorId, done: set<ActorId>, p: nat)
    requires p < |tables| == |before|
    reads tables[p]
  {
    tables[p].entries == Unhooked(before[p], own, p in done)
  }

  method UnhookAndNote(
      tables: seq<LinkTable>, ghost before: seq<seq<Entry>>, own: ActorId, ghost done: set<ActorId>, p: ActorId)
    requires own < |tables| == |before| && p < |tables| && tables[own].entries == []
    requires forall i, j :: 0 <= i < j < |tables| ==> tables[i] != tables[j]
    requires forall q :: 0 <= q < |tables| && q != own ==> Settled(tables, before, own, done, q)
    modifies tables[p]
    ensures tables[own].entries == []
    ensures forall q :: 0 <= q < |tables| && q != own ==> Settled(tables, before, own, done + {p}, q)
  {
    WithoutTwice(before[p], own);
    assert p != own ==> Settled(tables, before, own, done, p);
    UnhookOne(tables, own, p);
    forall q | 0 <= q < |tables| && q != own ensures Settled(tables, before, own, done + {p}, q) {
      assert q != p ==> old(Settled(tables, before, own, done, q));
    }
  }

  function Unhooked(table: seq<Entry>, own: ActorId, hit: bool): seq<Entry> {
    if hit then Without(table, own) else table
  }

  method UnhookOne(tables: seq<LinkTable>, own: ActorId, p: ActorId)
    requires p < |tables|
    requires forall i, j :: 0 <= i < j < |tables| ==> tables[i] != tables[j]
    modifies tables[p]
    ensures tables[p].entries == Without(old(tables[p].entries), own)
    ensures forall q :: 0 <= q < |tables| && q != p ==> tables[q].entries == old(tables[q].entries)
  {
    var _ := tables[p].TakePeer(own);
  }
}
