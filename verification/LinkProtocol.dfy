/**
 Linking, unlinking and exiting, interleaved at the granularity of the table locks
 (concurrency/src/link.rs:124-239, concurrency/src/tasks/actor.rs:863-880).

 Any number of `link_handles` and `unregister_link` calls run concurrently with actors
 that exit. Every entry ever pushed into a table is numbered by a token, and the state
 records what became of it. In every interleaving a table holds a peer at most once and
 an entry leads to at most one exit signal, whether through the drained table of the
 dying actor or through the fallback of `link_handles` for a dead target. For the entry a
 link call pushes into its target's table the signal is certain unless it was pushed after
 the drain *and* the call looked at the target's completion before it was published. The
 fallback looks at the target only; what becomes of every other entry is in LinkFates.
 */
module LinkProtocol {
  import opened Reasons
  import opened LinkTables

  /** Who holds an entry for whom, and whether it was pushed after the holder drained its table. */
  datatype Birth = Birth(holder: ActorId, peer: ActorId, late: bool)

  datatype Fate =
    | Held                // still in the holder's table
    | Drained             // in the list the exiting holder works off
    | Carried(op: nat)    // taken by the fallback of a link call that is about to signal
    // signalled: where in the log, and by which link call if not by the holder
    | Delivered(at: nat, caller: Option<nat>)
    | Unlinked            // removed by an unlink
    | PeerGone            // removed by the exiting peer itself

  datatype Phase =
    | Alive
    | Propagating(reason: ExitReason, pending: seq<Entry>, unhooked: bool)
    | Published(reason: ExitReason)

  /** A call; `mine` is the token it pushed into the target's table, `took` the one its fallback signalled. */
  datatype Op =
    | LinkOwn(owner: ActorId, target: ActorId)
    | LinkPeer(owner: ActorId, target: ActorId)
    | LinkRead(owner: ActorId, target: ActorId, mine: Option<nat>)
    | LinkTake(owner: ActorId, target: ActorId, mine: Option<nat>, reason: ExitReason)
    | LinkSignal(owner: ActorId, target: ActorId, mine: Option<nat>, reason: ExitReason, token: nat)
    | LinkDone(owner: ActorId, target: ActorId, mine: Option<nat>, sawAlive: bool, took: Option<nat>)
    | UnlinkOwn(owner: ActorId, target: ActorId)
    | UnlinkPeer(owner: ActorId, target: ActorId)
    | UnlinkDone(owner: ActorId, target: ActorId)

  /** An exit signal: `to` is told that `from` ended with `reason`. */
  datatype Delivery = Delivery(to: ActorId, from: ActorId, reason: ExitReason, token: nat)

  datatype State = State(
    tables: seq<seq<Entry>>, phases: seq<Phase>, ops: seq<Op>,
    born: seq<Birth>, fate: seq<Fate>, log: seq<Delivery>)

  datatype Move =
    | StartLink(owner: ActorId, target: ActorId)
    | StartUnlink(owner: ActorId, target: ActorId)
    | Continue(op: nat)
    | Exit(actor: ActorId, reason: ExitReason)
    | Propagate(actor: ActorId)

  function Start(n: nat): State {
    State(seq(n, _ => []), seq(n, _ => Alive), [], [], [], [])
  }

  predicate Shape(s: State) {
    |s.tables| == |s.phases| && |s.born| == |s.fate|
  }

  predicate Enabled(s: State, m: Move) {
    match m
    case StartLink(owner, target) => owner < |s.tables| && target < |s.tables|
    case StartUnlink(owner, target) => owner < |s.tables| && target < |s.tables|
    case Continue(o) =>
      && o < |s.ops| && !s.ops[o].LinkDone? && !s.ops[o].UnlinkDone?
      && s.ops[o].owner < |s.tables| && s.ops[o].target < |s.tables|
    case Exit(a, _) => a < |s.phases| && s.phases[a].Alive?
    case Propagate(a) =>
      && a < |s.phases| && s.phases[a].Propagating?
      && (s.phases[a].pending != [] ==> s.phases[a].pending[0].peer < |s.tables|)
  }

  // ----- the critical sections -----

  /** Lock `holder`'s table and push an entry for `peer` unless there is one. */
  function Push(s: State, holder: ActorId, peer: ActorId): State
    requires holder < |s.tables| == |s.phases|
  {
    if Has(s.tables[holder], peer) then s
    else s.(tables := s.tables[holder := s.tables[holder] + [Entry(peer, |s.fate|)]],
            born := s.born + [Birth(holder, peer, !s.phases[holder].Alive?)],
            fate := s.fate + [Held])
  }

  function Pushed(s: State, holder: ActorId, peer: ActorId): Option<nat>
    requires holder < |s.tables|
  {
    if Has(s.tables[holder], peer) then None else Some(|s.fate|)
  }

  /** Lock `holder`'s table and drop its entry for `peer`; a dropped entry meets fate `f`. */
  function Drop(s: State, holder: ActorId, peer: ActorId, f: Fate): State
    requires holder < |s.tables|
  {
    var found := Find(s.tables[holder], peer);
    s.(tables := s.tables[holder := Without(s.tables[holder], peer)],
       fate := if found.Some? && found.value.token < |s.fate| then s.fate[found.value.token := f] else s.fate)
  }

  function SetOp(s: State, o: nat, op: Op): State
    requires o < |s.ops|
  {
    s.(ops := s.ops[o := op])
  }

  function Deliver(s: State, to: ActorId, from: ActorId, reason: ExitReason, token: nat, caller: Option<nat>): State {
    s.(log := s.log + [Delivery(to, from, reason, token)],
       fate := if token < |s.fate| then s.fate[token := Delivered(|s.log|, caller)] else s.fate)
  }

  /** The next critical section of a call. */
  function Resume(s: State, o: nat): State
    requires o < |s.ops| && |s.tables| == |s.phases|
    requires s.ops[o].owner < |s.tables| && s.ops[o].target < |s.tables|
  {
    match s.ops[o]
    case LinkOwn(a, p) => SetOp(Push(s, a, p), o, LinkPeer(a, p))
    case LinkPeer(a, p) => SetOp(Push(s, p, a), o, LinkRead(a, p, Pushed(s, p, a)))
    case LinkRead(a, p, mine) =>
      if s.phases[p].Published? then SetOp(s, o, LinkTake(a, p, mine, s.phases[p].reason))
      else SetOp(s, o, LinkDone(a, p, mine, true, None))
    case LinkTake(a, p, mine, reason) =>
      var found := Find(s.tables[p], a);
      if found.Some? then SetOp(Drop(s, p, a, Carried(o)), o, LinkSignal(a, p, mine, reason, found.value.token))
      else SetOp(s, o, LinkDone(a, p, mine, false, None))
    case LinkSignal(a, p, mine, reason, token) =>
      SetOp(Deliver(s, a, p, reason, token, Some(o)), o, LinkDone(a, p, mine, false, Some(token)))
    case UnlinkOwn(a, p) => SetOp(Drop(s, a, p, Unlinked), o, UnlinkPeer(a, p))
    case UnlinkPeer(a, p) => SetOp(Drop(s, p, a, Unlinked), o, UnlinkDone(a, p))
    case _ => s
  }

  /** Fates after the holder of these entries has drained its table. */
  function DrainFates(fate: seq<Fate>, born: seq<Birth>, holder: ActorId): seq<Fate>
    requires |born| == |fate|
  {
    seq(|fate|, k requires 0 <= k < |fate| =>
      if fate[k].Held? && born[k].holder == holder then Drained else fate[k])
  }

  /** The next critical section of `propagate_exit`, and the publication after it. */
  function PropagateStep(s: State, a: ActorId): State
    requires a < |s.phases| == |s.tables| && s.phases[a].Propagating?
    requires s.phases[a].pending != [] ==> s.phases[a].pending[0].peer < |s.tables|
  {
    var Propagating(reason, pending, unhooked) := s.phases[a];
    if pending == [] then s.(phases := s.phases[a := Published(reason)])
    else if !unhooked then
      var dropped := Drop(s, pending[0].peer, a, PeerGone);
      dropped.(phases := s.phases[a := Propagating(reason, pending, true)])
    else
      var sent := Deliver(s, pending[0].peer, a, reason, pending[0].token, None);
      sent.(phases := s.phases[a := Propagating(reason, pending[1..], false)])
  }

  function Step(s: State, m: Move): (s': State)
    requires Shape(s) && Enabled(s, m)
    ensures Shape(s')
  {
    match m
    case StartLink(a, p) => s.(ops := s.ops + [LinkOwn(a, p)])
    case StartUnlink(a, p) => s.(ops := s.ops + [UnlinkOwn(a, p)])
    case Continue(o) => Resume(s, o)
    case Exit(a, reason) =>
      s.(tables := s.tables[a := []],
         phases := s.phases[a := Propagating(reason, s.tables[a], false)],
         fate := DrainFates(s.fate, s.born, a))
    case Propagate(a) => PropagateStep(s, a)
  }

  // ----- the invariant -----

  ghost predicate EntryOk(s: State, a: ActorId, e: Entry)
    requires |s.born| == |s.fate| && |s.tables| == |s.phases| && a < |s.phases|
  {
    && e.token < |s.fate| && s.fate[e.token].Held?
    && s.born[e.token].holder == a && s.born[e.token].peer == e.peer && e.peer < |s.tables|
    && (s.phases[a].Alive? <==> !s.born[e.token].late)
  }

  ghost predicate TableOk(s: State, a: ActorId)
    requires |s.born| == |s.fate| && |s.tables| == |s.phases| && a < |s.phases|
  {
    DistinctPeers(s.tables[a]) && forall e :: e in s.tables[a] ==> EntryOk(s, a, e)
  }

  ghost predicate PendingOk(s: State, a: ActorId, e: Entry)
    requires |s.born| == |s.fate|
  {
    && e.token < |s.fate| && s.fate[e.token].Drained? && !s.born[e.token].late
    && s.born[e.token].holder == a && s.born[e.token].peer == e.peer && e.peer < |s.tables|
  }

  ghost predicate PhaseOk(s: State, a: ActorId)
    requires |s.born| == |s.fate| && a < |s.phases|
  {
    s.phases[a].Propagating? ==>
      DistinctPeers(s.phases[a].pending) && forall e :: e in s.phases[a].pending ==> PendingOk(s, a, e)
  }

  ghost predicate OpOk(s: State, o: nat)
    requires |s.born| == |s.fate| && |s.tables| == |s.phases| && o < |s.ops|
  {
    && s.ops[o].owner < |s.tables| && s.ops[o].target < |s.tables|
    && (s.ops[o].LinkTake? || s.ops[o].LinkSignal? ==>
          s.phases[s.ops[o].target] == Published(s.ops[o].reason))
    && (s.ops[o].LinkSignal? ==>
          && s.ops[o].token < |s.fate| && s.fate[s.ops[o].token] == Carried(o) && s.born[s.ops[o].token].late
          && s.born[s.ops[o].token].holder == s.ops[o].target && s.born[s.ops[o].token].peer == s.ops[o].owner)
    && (s.ops[o].LinkDone? && s.ops[o].took.Some? ==>
          && !s.ops[o].sawAlive && s.ops[o].took.value < |s.fate|
          && s.fate[s.ops[o].took.value].Delivered? && s.fate[s.ops[o].took.value].caller == Some(o)
          && s.born[s.ops[o].took.value].late
          && s.born[s.ops[o].took.value].holder == s.ops[o].target
          && s.born[s.ops[o].took.value].peer == s.ops[o].owner)
    && (s.ops[o].LinkRead? || s.ops[o].LinkTake? || s.ops[o].LinkSignal? || s.ops[o].LinkDone? ==>
          s.ops[o].mine.Some? ==>
            && s.ops[o].mine.value < |s.fate|
            && s.born[s.ops[o].mine.value].holder == s.ops[o].target
            && s.born[s.ops[o].mine.value].peer == s.ops[o].owner
            // Once the fallback has looked, the entry is no longer in the table.
            && (s.ops[o].LinkSignal? || (s.ops[o].LinkDone? && !s.ops[o].sawAlive) ==>
                  !s.fate[s.ops[o].mine.value].Held?))
  }

  /** Every token is exactly where its fate says. */
  ghost predicate TokenOk(s: State, k: nat)
    requires |s.born| == |s.fate| && |s.tables| == |s.phases| && k < |s.fate|
  {
    && s.born[k].holder < |s.tables|
    && match s.fate[k]
       case Held => Entry(s.born[k].peer, k) in s.tables[s.born[k].holder]
       case Drained => s.phases[s.born[k].holder].Propagating?
                       && Entry(s.born[k].peer, k) in s.phases[s.born[k].holder].pending
       case Carried(o) => o < |s.ops| && s.ops[o].LinkSignal? && s.ops[o].token == k
       case Delivered(i, caller) =>
         && i < |s.log| && s.log[i].token == k
         && (caller.None? ==> !s.born[k].late)
         && (caller.Some? ==>
               caller.value < |s.ops| && s.ops[caller.value].LinkDone? && s.ops[caller.value].took == Some(k))
       case Unlinked => true
       case PeerGone => s.born[k].peer < |s.phases| && !s.phases[s.born[k].peer].Alive?
  }

  ghost predicate LogOk(s: State, i: nat)
    requires |s.born| == |s.fate| && |s.tables| == |s.phases| && i < |s.log|
  {
    var d := s.log[i];
    && d.token < |s.fate| && s.fate[d.token].Delivered? && s.fate[d.token].at == i
    && d.from == s.born[d.token].holder && d.to == s.born[d.token].peer
    && d.from < |s.phases| && !s.phases[d.from].Alive? && s.phases[d.from].reason == d.reason
  }

  ghost predicate Inv(s: State) {
    && Shape(s)
    && (forall a: ActorId :: a < |s.tables| ==> TableOk(s, a))
    && (forall a: ActorId :: a < |s.tables| ==> PhaseOk(s, a))
    && (forall o: nat :: o < |s.ops| ==> OpOk(s, o))
    && (forall k: nat :: k < |s.fate| ==> TokenOk(s, k))
    && (forall i: nat :: i < |s.log| ==> LogOk(s, i))
  }

  lemma StartInv(n: nat)
    ensures Inv(Start(n))
  {
  }

  // ----- every step keeps the invariant -----

  lemma PushKeeps(s: State, h: ActorId, p: ActorId)
    requires Inv(s) && h < |s.tables| && p < |s.tables|
    ensures Inv(Push(s, h, p))
  {
    var s' := Push(s, h, p);
    if !Has(s.tables[h], p) {
      forall a: ActorId | a < |s.tables| ensures TableOk(s', a) && PhaseOk(s', a) {
        assert TableOk(s, a) && PhaseOk(s, a);
      }
      forall o: nat | o < |s.ops| ensures OpOk(s', o) {
        assert OpOk(s, o);
      }
      forall k: nat | k < |s'.fate| ensures TokenOk(s', k) {
        if k < |s.fate| {
          assert TokenOk(s, k);
        }
      }
      forall i: nat | i < |s.log| ensures LogOk(s', i) {
        assert LogOk(s, i);
      }
    }
  }

  /** Moving a call on without touching a table. */
  lemma SetOpKeeps(s: State, o: nat, op: Op)
    requires Inv(s) && o < |s.ops| && !s.ops[o].LinkSignal? && !s.ops[o].LinkDone? && !op.LinkSignal?
    requires OpOk(SetOp(s, o, op), o)
    ensures Inv(SetOp(s, o, op))
  {
    var s' := SetOp(s, o, op);
    forall a: ActorId | a < |s.tables| ensures TableOk(s', a) && PhaseOk(s', a) {
      assert TableOk(s, a) && PhaseOk(s, a);
    }
    forall q: nat | q < |s.ops| ensures OpOk(s', q) {
      assert OpOk(s, q);
    }
    forall k: nat | k < |s.fate| ensures TokenOk(s', k) {
      assert TokenOk(s, k);
    }
    forall i: nat | i < |s.log| ensures LogOk(s', i) {
      assert LogOk(s, i);
    }
  }

  /** What dropping an entry does to one table and to one token. */
  lemma DropEffect(s: State, h: ActorId, p: ActorId, f: Fate)
    requires Inv(s) && h < |s.tables| && p < |s.tables|
    ensures var s' := Drop(s, h, p, f);
            && |s'.fate| == |s.fate| && |s'.tables| == |s.tables|
            && DistinctPeers(s'.tables[h]) && !Has(s'.tables[h], p)
            && (forall k: nat :: k < |s.fate| ==>
                  s'.fate[k] ==
                  if s.fate[k].Held? && s.born[k].holder == h && s.born[k].peer == p then f else s.fate[k])
  {
    var s' := Drop(s, h, p, f);
    assert TableOk(s, h);
    WithoutDistinct(s.tables[h], p);
    var found := Find(s.tables[h], p);
    if found.Some? {
      assert EntryOk(s, h, found.value);
    }
    forall k: nat | k < |s.fate|
      ensures s'.fate[k] == if s.fate[k].Held? && s.born[k].holder == h && s.born[k].peer == p then f else s.fate[k]
    {
      assert TokenOk(s, k);
      if s.fate[k].Held? && s.born[k].holder == h && s.born[k].peer == p {
        HasMember(s.tables[h], Entry(p, k));
        SamePeerSameEntry(s.tables[h], Entry(p, k), found.value);
      }
    }
  }

  lemma DropKeepsTables(s: State, h: ActorId, p: ActorId, f: Fate, a: ActorId)
    requires Inv(s) && h < |s.tables| && p < |s.tables| && a < |s.tables| && !f.Held? && !f.Drained?
    ensures TableOk(Drop(s, h, p, f), a) && PhaseOk(Drop(s, h, p, f), a)
  {
    var s' := Drop(s, h, p, f);
    DropEffect(s, h, p, f);
    assert TableOk(s, a) && PhaseOk(s, a);
    forall e | e in s'.tables[a] ensures EntryOk(s', a, e) {
      assert EntryOk(s, a, e);
    }
    if s.phases[a].Propagating? {
      forall e | e in s.phases[a].pending ensures PendingOk(s', a, e) {
        assert PendingOk(s, a, e);
      }
    }
  }

  lemma DropKeeps(s: State, h: ActorId, p: ActorId, f: Fate)
    requires Inv(s) && h < |s.tables| && p < |s.tables|
    requires f.Unlinked? || (f.PeerGone? && !s.phases[p].Alive?)
    ensures Inv(Drop(s, h, p, f))
  {
    var s' := Drop(s, h, p, f);
    DropEffect(s, h, p, f);
    forall a: ActorId | a < |s.tables| ensures TableOk(s', a) && PhaseOk(s', a) {
      DropKeepsTables(s, h, p, f, a);
    }
    forall o: nat | o < |s.ops| ensures OpOk(s', o) {
      assert OpOk(s, o);
    }
    forall k: nat | k < |s.fate| ensures TokenOk(s', k) {
      assert TokenOk(s, k);
    }
    forall i: nat | i < |s.log| ensures LogOk(s', i) {
      assert LogOk(s, i);
    }
  }

  /** The fallback takes the entry out of the dead target's table. */
  lemma TakeKeeps(s: State, o: nat)
    requires Inv(s) && o < |s.ops| && OpOk(s, o) && s.ops[o].LinkTake?
    ensures Inv(Resume(s, o))
  {
    var LinkTake(a, p, mine, reason) := s.ops[o];
    var s' := Resume(s, o);
    assert TableOk(s, p);
    var found := Find(s.tables[p], a);
    if found.None? {
      if mine.Some? && s.fate[mine.value].Held? {
        assert TokenOk(s, mine.value);
        HasMember(s.tables[p], Entry(a, mine.value));
      }
      SetOpKeeps(s, o, LinkDone(a, p, mine, false, None));
    } else {
      assert EntryOk(s, p, found.value);
      var dropped := Drop(s, p, a, Carried(o));
      DropEffect(s, p, a, Carried(o));
      forall b: ActorId | b < |s.tables| ensures TableOk(s', b) && PhaseOk(s', b) {
        DropKeepsTables(s, p, a, Carried(o), b);
        assert TableOk(dropped, b) && PhaseOk(dropped, b);
      }
      forall q: nat | q < |s.ops| ensures OpOk(s', q) {
        assert OpOk(s, q);
      }
      forall k: nat | k < |s.fate| ensures TokenOk(s', k) {
        assert TokenOk(s, k);
        if s'.fate[k] == Carried(o) && s.fate[k].Held? {
          SamePeerSameEntry(s.tables[p], Entry(a, k), found.value);
        }
      }
      forall i: nat | i < |s.log| ensures LogOk(s', i) {
        assert LogOk(s, i);
      }
    }
  }

  /** A token that is neither in a table nor pending can be delivered without disturbing either. */
  lemma DeliverTables(s: State, s': State, token: nat, a: ActorId)
    requires Inv(s) && a < |s.tables| && token < |s.fate| && |s'.tables| == |s.tables| == |s'.phases|
    requires s'.tables[a] == s.tables[a] && s'.born == s.born && |s'.fate| == |s.fate|
    requires s'.phases[a] == s.phases[a]
    requires !s.fate[token].Held? && (s.fate[token].Drained? ==> s.born[token].holder != a)
    requires forall k: nat :: k < |s.fate| && k != token ==> s'.fate[k] == s.fate[k]
    ensures TableOk(s', a) && PhaseOk(s', a)
  {
    assert TableOk(s, a) && PhaseOk(s, a);
    forall e | e in s.tables[a] ensures EntryOk(s', a, e) {
      assert EntryOk(s, a, e);
    }
    if s.phases[a].Propagating? {
      forall e | e in s.phases[a].pending ensures PendingOk(s', a, e) {
        assert PendingOk(s, a, e);
      }
    }
  }

  lemma SignalKeeps(s: State, o: nat)
    requires Inv(s) && o < |s.ops| && OpOk(s, o) && s.ops[o].LinkSignal?
    ensures Inv(Resume(s, o))
  {
    var LinkSignal(a, p, mine, reason, token) := s.ops[o];
    var s' := Resume(s, o);
    forall b: ActorId | b < |s.tables| ensures TableOk(s', b) && PhaseOk(s', b) {
      DeliverTables(s, s', token, b);
    }
    forall q: nat | q < |s.ops| ensures OpOk(s', q) {
      assert OpOk(s, q);
    }
    forall k: nat | k < |s.fate| ensures TokenOk(s', k) {
      assert TokenOk(s, k);
    }
    forall i: nat | i < |s'.log| ensures LogOk(s', i) {
      if i < |s.log| {
        assert LogOk(s, i);
      }
    }
  }

  lemma ResumeKeeps(s: State, o: nat)
    requires Inv(s) && o < |s.ops| && OpOk(s, o)
    ensures Inv(Resume(s, o))
  {
    match s.ops[o]
    case LinkOwn(a, p) =>
      PushKeeps(s, a, p);
      SetOpKeeps(Push(s, a, p), o, LinkPeer(a, p));
    case LinkPeer(a, p) =>
      PushKeeps(s, p, a);
      SetOpKeeps(Push(s, p, a), o, LinkRead(a, p, Pushed(s, p, a)));
    case LinkRead(a, p, mine) =>
      var next :=
        if s.phases[p].Published? then LinkTake(a, p, mine, s.phases[p].reason)
        else LinkDone(a, p, mine, true, None);
      SetOpKeeps(s, o, next);
    case LinkTake(_, _, _, _) => TakeKeeps(s, o);
    case LinkSignal(_, _, _, _, _) => SignalKeeps(s, o);
    case UnlinkOwn(a, p) =>
      DropKeeps(s, a, p, Unlinked);
      SetOpKeeps(Drop(s, a, p, Unlinked), o, UnlinkPeer(a, p));
    case UnlinkPeer(a, p) =>
      DropKeeps(s, p, a, Unlinked);
      SetOpKeeps(Drop(s, p, a, Unlinked), o, UnlinkDone(a, p));
    case _ =>
  }

  lemma ExitKeeps(s: State, a: ActorId, reason: ExitReason)
    requires Inv(s) && Enabled(s, Exit(a, reason))
    ensures Inv(Step(s, Exit(a, reason)))
  {
    var s' := Step(s, Exit(a, reason));
    assert TableOk(s, a);
    forall e | e in s.tables[a] ensures PendingOk(s', a, e) {
      assert EntryOk(s, a, e);
    }
    forall b: ActorId | b < |s.tables| ensures TableOk(s', b) && PhaseOk(s', b) {
      assert TableOk(s, b) && PhaseOk(s, b);
      forall e | e in s'.tables[b] ensures EntryOk(s', b, e) {
        assert EntryOk(s, b, e);
      }
      if b != a && s.phases[b].Propagating? {
        forall e | e in s.phases[b].pending ensures PendingOk(s', b, e) {
          assert PendingOk(s, b, e);
        }
      }
    }
    forall o: nat | o < |s.ops| ensures OpOk(s', o) {
      assert OpOk(s, o);
    }
    forall k: nat | k < |s.fate| ensures TokenOk(s', k) {
      assert TokenOk(s, k);
    }
    forall i: nat | i < |s.log| ensures LogOk(s', i) {
      assert LogOk(s, i);
    }
  }

  /** Moving `propagate_exit` on, with everything but its own phase untouched. */
  lemma SetPhaseKeeps(s: State, a: ActorId, phase: Phase)
    requires Inv(s) && a < |s.phases| && s.phases[a].Propagating?
    requires phase.Published? || (phase.Propagating? && phase.pending == s.phases[a].pending)
    requires phase.Published? ==> s.phases[a].pending == []
    requires phase.reason == s.phases[a].reason
    ensures Inv(s.(phases := s.phases[a := phase]))
  {
    var s' := s.(phases := s.phases[a := phase]);
    forall b: ActorId | b < |s.tables| ensures TableOk(s', b) && PhaseOk(s', b) {
      assert TableOk(s, b) && PhaseOk(s, b);
      forall e | e in s.tables[b] ensures EntryOk(s', b, e) {
        assert EntryOk(s, b, e);
      }
    }
    forall o: nat | o < |s.ops| ensures OpOk(s', o) {
      assert OpOk(s, o);
    }
    forall k: nat | k < |s.fate| ensures TokenOk(s', k) {
      assert TokenOk(s, k);
    }
    forall i: nat | i < |s.log| ensures LogOk(s', i) {
      assert LogOk(s, i);
    }
  }

  lemma PropagateDeliverKeeps(s: State, a: ActorId)
    requires Inv(s) && a < |s.phases| && s.phases[a].Propagating? && s.phases[a].unhooked && s.phases[a].pending != []
    requires s.phases[a].pending[0].peer < |s.tables|
    ensures Inv(PropagateStep(s, a))
  {
    var s' := PropagateStep(s, a);
    var pending := s.phases[a].pending;
    var token := pending[0].token;
    assert PhaseOk(s, a) && TableOk(s, a);
    assert pending[0] in pending && PendingOk(s, a, pending[0]);
    forall b: ActorId | b < |s.tables| ensures TableOk(s', b) && PhaseOk(s', b) {
      if b != a {
        DeliverTables(s, s', token, b);
      } else {
        forall e | e in s.tables[a] ensures EntryOk(s', a, e) {
          assert EntryOk(s, a, e);
        }
        forall e | e in pending[1..] ensures PendingOk(s', a, e) {
          var i :| 0 <= i < |pending| - 1 && pending[1..][i] == e;
          assert pending[i + 1] in pending && PendingOk(s, a, pending[i + 1]);
          assert pending[0].peer != pending[i + 1].peer;
        }
      }
    }
    forall o: nat | o < |s.ops| ensures OpOk(s', o) {
      assert OpOk(s, o);
    }
    forall k: nat | k < |s.fate| ensures TokenOk(s', k) {
      assert TokenOk(s, k);
      if s'.fate[k].Drained? && s.born[k].holder == a {
        var e := Entry(s.born[k].peer, k);
        var i :| 0 <= i < |pending| && pending[i] == e;
        assert pending[1..][i - 1] == e;
      }
    }
    forall i: nat | i < |s'.log| ensures LogOk(s', i) {
      if i < |s.log| {
        assert LogOk(s, i);
      }
    }
  }

  lemma PropagateKeeps(s: State, a: ActorId)
    requires Inv(s) && Enabled(s, Propagate(a))
    ensures Inv(Step(s, Propagate(a)))
  {
    var Propagating(reason, pending, unhooked) := s.phases[a];
    if pending == [] {
      SetPhaseKeeps(s, a, Published(reason));
    } else if !unhooked {
      DropKeeps(s, pending[0].peer, a, PeerGone);
      SetPhaseKeeps(Drop(s, pending[0].peer, a, PeerGone), a, Propagating(reason, pending, true));
    } else {
      PropagateDeliverKeeps(s, a);
    }
  }

  lemma StartOpKeeps(s: State, op: Op)
    requires Inv(s) && (op.LinkOwn? || op.UnlinkOwn?) && op.owner < |s.tables| && op.target < |s.tables|
    ensures Inv(s.(ops := s.ops + [op]))
  {
    var s' := s.(ops := s.ops + [op]);
    forall a: ActorId | a < |s.tables| ensures TableOk(s', a) && PhaseOk(s', a) {
      assert TableOk(s, a) && PhaseOk(s, a);
    }
    forall o: nat | o < |s'.ops| ensures OpOk(s', o) {
      if o < |s.ops| {
        assert OpOk(s, o);
      }
    }
    forall k: nat | k < |s.fate| ensures TokenOk(s', k) {
      assert TokenOk(s, k);
    }
    forall i: nat | i < |s.log| ensures LogOk(s', i) {
      assert LogOk(s, i);
    }
  }

  lemma StepKeepsInv(s: State, m: Move)
    requires Inv(s) && Enabled(s, m)
    ensures Inv(Step(s, m))
  {
    match m
    case StartLink(a, p) => StartOpKeeps(s, LinkOwn(a, p));
    case StartUnlink(a, p) => StartOpKeeps(s, UnlinkOwn(a, p));
    case Continue(o) => ResumeKeeps(s, o);
    case Exit(a, reason) => ExitKeeps(s, a, reason);
    case Propagate(a) => PropagateKeeps(s, a);
  }
}
