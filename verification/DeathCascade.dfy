/**
 The cascade of deaths along links, one locked section or atomic access per step
 (concurrency/src/link.rs, the exit path of concurrency/src/tasks/actor.rs).

 One actor, the origin, has stopped with some reason; nobody else stops, panics or
 changes a link. A schedule says who performs the next step, and in which order a
 drained table is worked off. Every schedule is finite, and whichever way the steps
 interleave, the same actors die, all with the origin's reason, and every survivor
 that traps exits has received exactly one `Exit` from each of its dead neighbours.

 Link tables are sets here: `LinkProtocol` shows that they never hold a peer twice,
 and the results below hold for every order of their entries.
 */
module DeathCascade {
  import opened Reasons

  /** The fixed surroundings of a cascade: links, trap flags, and who failed why. */
  datatype World = World(links: seq<set<ActorId>>, traps: seq<bool>, origin: ActorId, reason: ExitReason) {
    ghost predicate Valid() {
      && |links| == |traps| && origin < |links|
      && (forall a: ActorId, p: ActorId :: Linked(a, p) ==> p < |links| && Linked(p, a))
    }

    predicate Linked(a: ActorId, p: ActorId) {
      a < |links| && p in links[a]
    }

    /** Whether a signal cancels this actor. */
    predicate Dies(p: ActorId)
      requires p < |traps|
    {
      reason.Kill? || (!reason.Normal? && !traps[p])
    }

    /** Whether a signal reaches this actor as an `Exit` message. */
    predicate Notified(p: ActorId)
      requires p < |traps|
    {
      !reason.Kill? && traps[p]
    }
  }

  datatype Exit = Exit(from: ActorId, reason: ExitReason)

  /** Where the loop of `propagate_exit` stands: between entries, or at one of them. */
  datatype Stage = Next | Deliver(peer: ActorId) | Cancel(peer: ActorId)

  datatype Phase =
    | Running
    | Resolved(reason: ExitReason)                                            // run_actor has returned
    | Propagating(reason: ExitReason, pending: set<ActorId>, stage: Stage)    // own table drained
    | Published(reason: ExitReason)                                           // completion sent

  datatype Actor = Actor(table: set<ActorId>, slot: Option<ExitReason>, cancelled: bool, phase: Phase, mail: seq<Exit>)

  /** Actor ids are positions. */
  type System = seq<Actor>

  /** One scheduled step: who moves, and which entry it takes up next if it has a choice. */
  datatype Move = Move(actor: ActorId, pick: ActorId)

  predicate Enabled(s: System, m: Move) {
    && m.actor < |s|
    && match s[m.actor].phase
       case Running => s[m.actor].cancelled
       case Resolved(_) => true
       case Propagating(_, pending, stage) =>
         (match stage
          case Next => pending == {} || (m.pick in pending && m.pick < |s|)
          case Deliver(p) => p < |s|
          case Cancel(p) => p < |s|)
       case Published(_) => false
  }

  ghost predicate Quiet(s: System) {
    forall m :: !Enabled(s, m)
  }

  // ----- the steps -----

  function Advance(actor: Actor, p: ActorId): Actor
    requires actor.phase.Propagating?
  {
    actor.(phase := Propagating(actor.phase.reason, actor.phase.pending - {p}, Next))
  }

  /** `make_signal` up to the cancellation: the reason and the trap flag decide. */
  function Signal(w: World, s: System, a: ActorId, p: ActorId): System
    requires a < |s| && p < |s| && |w.traps| == |s| && s[a].phase.Propagating?
  {
    var r := s[a].phase.reason;
    if r.Kill? || (!r.Normal? && !w.traps[p]) then
      var filled := s[p := s[p].(slot := if s[p].slot.None? then Some(r) else s[p].slot)];
      filled[a := filled[a].(phase := filled[a].phase.(stage := Cancel(p)))]
    else if w.traps[p] && s[p].phase.Running? then
      var sent := s[p := s[p].(mail := s[p].mail + [Exit(a, r)])];
      sent[a := Advance(sent[a], p)]
    else
      // Dropped: a normal exit nobody traps, or a mailbox whose receiver is gone.
      s[a := Advance(s[a], p)]
  }

  function Step(w: World, s: System, m: Move): (s': System)
    requires |w.traps| == |s| && Enabled(s, m)
    ensures |s'| == |s|
  {
    var a := m.actor;
    match s[a].phase
    case Running =>
      s[a := s[a].(slot := None, phase := Resolved(Resolve(Normal, None, s[a].slot)))]
    case Resolved(r) =>
      s[a := s[a].(table := {}, phase := Propagating(r, s[a].table, Next))]
    case Propagating(r, pending, stage) =>
      (match stage
       case Next =>
         if pending == {} then s[a := s[a].(phase := Published(r))]
         else
           var unhooked := s[m.pick := s[m.pick].(table := s[m.pick].table - {a})];
           unhooked[a := unhooked[a].(phase := Propagating(r, pending, Deliver(m.pick)))]
       case Deliver(p) => Signal(w, s, a, p)
       case Cancel(p) =>
         var cancelled := s[p := s[p].(cancelled := true)];
         cancelled[a := Advance(cancelled[a], p)])
    case Published(r) => s
  }

  ghost predicate ValidSchedule(w: World, s: System, schedule: seq<Move>)
    requires |w.traps| == |s|
    decreases |schedule|
  {
    schedule == [] || (Enabled(s, schedule[0]) && ValidSchedule(w, Step(w, s, schedule[0]), schedule[1..]))
  }

  ghost function Run(w: World, s: System, schedule: seq<Move>): (s': System)
    requires |w.traps| == |s| && ValidSchedule(w, s, schedule)
    ensures |s'| == |s|
    decreases |schedule|
  {
    if schedule == [] then s else Run(w, Step(w, s, schedule[0]), schedule[1..])
  }

  /** Only the origin has stopped; nothing has been signalled yet. */
  function Start(w: World): System
    requires |w.links| == |w.traps|
  {
    seq(|w.links|, a requires 0 <= a < |w.links| =>
      Actor(w.links[a], None, false, if a == w.origin then Resolved(w.reason) else Running, []))
  }

  // ----- reachability -----

  /** A path of links from the origin whose later actors all die of the reason. */
  ghost predicate DeathPath(w: World, path: seq<ActorId>)
    requires |w.links| == |w.traps|
  {
    && path != [] && path[0] == w.origin
    && (forall i :: 0 < i < |path| ==> path[i] < |w.links| && w.Dies(path[i]) && w.Linked(path[i - 1], path[i]))
  }

  ghost predicate Reaches(w: World, a: ActorId)
    requires |w.links| == |w.traps|
  {
    exists path :: DeathPath(w, path) && path[|path| - 1] == a
  }

  lemma ReachOrigin(w: World)
    requires |w.links| == |w.traps|
    ensures Reaches(w, w.origin)
  {
    assert DeathPath(w, [w.origin]);
  }

  lemma ReachNext(w: World, a: ActorId, p: ActorId)
    requires |w.links| == |w.traps| && Reaches(w, a) && w.Linked(a, p) && p < |w.links| && w.Dies(p)
    ensures Reaches(w, p)
  {
    var path :| DeathPath(w, path) && path[|path| - 1] == a;
    assert DeathPath(w, path + [p]);
  }

  /** The messages from one sender, in order. */
  function From(mail: seq<Exit>, a: ActorId): seq<Exit> {
    if mail == [] then []
    else From(mail[..|mail| - 1], a) + if mail[|mail| - 1].from == a then [mail[|mail| - 1]] else []
  }

  lemma FromAppend(mail: seq<Exit>, e: Exit, a: ActorId)
    ensures From(mail + [e], a) == From(mail, a) + if e.from == a then [e] else []
  {
    assert (mail + [e])[..|mail|] == mail;
  }

  lemma {:induction false} FromHas(mail: seq<Exit>, e: Exit)
    requires e in mail
    ensures e in From(mail, e.from)
  {
    if e != mail[|mail| - 1] {
      FromHas(mail[..|mail| - 1], e);
    }
  }

  // ----- the invariant -----

  /** The actor has drained its table. */
  predicate Leaving(actor: Actor) {
    actor.phase.Propagating? || actor.phase.Published?
  }

  /** The actor has drained its table and is through with `p`, or never had it. */
  predicate Through(actor: Actor, p: ActorId) {
    actor.phase.Published? || (actor.phase.Propagating? && p !in actor.phase.pending)
  }

  /** The actor has taken itself out of the table of `p`. */
  predicate Unhooked(actor: Actor, p: ActorId) {
    Through(actor, p) ||
    (actor.phase.Propagating? && !actor.phase.stage.Next? && actor.phase.stage.peer == p)
  }

  ghost predicate ActorOk(w: World, s: System, a: ActorId)
    requires w.Valid() && |s| == |w.links| && a < |s|
  {
    && s[a].table <= w.links[a] && (Leaving(s[a]) ==> s[a].table == {})
    && (s[a].slot.Some? ==> s[a].slot.value == w.reason)
    && (!s[a].phase.Running? ==> s[a].phase.reason == w.reason)
    && (s[a].phase.Running? && s[a].cancelled ==> s[a].slot.Some?)
    && (s[a].slot.Some? || s[a].cancelled || !s[a].phase.Running? ==> Reaches(w, a))
    && (s[a].phase.Propagating? ==>
          && s[a].phase.pending <= w.links[a]
          && (!s[a].phase.stage.Next? ==> s[a].phase.stage.peer in s[a].phase.pending))
  }

  ghost predicate PairOk(w: World, s: System, a: ActorId, p: ActorId)
    requires w.Valid() && |s| == |w.links| && a < |s| && p < |s|
  {
    // Only an actor that is itself leaving disappears from a table.
    && (!Leaving(s[a]) && w.Linked(a, p) && p !in s[a].table ==> Leaving(s[p]))
    && (Unhooked(s[a], p) && !Leaving(s[p]) ==> a !in s[p].table)
    && (s[a].phase.Propagating? && s[a].phase.stage == Cancel(p) ==>
          w.Dies(p) && Reaches(w, p) && (s[p].phase.Running? ==> s[p].slot.Some?))
    // A neighbour an actor is through with has left, is cancelled, or holds its one `Exit`.
    && (Through(s[a], p) && w.Linked(a, p) && w.Dies(p) && s[p].phase.Running? ==> s[p].cancelled)
    && (s[p].phase.Running? ==>
          From(s[p].mail, a) ==
          if Through(s[a], p) && w.Linked(a, p) && w.Notified(p) then [Exit(a, w.reason)] else [])
  }

  ghost predicate Inv(w: World, s: System) {
    && w.Valid() && |s| == |w.links|
    && !s[w.origin].phase.Running?
    && (forall a: ActorId :: a < |s| ==> ActorOk(w, s, a))
    && (forall a: ActorId, p: ActorId :: a < |s| && p < |s| ==> PairOk(w, s, a, p))
  }

  lemma StartInv(w: World)
    requires w.Valid()
    ensures Inv(w, Start(w))
  {
    ReachOrigin(w);
  }

  /** What the invariant says about the actors one step can involve. */
  ghost predicate Around(w: World, s: System, b: ActorId, q: ActorId) {
    && w.Valid() && |s| == |w.links| && b < |s| && q < |s|
    && ActorOk(w, s, b) && ActorOk(w, s, q) && PairOk(w, s, b, q) && PairOk(w, s, q, b)
  }

  lemma KeepResolve(w: World, s: System, m: Move, b: ActorId, q: ActorId)
    requires Around(w, s, b, q) && Enabled(s, m) && ActorOk(w, s, m.actor) && s[m.actor].phase.Running?
    ensures ActorOk(w, Step(w, s, m), b) && PairOk(w, Step(w, s, m), b, q)
  {
  }

  lemma KeepDrain(w: World, s: System, m: Move, b: ActorId, q: ActorId)
    requires Around(w, s, b, q) && Enabled(s, m) && ActorOk(w, s, m.actor) && s[m.actor].phase.Resolved?
    ensures ActorOk(w, Step(w, s, m), b) && PairOk(w, Step(w, s, m), b, q)
  {
  }

  lemma KeepNext(w: World, s: System, m: Move, b: ActorId, q: ActorId)
    requires Around(w, s, b, q) && Enabled(s, m) && ActorOk(w, s, m.actor)
    requires s[m.actor].phase.Propagating? && s[m.actor].phase.stage.Next?
    ensures ActorOk(w, Step(w, s, m), b) && PairOk(w, Step(w, s, m), b, q)
  {
  }

  lemma KeepFillActor(w: World, s: System, m: Move, b: ActorId, q: ActorId)
    requires Around(w, s, b, q) && Enabled(s, m) && ActorOk(w, s, m.actor)
    requires s[m.actor].phase.Propagating? && s[m.actor].phase.stage.Deliver? && w.Dies(s[m.actor].phase.stage.peer)
    requires Reaches(w, s[m.actor].phase.stage.peer)
    ensures ActorOk(w, Step(w, s, m), b)
  {
  }

  lemma KeepFillPair(w: World, s: System, m: Move, b: ActorId, q: ActorId)
    requires Around(w, s, b, q) && Enabled(s, m) && ActorOk(w, s, m.actor)
    requires s[m.actor].phase.Propagating? && s[m.actor].phase.stage.Deliver? && w.Dies(s[m.actor].phase.stage.peer)
    requires Reaches(w, s[m.actor].phase.stage.peer)
    ensures PairOk(w, Step(w, s, m), b, q)
  {
  }

  lemma KeepSendActor(w: World, s: System, m: Move, b: ActorId)
    requires w.Valid() && |s| == |w.links| && b < |s| && ActorOk(w, s, b) && Enabled(s, m) && ActorOk(w, s, m.actor)
    requires s[m.actor].phase.Propagating? && s[m.actor].phase.stage.Deliver? && !w.Dies(s[m.actor].phase.stage.peer)
    requires w.Notified(s[m.actor].phase.stage.peer) && s[s[m.actor].phase.stage.peer].phase.Running?
    ensures ActorOk(w, Step(w, s, m), b)
  {
  }

  lemma KeepSendHere(w: World, s: System, m: Move, b: ActorId, q: ActorId)
    requires Around(w, s, b, q) && Enabled(s, m) && ActorOk(w, s, m.actor)
    requires s[m.actor].phase.Propagating? && s[m.actor].phase.stage == Deliver(q) && !w.Dies(q)
    requires w.Notified(q) && s[q].phase.Running?
    ensures PairOk(w, Step(w, s, m), b, q)
  {
    FromAppend(s[q].mail, Exit(m.actor, w.reason), b);
    assert s[q].phase.Running? && q != m.actor;
    var s' := Step(w, s, m);
    assert s'[q].mail == s[q].mail + [Exit(m.actor, w.reason)];
    assert b != m.actor && b != q ==> s'[b] == s[b];
  }

  lemma KeepSendElsewhere(w: World, s: System, m: Move, b: ActorId, q: ActorId)
    requires Around(w, s, b, q) && Enabled(s, m) && ActorOk(w, s, m.actor)
    requires s[m.actor].phase.Propagating? && s[m.actor].phase.stage.Deliver? && !w.Dies(s[m.actor].phase.stage.peer)
    requires w.Notified(s[m.actor].phase.stage.peer) && s[s[m.actor].phase.stage.peer].phase.Running?
    requires q != s[m.actor].phase.stage.peer
    ensures PairOk(w, Step(w, s, m), b, q)
  {
    var s' := Step(w, s, m);
    assert q != m.actor ==> s'[q] == s[q];
  }

  lemma KeepDrop(w: World, s: System, m: Move, b: ActorId, q: ActorId)
    requires Around(w, s, b, q) && Enabled(s, m) && ActorOk(w, s, m.actor)
    requires s[m.actor].phase.Propagating? && s[m.actor].phase.stage.Deliver? && !w.Dies(s[m.actor].phase.stage.peer)
    requires !w.Notified(s[m.actor].phase.stage.peer) || !s[s[m.actor].phase.stage.peer].phase.Running?
    ensures ActorOk(w, Step(w, s, m), b) && PairOk(w, Step(w, s, m), b, q)
  {
  }

  lemma KeepCancelActor(w: World, s: System, m: Move, b: ActorId, q: ActorId)
    requires Around(w, s, b, q) && Enabled(s, m) && ActorOk(w, s, m.actor)
    requires s[m.actor].phase.Propagating? && s[m.actor].phase.stage.Cancel?
    requires PairOk(w, s, m.actor, s[m.actor].phase.stage.peer)
    ensures ActorOk(w, Step(w, s, m), b)
  {
  }

  lemma KeepCancelPair(w: World, s: System, m: Move, b: ActorId, q: ActorId)
    requires Around(w, s, b, q) && Enabled(s, m) && ActorOk(w, s, m.actor)
    requires s[m.actor].phase.Propagating? && s[m.actor].phase.stage.Cancel?
    requires PairOk(w, s, m.actor, s[m.actor].phase.stage.peer)
    ensures PairOk(w, Step(w, s, m), b, q)
  {
  }

  lemma StepKeeps(w: World, s: System, m: Move, b: ActorId, q: ActorId)
    requires Inv(w, s) && Enabled(s, m) && b < |s| && q < |s|
    ensures ActorOk(w, Step(w, s, m), b) && PairOk(w, Step(w, s, m), b, q)
  {
    assert Around(w, s, b, q) && ActorOk(w, s, m.actor);
    match s[m.actor].phase
    case Running => KeepResolve(w, s, m, b, q);
    case Resolved(_) => KeepDrain(w, s, m, b, q);
    case Propagating(_, _, Next) => KeepNext(w, s, m, b, q);
    case Propagating(_, _, Deliver(p)) =>
      assert w.Linked(m.actor, p);
      if w.Dies(p) {
        ReachNext(w, m.actor, p);
        KeepFillActor(w, s, m, b, q);
        KeepFillPair(w, s, m, b, q);
      } else if w.Notified(p) && s[p].phase.Running? {
        KeepSendActor(w, s, m, b);
        if q == p { KeepSendHere(w, s, m, b, q); } else { KeepSendElsewhere(w, s, m, b, q); }
      } else {
        KeepDrop(w, s, m, b, q);
      }
    case Propagating(_, _, Cancel(_)) =>
      KeepCancelActor(w, s, m, b, q);
      KeepCancelPair(w, s, m, b, q);
  }

  lemma StepKeepsInv(w: World, s: System, m: Move)
    requires Inv(w, s) && Enabled(s, m)
    ensures Inv(w, Step(w, s, m))
  {
    forall b: ActorId | b < |s| ensures ActorOk(w, Step(w, s, m), b) {
      StepKeeps(w, s, m, b, b);
    }
    forall b: ActorId, q: ActorId | b < |s| && q < |s| ensures PairOk(w, Step(w, s, m), b, q) {
      StepKeeps(w, s, m, b, q);
    }
  }

  lemma {:induction false} RunKeepsInv(w: World, s: System, schedule: seq<Move>)
    requires Inv(w, s) && ValidSchedule(w, s, schedule)
    ensures Inv(w, Run(w, s, schedule))
    decreases |schedule|
  {
    if schedule != [] {
      StepKeepsInv(w, s, schedule[0]);
      RunKeepsInv(w, Step(w, s, schedule[0]), schedule[1..]);
    }
  }

  // ----- termination: a measure that every step lowers -----

  function Weight(actor: Actor): int {
    match actor.phase
    case Running => 3 * |actor.table| + 3
    case Resolved(_) => 3 * |actor.table| + 2
    case Propagating(_, pending, stage) =>
      3 * |pending| + 1 - (if stage.Next? then 0 else if stage.Deliver? then 1 else 2)
    case Published(_) => 0
  }

  function Measure(s: System): int {
    if s == [] then 0 else Measure(s[1..]) + Weight(s[0])
  }

  lemma {:induction false} MeasureMonotone(s: System, s': System, a: nat)
    requires |s| == |s'| && a < |s|
    requires forall i :: 0 <= i < |s| ==> Weight(s'[i]) <= Weight(s[i])
    requires Weight(s'[a]) < Weight(s[a])
    ensures Measure(s') < Measure(s)
  {
    if a > 0 {
      MeasureMonotone(s[1..], s'[1..], a - 1);
    } else {
      MeasureWeakly(s[1..], s'[1..]);
    }
  }

  lemma {:induction false} MeasureWeakly(s: System, s': System)
    requires |s| == |s'|
    requires forall i :: 0 <= i < |s| ==> Weight(s'[i]) <= Weight(s[i])
    ensures Measure(s') <= Measure(s)
  {
    if s != [] {
      MeasureWeakly(s[1..], s'[1..]);
    }
  }

  lemma {:induction false} MeasureNonNegative(w: World, s: System, k: nat)
    requires Inv(w, s) && k <= |s|
    ensures Measure(s[k..]) >= 0
    decreases |s| - k
  {
    if k < |s| {
      assert ActorOk(w, s, k);
      assert s[k..][1..] == s[k + 1..];
      if s[k].phase.Propagating? && !s[k].phase.stage.Next? {
        CardinalityPositive(s[k].phase.pending, s[k].phase.stage.peer);
      }
      MeasureNonNegative(w, s, k + 1);
    }
  }

  lemma CardinalityPositive(x: set<ActorId>, p: ActorId)
    requires p in x
    ensures |x| == |x - {p}| + 1
  {
    assert x == (x - {p}) + {p};
  }

  /** Unhooking can only shorten the peer's table. */
  lemma NextWeights(w: World, s: System, m: Move, i: ActorId)
    requires |s| == |w.traps| && Enabled(s, m) && i < |s|
    requires s[m.actor].phase.Propagating? && s[m.actor].phase.stage.Next? && s[m.actor].phase.pending != {}
    ensures Weight(Step(w, s, m)[i]) <= Weight(s[i])
    ensures i == m.actor ==> Weight(Step(w, s, m)[i]) < Weight(s[i])
  {
    if m.actor in s[m.pick].table {
      CardinalityPositive(s[m.pick].table, m.actor);
    }
  }

  lemma SignalWeights(w: World, s: System, m: Move, i: ActorId)
    requires |s| == |w.traps| && Enabled(s, m) && i < |s|
    requires s[m.actor].phase.Propagating? && !s[m.actor].phase.stage.Next?
    requires s[m.actor].phase.stage.peer in s[m.actor].phase.pending
    ensures Weight(Step(w, s, m)[i]) <= Weight(s[i])
    ensures i == m.actor ==> Weight(Step(w, s, m)[i]) < Weight(s[i])
  {
    CardinalityPositive(s[m.actor].phase.pending, s[m.actor].phase.stage.peer);
  }

  /** The mover gets lighter and nobody gets heavier. */
  lemma StepWeights(w: World, s: System, m: Move, i: ActorId)
    requires w.Valid() && |s| == |w.links| && Enabled(s, m) && ActorOk(w, s, m.actor) && i < |s|
    ensures Weight(Step(w, s, m)[i]) <= Weight(s[i])
    ensures i == m.actor ==> Weight(Step(w, s, m)[i]) < Weight(s[i])
  {
    var phase := s[m.actor].phase;
    if phase.Propagating? && !phase.stage.Next? {
      SignalWeights(w, s, m, i);
    } else if phase.Propagating? && phase.pending != {} {
      NextWeights(w, s, m, i);
    }
  }

  lemma StepLowersMeasure(w: World, s: System, m: Move)
    requires Inv(w, s) && Enabled(s, m)
    ensures Measure(Step(w, s, m)) < Measure(s)
  {
    var s' := Step(w, s, m);
    forall i | 0 <= i < |s| ensures Weight(s'[i]) <= Weight(s[i]) {
      StepWeights(w, s, m, i);
    }
    StepWeights(w, s, m, m.actor);
    MeasureMonotone(s, s', m.actor);
  }

  /** Every schedule is finite: none is longer than the measure of its first state. */
  lemma {:induction false} CascadeTerminates(w: World, s: System, schedule: seq<Move>)
    requires Inv(w, s) && ValidSchedule(w, s, schedule)
    ensures |schedule| <= Measure(s)
    decreases |schedule|
  {
    if schedule == [] {
      MeasureNonNegative(w, s, 0);
      assert s[0..] == s;
    } else {
      StepLowersMeasure(w, s, schedule[0]);
      StepKeepsInv(w, s, schedule[0]);
      CascadeTerminates(w, Step(w, s, schedule[0]), schedule[1..]);
    }
  }

  // ----- the closure -----

  /** In a quiet state an actor has published its completion or was never cancelled. */
  lemma QuietActor(w: World, s: System, a: ActorId)
    requires Inv(w, s) && Quiet(s) && a < |s|
    ensures s[a].phase.Published? || (s[a].phase.Running? && !s[a].cancelled)
  {
    assert ActorOk(w, s, a);
    var pick := a;
    if s[a].phase.Propagating? {
      if !s[a].phase.stage.Next? {
        assert w.Linked(a, s[a].phase.stage.peer);
      } else if s[a].phase.pending != {} {
        pick :| pick in s[a].phase.pending;
        assert w.Linked(a, pick);
      }
    }
    assert !Enabled(s, Move(a, pick));
  }

  /** In a quiet state every actor on a death path has published its completion. */
  lemma {:induction false} PathDies(w: World, s: System, path: seq<ActorId>, k: nat)
    requires Inv(w, s) && Quiet(s) && DeathPath(w, path) && k < |path|
    ensures path[k] < |s| && s[path[k]].phase.Published?
  {
    QuietActor(w, s, path[k]);
    if k > 0 {
      PathDies(w, s, path, k - 1);
      assert PairOk(w, s, path[k - 1], path[k]);
    }
  }

  /**
   However the steps of a cascade are scheduled, once nothing is left to do the dead are
   exactly the actors reachable over death paths, all dead actors report the origin's
   reason, a survivor's table has exactly its living neighbours, and the mail a survivor has from
   an actor is one `Exit` with that reason if it traps exits and the actor is a dead
   neighbour, and nothing otherwise.
   */
  lemma DeathCascadeIsClosure(w: World, schedule: seq<Move>)
    requires w.Valid()
    requires ValidSchedule(w, Start(w), schedule) && Quiet(Run(w, Start(w), schedule))
    ensures var end := Run(w, Start(w), schedule);
            && |end| == |w.links|
            && (forall a: ActorId :: a < |end| ==>
                  && (end[a].phase.Published? <==> Reaches(w, a))
                  && (end[a].phase.Published? ==> end[a].phase.reason == w.reason && end[a].table == {})
                  && (!end[a].phase.Published? ==> end[a].phase.Running? && !end[a].cancelled))
            && (forall a: ActorId, t: ActorId :: a < |end| && t < |end| && end[t].phase.Running? ==>
                  && (a in end[t].table <==> w.Linked(t, a) && !Reaches(w, a))
                  && From(end[t].mail, a) ==
                       if Reaches(w, a) && w.Linked(a, t) && w.Notified(t) then [Exit(a, w.reason)] else [])
  {
    StartInv(w);
    RunKeepsInv(w, Start(w), schedule);
    var s := Run(w, Start(w), schedule);
    forall a: ActorId | a < |s|
      ensures s[a].phase.Published? <==> Reaches(w, a)
      ensures s[a].phase.Published? ==> s[a].phase.reason == w.reason && s[a].table == {}
      ensures !s[a].phase.Published? ==> s[a].phase.Running? && !s[a].cancelled
    {
      QuietActor(w, s, a);
      assert ActorOk(w, s, a);
      if Reaches(w, a) {
        var path :| DeathPath(w, path) && path[|path| - 1] == a;
        PathDies(w, s, path, |path| - 1);
      }
    }
    forall a: ActorId, t: ActorId | a < |s| && t < |s| && s[t].phase.Running?
      ensures a in s[t].table <==> w.Linked(t, a) && !Reaches(w, a)
      ensures From(s[t].mail, a) ==
              if Reaches(w, a) && w.Linked(a, t) && w.Notified(t) then [Exit(a, w.reason)] else []
    {
      assert PairOk(w, s, a, t) && PairOk(w, s, t, a) && ActorOk(w, s, t);
      QuietActor(w, s, a);
    }
  }

  ghost predicate SendersExist(mail: seq<Exit>, n: nat) {
    forall e :: e in mail ==> e.from < n
  }

  lemma StepSenders(w: World, s: System, m: Move, t: ActorId)
    requires |w.traps| == |s| && Enabled(s, m) && t < |s| && SendersExist(s[t].mail, |s|)
    ensures SendersExist(Step(w, s, m)[t].mail, |s|)
  {
    var mail' := Step(w, s, m)[t].mail;
    assert mail' == s[t].mail || (|mail'| == |s[t].mail| + 1 && mail'[..|s[t].mail|] == s[t].mail
                                  && mail'[|s[t].mail|].from == m.actor);
    forall e | e in mail' ensures e.from < |s| {
      assert e in s[t].mail || e == mail'[|s[t].mail|];
    }
  }

  lemma {:induction false} RunSenders(w: World, s: System, schedule: seq<Move>, t: ActorId)
    requires |w.traps| == |s| && ValidSchedule(w, s, schedule) && t < |s| && SendersExist(s[t].mail, |s|)
    ensures SendersExist(Run(w, s, schedule)[t].mail, |s|)
    decreases |schedule|
  {
    if schedule != [] {
      StepSenders(w, s, schedule[0], t);
      RunSenders(w, Step(w, s, schedule[0]), schedule[1..], t);
    }
  }

  /** Every `Exit` a survivor holds names a dead actor it was linked to, and the reason of the death. */
  lemma EveryExitIsTrue(w: World, schedule: seq<Move>, end: System, t: ActorId, e: Exit)
    requires w.Valid() && ValidSchedule(w, Start(w), schedule) && end == Run(w, Start(w), schedule)
    requires Quiet(end) && t < |end| && end[t].phase.Running? && e in end[t].mail
    ensures e.reason == w.reason && Reaches(w, e.from) && w.Linked(e.from, t)
  {
    RunSenders(w, Start(w), schedule, t);
    DeathCascadeIsClosure(w, schedule);
    OneOfMany(w, end[t].mail, t, e);
  }

  /** The same, from what is known about the mail sender by sender. */
  lemma OneOfMany(w: World, mail: seq<Exit>, t: ActorId, e: Exit)
    requires |w.links| == |w.traps| && t < |w.traps| && e in mail && e.from < |w.links|
    requires forall a: ActorId :: a < |w.links| ==>
               From(mail, a) == if Reaches(w, a) && w.Linked(a, t) && w.Notified(t) then [Exit(a, w.reason)] else []
    ensures e.reason == w.reason && Reaches(w, e.from) && w.Linked(e.from, t)
  {
    FromHas(mail, e);
    assert From(mail, e.from) == [Exit(e.from, w.reason)];
  }

  /** A kill takes the whole linked component: linked actors share their fate, trapping or not. */
  lemma KillTakesTheComponent(w: World, schedule: seq<Move>, a: ActorId, p: ActorId)
    requires w.Valid() && w.reason.Kill?
    requires ValidSchedule(w, Start(w), schedule) && Quiet(Run(w, Start(w), schedule))
    requires w.Linked(a, p)
    ensures var end := Run(w, Start(w), schedule);
            a < |end| && p < |end| && (end[a].phase.Published? <==> end[p].phase.Published?)
  {
    DeathCascadeIsClosure(w, schedule);
    assert w.Linked(p, a);
    if Reaches(w, a) {
      ReachNext(w, a, p);
    }
    if Reaches(w, p) {
      ReachNext(w, p, a);
    }
  }
}
