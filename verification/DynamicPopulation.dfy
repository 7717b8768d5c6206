/**
 The actors a dynamic supervisor has running, tracked or not
 (concurrency/src/tasks/dynamic_supervisor.rs:209-257, 396-452 and 480-509). A child is
 started before its registry name is claimed, and a refused child is forgotten but not
 stopped, so the limit on children bounds the tracked ones only. This file gives the exact
 excess over every run.
 */
module DynamicPopulation {
  import opened Reasons
  import opened SupervisorSpec
  import opened InstanceIds
  import D = DynamicSupervisorSpec
  import opened DynamicSupervisorEffects

  type Dyn = D.Dyn

  /** `running`: started by the supervisor and not exited; `refused`: forgotten for a taken name. */
  datatype Population = Population(d: Dyn, running: set<ActorId>, refused: set<ActorId>)

  /** The supervisor handles a message, or one of the actors exits. */
  datatype Move = Handle(r: D.Request) | Exits(a: ActorId)

  /** Exit messages come from actors that have exited. */
  predicate Enabled(s: Population, m: Move) {
    m.Handle? && m.r.ChildExited? ==> m.r.exit.actor !in s.running
  }

  function Step(s: Population, m: Move): Population {
    match m
    case Exits(a) => s.(running := s.running - {a})
    case Handle(r) => var (d', reply) := D.Step(s.d, r); Handled(s, r, d', reply)
  }

  /** Who runs after a message that left the supervisor as `d'` and got this reply. */
  function Handled(s: Population, r: D.Request, d': Dyn, reply: D.Reply): Population {
    var started := if d'.next > s.d.next then {s.d.next} else {};
    var stopped := if r.TerminateChild? && reply.Terminated? then {r.actor} else {};
    Population(d', s.running - stopped + started, if reply.RegistryRefused? then s.refused + started else s.refused)
  }

  /** Move `k` takes state `k` of a run to state `k + 1`. */
  ghost predicate Follows(states: seq<Population>, moves: seq<Move>, k: nat)
    requires k < |moves| && |states| == |moves| + 1
  {
    Enabled(states[k], moves[k]) && states[k + 1] == Step(states[k], moves[k])
  }

  ghost predicate Run(states: seq<Population>, moves: seq<Move>) {
    |states| == |moves| + 1 && forall k: nat :: k < |moves| ==> Follows(states, moves, k)
  }

  function Start(maxChildren: Option<nat>, maxRestarts: nat, within: nat, next: ActorId): Population {
    Population(D.Initial(maxChildren, maxRestarts, within, next), {}, {})
  }

  // ----- invariant -----

  /** Some child has this actor, and the engine takes it for alive. */
  ghost predicate Standing(children: seq<Child>, a: ActorId) {
    exists i :: 0 <= i < |children| && Runs(children[i], a)
  }

  ghost predicate ActorOk(s: Population, a: ActorId) {
    && (a in s.running || a in s.refused ==> a < s.d.next)
    && (a in s.running && a !in s.refused ==> Standing(s.d.children, a))
    && (a in s.refused ==> a !in s.d.actorToId)
  }

  ghost predicate Inv(s: Population) {
    D.Consistent(s.d) && forall a :: ActorOk(s, a)
  }

  /** A child's actor is the one the maps have for it. */
  lemma StandingMapped(d: Dyn, i: nat)
    requires D.Consistent(d) && i < |d.children| && d.children[i].handle.Some?
    ensures var a := d.children[i].handle.value.actor;
            d.children[i].id in d.handles && d.handles[d.children[i].id] == a
            && a in d.actorToId && d.actorToId[a] == d.children[i].id && a < d.next
  {
    D.RosterAt(d.children, i);
  }

  lemma StandingTracked(d: Dyn, a: ActorId)
    requires D.Consistent(d) && Standing(d.children, a)
    ensures a in d.actorToId && a < d.next
  {
    var i :| 0 <= i < |d.children| && Runs(d.children[i], a);
    StandingMapped(d, i);
  }

  lemma RemovedStanding(children: seq<Child>, id: string, i: nat)
    requires i < |children| && children[i].id != id && children[i].handle.Some? && children[i].handle.value.alive
    ensures Standing(RemoveById(children, id), children[i].handle.value.actor)
  {
    var found := FirstNamed(children, id, 0);
    var rest := RemoveById(children, id);
    if found.Some? {
      var j := if i < found.value then i else i - 1;
      assert rest[j] == children[i];
    }
  }

  /** Dropping the child of another actor leaves this one standing. */
  lemma DroppedStanding(d: Dyn, id: string, a: ActorId)
    requires D.Consistent(d) && Standing(d.children, a) && (id in d.handles ==> d.handles[id] != a)
    ensures Standing(D.Dropped(d, id).children, a)
  {
    var i :| 0 <= i < |d.children| && Runs(d.children[i], a);
    StandingMapped(d, i);
    RemovedStanding(d.children, id, i);
  }

  lemma NotedStanding(children: seq<Child>, actor: ActorId, a: ActorId)
    requires Standing(children, a) && a != actor
    ensures Standing(MarkDead(children, actor), a)
  {
    var i :| 0 <= i < |children| && Runs(children[i], a);
    assert MarkDead(children, actor)[i] == children[i];
  }

  /** A fresh actor in one child's place: it stands, and so do the actors of the others. */
  lemma ReplacedStanding(children: seq<Child>, id: string, actor: ActorId)
    requires FirstNamed(children, id, 0).Some?
    ensures Standing(ReplaceHandle(children, id, Slot(actor, true)), actor)
    ensures forall i :: 0 <= i < |children| && children[i].id != id && IsAlive(children[i]) ==>
              Standing(ReplaceHandle(children, id, Slot(actor, true)), children[i].handle.value.actor)
  {
    var at := FirstNamed(children, id, 0).value;
    var replaced := ReplaceHandle(children, id, Slot(actor, true));
    assert Runs(replaced[at], actor);
    forall i | 0 <= i < |children| && children[i].id != id && IsAlive(children[i])
      ensures Standing(replaced, children[i].handle.value.actor)
    {
      assert replaced[i] == children[i];
    }
  }

  // ----- every message keeps it -----

  /** Without room nothing changes; with room one more actor runs, which stands or was refused. */
  lemma StartCases(d: Dyn, spec: Spec, regName: Option<string>, nameTaken: bool)
    requires D.Consistent(d)
    ensures var (d', reply) := D.AfterStart(d, spec, regName, nameTaken);
            || (d' == d && !reply.Started? && !reply.RegistryRefused?)
            || (reply.RegistryRefused? && d' == d.(counter := d'.counter, next := d.next + 1))
            || (reply.Started? && Joined(d, d', InstanceId(spec.id, d.counter + 1), spec))
  {
    NewNameIsUnknown(d, spec.id);
    if D.MayStart(d) {
      RoomEffect(d, InstanceId(spec.id, d.counter + 1), spec, regName, nameTaken);
    }
  }

  lemma LongerStanding(children: seq<Child>, longer: seq<Child>, a: ActorId)
    requires Standing(children, a) && |longer| == |children| + 1 && longer[..|children|] == children
    ensures Standing(longer, a)
  {
    var i :| 0 <= i < |children| && Runs(children[i], a);
    assert longer[i] == children[i];
  }

  lemma StartKeepsInv(s: Population, spec: Spec, regName: Option<string>, nameTaken: bool)
    requires Inv(s)
    ensures Inv(Step(s, Handle(D.StartChild(spec, regName, nameTaken))))
  {
    var r := D.StartChild(spec, regName, nameTaken);
    var (d', reply) := D.AfterStart(s.d, spec, regName, nameTaken);
    StartCases(s.d, spec, regName, nameTaken);
    D.StartConsistent(s.d, spec, regName, nameTaken);
    NothingKnownNext(s.d);
    forall a ensures ActorOk(Handled(s, r, d', reply), a) {
      assert ActorOk(s, a);
      StartActor(s, r, d', reply, InstanceId(spec.id, s.d.counter + 1), a);
    }
  }

  lemma NothingKnownNext(d: Dyn)
    requires D.Consistent(d)
    ensures d.next !in d.actorToId
  {
  }

  lemma StartActor(s: Population, r: D.Request, d': Dyn, reply: D.Reply, id: string, a: ActorId)
    requires ActorOk(s, a) && s.d.next !in s.d.actorToId && r.StartChild?
    requires
      || (d' == s.d && !reply.Started? && !reply.RegistryRefused?)
      || (reply.RegistryRefused? && d' == s.d.(counter := d'.counter, next := s.d.next + 1))
      || (reply.Started? && Joined(s.d, d', id, r.spec))
    ensures ActorOk(Handled(s, r, d', reply), a)
  {
    if Standing(s.d.children, a) && reply.Started? {
      LongerStanding(s.d.children, d'.children, a);
    }
  }

  lemma TerminateKeepsInv(s: Population, actor: ActorId)
    requires Inv(s)
    ensures Inv(Step(s, Handle(D.TerminateChild(actor))))
  {
    var (d', reply) := D.AfterTerminate(s.d, actor);
    D.TerminateConsistent(s.d, actor);
    TerminateEffect(s.d, actor);
    forall a ensures ActorOk(Handled(s, D.TerminateChild(actor), d', reply), a) {
      assert ActorOk(s, a);
      if reply.Terminated? && a != actor && Standing(s.d.children, a) {
        MappedIsHandled(s.d, actor);
        DroppedStanding(s.d, s.d.actorToId[actor], a);
      }
    }
  }

  lemma ReactedMapped(noted: Dyn, action: Action, actor: ActorId)
    ensures var d' := D.Reacted(noted, action, actor);
            && noted.next <= d'.next <= noted.next + 1
            && forall a :: a in d'.actorToId ==> a in noted.actorToId || a == noted.next < d'.next
  {
  }

  lemma IgnoredStanding(noted: Dyn, actor: ActorId, a: ActorId)
    requires D.Consistent(noted) && a != actor && Standing(noted.children, a)
    ensures Standing(D.Reacted(noted, Ignore, actor).children, a)
  {
    var found := D.FirstOf(noted.children, actor, 0);
    if found.Some? {
      StandingMapped(noted, found.value);
      DroppedStanding(noted, noted.children[found.value].id, a);
    }
  }

  /** An exit leaves every other standing actor standing. */
  lemma ExitStanding(d: Dyn, m: Message, a: ActorId)
    requires D.Consistent(d) && a != m.actor && Standing(d.children, a)
    ensures Standing(D.AfterChildExit(d, m).children, a)
  {
    var noted, action := D.Bookkept(d, m), OnChildExit(D.Engine(d), m.actor, m.reason, m.now).1;
    D.BookkeptConsistent(d, m);
    D.ExitMarksDead(D.Engine(d), m);
    NotedStanding(d.children, m.actor, a);
    if action.RestartOne? {
      RestartedExit(d, m, action.id);
    }
    ReactedStanding(noted, action, m.actor, a);
  }

  lemma ReactedStanding(noted: Dyn, action: Action, actor: ActorId, a: ActorId)
    requires D.Consistent(noted) && a != actor && Standing(noted.children, a)
    requires action.RestartOne? ==>
               action.id in noted.specs && action.id in noted.handles && noted.handles[action.id] == actor
    ensures Standing(D.Reacted(noted, action, actor).children, a)
  {
    match action
    case Ignore => IgnoredStanding(noted, actor, a);
    case RestartOne(id) => RestartStanding(noted, id, a);
    case Meltdown =>
    case TerminateBatch(_) =>
  }

  lemma RestartStanding(noted: Dyn, id: string, a: ActorId)
    requires D.Consistent(noted) && Standing(noted.children, a) && id in noted.handles && noted.handles[id] != a
    ensures Standing(ReplaceHandle(noted.children, id, Slot(noted.next, true)), a)
  {
    D.RosterNamed(noted.children, id);
    ReplacedStanding(noted.children, id, noted.next);
    var i :| 0 <= i < |noted.children| && Runs(noted.children[i], a);
    StandingMapped(noted, i);
  }

  /** If an exit starts an actor, that actor stands. */
  lemma FreshStands(d: Dyn, m: Message)
    requires D.Consistent(d)
    ensures D.AfterChildExit(d, m).next > d.next ==> Standing(D.AfterChildExit(d, m).children, d.next)
  {
    var noted, action := D.Bookkept(d, m), OnChildExit(D.Engine(d), m.actor, m.reason, m.now).1;
    D.BookkeptConsistent(d, m);
    if action.RestartOne? {
      RestartedExit(d, m, action.id);
      D.RosterNamed(noted.children, action.id);
      ReplacedStanding(noted.children, action.id, d.next);
    }
    ReactedFresh(noted, action, m.actor);
  }

  /** Only a restart starts an actor. */
  lemma ReactedFresh(noted: Dyn, action: Action, actor: ActorId)
    ensures var d' := D.Reacted(noted, action, actor);
            && (d'.next > noted.next ==> action.RestartOne? && action.id in noted.specs)
            && (action.RestartOne? && action.id in noted.specs ==>
                  d'.children == ReplaceHandle(noted.children, action.id, Slot(noted.next, true)))
  {
  }

  /** An exit brings only the fresh actor into the reverse map. */
  lemma ExitMapped(d: Dyn, m: Message)
    ensures var d' := D.AfterChildExit(d, m);
            && d.next <= d'.next <= d.next + 1
            && forall a :: a in d'.actorToId ==> a in d.actorToId || a == d.next < d'.next
  {
    ReactedMapped(D.Bookkept(d, m), OnChildExit(D.Engine(d), m.actor, m.reason, m.now).1, m.actor);
  }

  lemma ExitKeepsInv(s: Population, m: Message)
    requires Inv(s) && m.actor !in s.running
    ensures Inv(Step(s, Handle(D.ChildExited(m))))
  {
    var d' := D.AfterChildExit(s.d, m);
    D.ExitConsistent(s.d, m);
    ExitMapped(s.d, m);
    FreshStands(s.d, m);
    NothingKnownNext(s.d);
    forall a ensures ActorOk(Handled(s, D.ChildExited(m), d', D.Handled), a) {
      assert ActorOk(s, a);
      if a in s.running && Standing(s.d.children, a) {
        ExitStanding(s.d, m, a);
      }
      ExitActor(s, D.ChildExited(m), d', a);
    }
  }

  lemma ExitActor(s: Population, r: D.Request, d': Dyn, a: ActorId)
    requires ActorOk(s, a) && s.d.next !in s.d.actorToId && s.d.next <= d'.next <= s.d.next + 1 && r.ChildExited?
    requires a in s.running && Standing(s.d.children, a) ==> Standing(d'.children, a)
    requires d'.next > s.d.next ==> Standing(d'.children, s.d.next)
    requires a in d'.actorToId ==> a in s.d.actorToId || a == s.d.next < d'.next
    ensures ActorOk(Handled(s, r, d', D.Handled), a)
  {
  }

  lemma StepKeepsInv(s: Population, m: Move)
    requires Inv(s) && Enabled(s, m)
    ensures Inv(Step(s, m))
  {
    match m
    case Handle(StartChild(spec, regName, nameTaken)) => StartKeepsInv(s, spec, regName, nameTaken);
    case Handle(TerminateChild(actor)) => TerminateKeepsInv(s, actor);
    case Handle(ChildExited(exit)) => ExitKeepsInv(s, exit);
    case Exits(gone) =>
      forall a ensures ActorOk(Step(s, m), a) {
        assert ActorOk(s, a);
      }
  }

  lemma {:induction false} RunKeepsInv(states: seq<Population>, moves: seq<Move>, k: nat)
    requires Run(states, moves) && Inv(states[0]) && k < |states|
    ensures Inv(states[k]) && states[k].d.maxChildren == states[0].d.maxChildren
  {
    if k > 0 {
      RunKeepsInv(states, moves, k - 1);
      assert Follows(states, moves, k - 1);
      StepKeepsInv(states[k - 1], moves[k - 1]);
      if moves[k - 1].Handle? {
        StepLimit(states[k - 1].d, moves[k - 1].r);
      }
    }
  }

  lemma StartInv(maxChildren: Option<nat>, maxRestarts: nat, within: nat, next: ActorId)
    ensures Inv(Start(maxChildren, maxRestarts, within, next))
  {
    D.AlwaysConsistent(maxChildren, maxRestarts, within, next, []);
  }

  // ----- how many there are -----

  function AliveActors(children: seq<Child>): set<ActorId> {
    if children == [] then {}
    else
      var c := children[|children| - 1];
      AliveActors(children[..|children| - 1]) + if IsAlive(c) then {c.handle.value.actor} else {}
  }

  lemma {:induction false} AliveActorsCount(children: seq<Child>)
    ensures |AliveActors(children)| <= D.AliveCount(children)
  {
    if children != [] {
      AliveActorsCount(children[..|children| - 1]);
    }
  }

  lemma {:induction false} AliveActorsHas(children: seq<Child>, i: nat)
    requires i < |children| && IsAlive(children[i])
    ensures children[i].handle.value.actor in AliveActors(children)
  {
    if i < |children| - 1 {
      AliveActorsHas(children[..|children| - 1], i);
    }
  }

  lemma SmallerSet(a: set<ActorId>, b: set<ActorId>)
    requires a <= b
    ensures |a| <= |b|
  {
    assert b == a + (b - a);
  }

  lemma StepLimit(d: Dyn, r: D.Request)
    ensures D.Step(d, r).0.maxChildren == d.maxChildren
  {
  }

  /**
   Over every run: the running actors that are not tracked are exactly those the registry
   refused and that have not exited, and all others together are no more than the engine
   counts as alive, hence no more than allowed.
   */
  lemma PopulationExactly(
      states: seq<Population>, moves: seq<Move>, k: nat, maxRestarts: nat, within: nat, next: ActorId)
    requires Run(states, moves) && k < |states|
    requires states[0] == Start(states[0].d.maxChildren, maxRestarts, within, next)
    ensures var s, limit := states[k], states[0].d.maxChildren;
            && s.running - s.d.actorToId.Keys == s.running * s.refused
            && |s.running - s.refused| <= D.AliveCount(s.d.children)
            && (limit.Some? ==> |s.running| <= limit.value + |s.running * s.refused|)
  {
    StartInv(states[0].d.maxChildren, maxRestarts, within, next);
    RunKeepsInv(states, moves, k);
    var s := states[k];
    forall a | a in s.running
      ensures a in s.refused <==> a !in s.d.actorToId
      ensures a !in s.refused ==> a in AliveActors(s.d.children)
    {
      assert ActorOk(s, a);
      if a !in s.refused {
        StandingTracked(s.d, a);
        var i :| 0 <= i < |s.d.children| && Runs(s.d.children[i], a);
        AliveActorsHas(s.d.children, i);
      }
    }
    AliveActorsCount(s.d.children);
    SmallerSet(s.running - s.refused, AliveActors(s.d.children));
    assert s.running == (s.running - s.refused) + (s.running * s.refused);
  }

  // ----- who is running -----

  /** Move `j` started the actor: as a new child or in the place of an old one. */
  ghost predicate Starts(states: seq<Population>, j: nat, a: ActorId)
    requires j + 1 < |states|
  {
    a == states[j].d.next < states[j + 1].d.next
  }

  /** Move `i` ended it: it exited, or the supervisor terminated it. */
  ghost predicate Ends(states: seq<Population>, moves: seq<Move>, i: nat, a: ActorId)
    requires i < |moves| && i < |states|
  {
    moves[i] == Exits(a) ||
    (moves[i] == Handle(D.TerminateChild(a)) && D.Step(states[i].d, moves[i].r).1.Terminated?)
  }

  ghost predicate Up(states: seq<Population>, moves: seq<Move>, j: nat, k: nat, a: ActorId)
    requires j < k < |states| && |states| == |moves| + 1
  {
    Starts(states, j, a) && forall i: nat :: j < i < k ==> !Ends(states, moves, i, a)
  }

  lemma StepRunning(states: seq<Population>, moves: seq<Move>, k: nat, a: ActorId)
    requires Run(states, moves) && k < |moves|
    ensures a in states[k + 1].running <==>
            Starts(states, k, a) || (a in states[k].running && !Ends(states, moves, k, a))
  {
    assert Follows(states, moves, k);
  }

  /** The running actors are those that some move started and no later move ended. */
  lemma {:induction false} RunningExactly(states: seq<Population>, moves: seq<Move>, k: nat, a: ActorId)
    requires Run(states, moves) && k < |states| && states[0].running == {}
    ensures a in states[k].running <==> exists j: nat :: j < k && Up(states, moves, j, k, a)
  {
    if k > 0 {
      RunningExactly(states, moves, k - 1, a);
      StepRunning(states, moves, k - 1, a);
      if j: nat :| j < k && Up(states, moves, j, k, a) {
        assert j < k - 1 ==> Up(states, moves, j, k - 1, a) && !Ends(states, moves, k - 1, a);
      }
      if a in states[k].running {
        if Starts(states, k - 1, a) {
          assert Up(states, moves, k - 1, k, a);
        } else {
          var j: nat :| j < k - 1 && Up(states, moves, j, k - 1, a);
          assert Up(states, moves, j, k, a);
        }
      }
    }
  }

  // ----- without bound -----

  function FirstActors(next: ActorId, n: nat): (r: set<ActorId>)
    ensures |r| == n && forall a :: a in r ==> a < next + n
  {
    if n == 0 then {} else FirstActors(next, n - 1) + {next + n - 1}
  }

  function Refusal(spec: Spec, name: string): Move {
    Handle(D.StartChild(spec, Some(name), true))
  }

  /** A supervisor with room for one child, after `n` starts under a name that is taken. */
  function Refused(maxRestarts: nat, within: nat, next: ActorId, n: nat): Population {
    var d := D.Initial(Some(1), maxRestarts, within, next);
    Population(d.(counter := n, next := next + n), FirstActors(next, n), FirstActors(next, n))
  }

  lemma RefusedConsistent(maxRestarts: nat, within: nat, next: ActorId, n: nat)
    ensures D.Consistent(Refused(maxRestarts, within, next, n).d)
  {
  }

  lemma RefusedRoom(maxRestarts: nat, within: nat, next: ActorId, n: nat, spec: Spec, name: string)
    ensures var d := Refused(maxRestarts, within, next, n).d;
            D.AfterStart(d, spec, Some(name), true) ==
            (Refused(maxRestarts, within, next, n + 1).d, D.RegistryRefused)
  {
    var d := Refused(maxRestarts, within, next, n).d;
    RefusedConsistent(maxRestarts, within, next, n);
    NewNameIsUnknown(d, spec.id);
    RoomEffect(d, InstanceId(spec.id, d.counter + 1), spec, Some(name), true);
  }

  lemma OneMoreActor(next: ActorId, n: nat)
    ensures FirstActors(next, n) - {} + {next + n} == FirstActors(next, n + 1)
  {
  }

  lemma RefusedStart(maxRestarts: nat, within: nat, next: ActorId, n: nat, spec: Spec, name: string)
    ensures Step(Refused(maxRestarts, within, next, n), Refusal(spec, name)) ==
            Refused(maxRestarts, within, next, n + 1)
  {
    RefusedRoom(maxRestarts, within, next, n, spec, name);
    OneMoreActor(next, n);
  }

  /**
   A limit of one child and a name that is taken: after any number of starts as many actors
   are left running, and not one of them is tracked.
   */
  lemma LimitDoesNotBoundRunning(maxRestarts: nat, within: nat, next: ActorId, spec: Spec, name: string, n: nat)
    returns (states: seq<Population>, moves: seq<Move>)
    ensures Run(states, moves) && |moves| == n && states[0] == Start(Some(1), maxRestarts, within, next)
    ensures |states[n].running| == n && states[n].d.children == [] && states[n].d.actorToId == map[]
  {
    states, moves := RefusedStates(maxRestarts, within, next, n), seq(n, _ => Refusal(spec, name));
    forall k: nat | k < n ensures Follows(states, moves, k) {
      RefusedFollows(maxRestarts, within, next, n, spec, name, k);
    }
    RefusedEnds(maxRestarts, within, next, n);
  }

  function RefusedStates(maxRestarts: nat, within: nat, next: ActorId, n: nat): (states: seq<Population>)
    ensures |states| == n + 1
    ensures forall k: nat :: k <= n ==> states[k] == Refused(maxRestarts, within, next, k)
  {
    seq(n + 1, k requires 0 <= k <= n => Refused(maxRestarts, within, next, k))
  }

  lemma RefusedEnds(maxRestarts: nat, within: nat, next: ActorId, n: nat)
    ensures Refused(maxRestarts, within, next, 0) == Start(Some(1), maxRestarts, within, next)
    ensures var s := Refused(maxRestarts, within, next, n);
            |s.running| == n && s.d.children == [] && s.d.actorToId == map[]
  {
  }

  lemma RefusedFollows(maxRestarts: nat, within: nat, next: ActorId, n: nat, spec: Spec, name: string, k: nat)
    requires k < n
    ensures Follows(RefusedStates(maxRestarts, within, next, n), seq(n, _ => Refusal(spec, name)), k)
  {
    RefusedStart(maxRestarts, within, next, k, spec, name);
    var moves := seq(n, _ => Refusal(spec, name));
    assert moves[k] == Refusal(spec, name);
  }
}
