/**
 What one message does to the children of a dynamic supervisor, beyond leaving it
 consistent (concurrency/src/tasks/dynamic_supervisor.rs:209-257, 414-452 and 480-509):
 which replies are given when, who joins, who leaves, and that nobody else is touched.
 */
module DynamicSupervisorEffects {
  import opened Reasons
  import opened Backoff
  import opened SupervisorSpec
  import opened InstanceIds
  import opened DynamicSupervisorSpec

  lemma NamesKept(names: map<string, string>, id: string)
    requires forall n :: n in names ==> names[n] != id
    ensures (map n | n in names && names[n] != id :: names[n]) == names
  {
  }

  lemma ChildrenKept(children: seq<Child>, c: Child)
    requires FirstNamed(children, c.id, 0).None?
    ensures RemoveById(children + [c], c.id) == children
  {
    FirstNamedLast(children, c, 0);
  }

  /** No map mentions the id, and the next actor is new. */
  ghost predicate Unknown(d: Dyn, id: string) {
    && id !in d.handles && id !in d.specs && d.next !in d.actorToId && FirstNamed(d.children, id, 0).None?
    && forall n :: n in d.regNames ==> d.regNames[n] != id
  }

  /** Forgetting a child that has just been added leaves everything but the actor counter as it was. */
  lemma AddThenDrop(d: Dyn, id: string, spec: Spec)
    requires Unknown(d, id)
    ensures Dropped(Added(d, id, spec), id) == d.(next := d.next + 1)
  {
    ChildrenKept(d.children, Added(d, id, spec).children[|d.children|]);
    PutRemove(d.specs, id, spec);
    PutRemove(d.handles, id, d.next);
    PutRemove(d.actorToId, d.next, id);
    NamesKept(d.regNames, id);
  }

  lemma RefusedAdmission(d: Dyn, id: string, spec: Spec, name: string)
    requires Unknown(d, id)
    ensures Admitted(d, id, spec, Some(name), true) == (d.(next := d.next + 1), RegistryRefused)
  {
    AddThenDrop(d, id, spec);
  }

  /** One more child, last in line, with the next actor. */
  ghost predicate Joined(d: Dyn, d': Dyn, id: string, spec: Spec) {
    && d'.handles == d.handles[id := d.next] && d'.specs == d.specs[id := spec]
    && d'.actorToId == d.actorToId[d.next := id] && d'.next == d.next + 1
    && AliveCount(d'.children) == AliveCount(d.children) + 1
    && |d'.children| == |d.children| + 1 && d'.children[..|d.children|] == d.children
    && Runs(d'.children[|d.children|], d.next)
    && d'.children[|d.children|].id == id && d'.children[|d.children|].restart == spec.restart
    && forall i :: 0 <= i < |d.children| ==> d.children[i].startIndex < d'.children[|d.children|].startIndex
  }

  lemma {:induction false} NextIsLargest(children: seq<Child>, i: nat)
    requires i < |children|
    ensures children[i].startIndex < NextStartIndex(children)
  {
    if i < |children| - 1 {
      NextIsLargest(children[..|children| - 1], i);
    }
  }

  lemma AddedJoined(d: Dyn, id: string, spec: Spec)
    ensures Joined(d, Added(d, id, spec), id, spec)
  {
    Append(d.children, Added(d, id, spec).children[|d.children|]);
    forall i | 0 <= i < |d.children| ensures d.children[i].startIndex < NextStartIndex(d.children) {
      NextIsLargest(d.children, i);
    }
  }

  function Named(names: map<string, string>, regName: Option<string>, id: string): map<string, string> {
    if regName.Some? then names[regName.value := id] else names
  }

  lemma StartedAdmission(d: Dyn, id: string, spec: Spec, regName: Option<string>, nameTaken: bool)
    requires Unknown(d, id) && (regName.None? || !nameTaken)
    ensures var r := Admitted(d, id, spec, regName, nameTaken);
            r.1 == Started(d.next) && Joined(d, r.0, id, spec) && r.0.regNames == Named(d.regNames, regName, id)
  {
    AddedJoined(d, id, spec);
  }

  /** With room, a start is admitted, or undone when the registry refuses. */
  lemma AdmittedEffect(d: Dyn, id: string, spec: Spec, regName: Option<string>, nameTaken: bool)
    requires Unknown(d, id)
    ensures var r := Admitted(d, id, spec, regName, nameTaken);
            if regName.Some? && nameTaken then r == (d.(next := d.next + 1), RegistryRefused)
            else r.1 == Started(d.next) && Joined(d, r.0, id, spec) && r.0.regNames == Named(d.regNames, regName, id)
  {
    if regName.Some? && nameTaken {
      RefusedAdmission(d, id, spec, regName.value);
    } else {
      StartedAdmission(d, id, spec, regName, nameTaken);
    }
  }

  lemma NothingKnown(d: Dyn, id: string)
    requires Consistent(d) && id !in d.handles
    ensures id !in d.specs && d.next !in d.actorToId && (forall n :: n in d.regNames ==> d.regNames[n] != id)
  {
  }

  /**
   A start succeeds exactly when the supervisor is not stopping, has room, and the registry
   name is free; then one child with a fresh actor has joined. Otherwise the tracked
   children are as they were.
   */
  lemma StartEffect(d: Dyn, spec: Spec, regName: Option<string>, nameTaken: bool)
    requires Consistent(d)
    ensures var r := AfterStart(d, spec, regName, nameTaken);
            && (r.1.Started? <==>
                  && !d.stopping && (regName.None? || !nameTaken)
                  && (d.maxChildren.Some? ==> AliveCount(d.children) < d.maxChildren.value))
            && (r.1.Started? ==>
                  && r.1.actor == d.next && d.next !in d.actorToId
                  && r.0.handles == d.handles[InstanceId(spec.id, d.counter + 1) := d.next]
                  && r.0.specs == d.specs[InstanceId(spec.id, d.counter + 1) := spec]
                  && AliveCount(r.0.children) == AliveCount(d.children) + 1
                  && r.0.regNames == Named(d.regNames, regName, InstanceId(spec.id, d.counter + 1)))
            && (!r.1.Started? ==>
                  r.0.handles == d.handles && r.0.specs == d.specs && r.0.actorToId == d.actorToId
                  && r.0.children == d.children && r.0.regNames == d.regNames)
  {
    NewNameIsUnknown(d, spec.id);
    if MayStart(d) {
      RoomEffect(d, InstanceId(spec.id, d.counter + 1), spec, regName, nameTaken);
    }
  }

  lemma NewNameIsUnknown(d: Dyn, template: string)
    requires Consistent(d)
    ensures Unknown(d, InstanceId(template, d.counter + 1))
  {
    FreshName(d, template);
    NothingKnown(d, InstanceId(template, d.counter + 1));
  }

  lemma RoomEffect(d: Dyn, id: string, spec: Spec, regName: Option<string>, nameTaken: bool)
    requires Unknown(d, id) && MayStart(d) && id == InstanceId(spec.id, d.counter + 1)
    ensures var r := AfterStart(d, spec, regName, nameTaken);
            if regName.Some? && nameTaken
            then r == (d.(counter := d.counter + 1, next := d.next + 1), RegistryRefused)
            else r.1 == Started(d.next) && Joined(d, r.0, id, spec) && r.0.regNames == Named(d.regNames, regName, id)
  {
    var counted := d.(counter := d.counter + 1);
    assert Unknown(counted, id);
    AdmittedEffect(counted, id, spec, regName, nameTaken);
    StartIsAdmission(d, spec, regName, nameTaken);
  }

  lemma {:induction false} FirstNamedLast(children: seq<Child>, c: Child, i: nat)
    requires i <= |children| && FirstNamed(children, c.id, i).None?
    ensures FirstNamed(children + [c], c.id, i) == Some(|children|)
    decreases |children| - i
  {
    if i < |children| {
      assert (children + [c])[i] == children[i];
      FirstNamedLast(children, c, i + 1);
    }
  }

  lemma MappedIsHandled(d: Dyn, actor: ActorId)
    requires MapsOk(d) && actor in d.actorToId
    ensures d.actorToId[actor] in d.handles && d.handles[d.actorToId[actor]] == actor
  {
  }

  /** Dropping the child of an actor takes that actor, and no other, out of the reverse map. */
  lemma DroppedMapping(d: Dyn, actor: ActorId)
    requires actor in d.actorToId && d.actorToId[actor] in d.handles && d.handles[d.actorToId[actor]] == actor
    ensures var d' := Dropped(d, d.actorToId[actor]);
            && d'.actorToId == d.actorToId - {actor} && d'.handles == d.handles - {d.actorToId[actor]}
  {
  }

  /** A termination succeeds exactly for the actor of a current child, which alone leaves. */
  lemma TerminateEffect(d: Dyn, actor: ActorId)
    requires Consistent(d)
    ensures var r := AfterTerminate(d, actor);
            && (r.1.Terminated? <==> actor in d.actorToId)
            && (r.1.Terminated? ==> r.0.handles == d.handles - {d.actorToId[actor]})
            && (!r.1.Terminated? ==> r.0 == d)
            && r.0.actorToId == d.actorToId - {actor}
            && (r.1.Terminated? ==>
                  r.0.regNames == map n | n in d.regNames && d.regNames[n] != d.actorToId[actor] :: d.regNames[n])
  {
    if actor in d.actorToId {
      MappedIsHandled(d, actor);
      DroppedMapping(d, actor);
    } else {
      assert d.actorToId - {actor} == d.actorToId;
    }
  }

  /**
   An exit concerns its own child alone: every other child keeps its actor and its spec. The
   exited actor stands in for no child afterwards, unless the supervisor gave up; its child
   is then gone or has a fresh actor.
   */
  lemma ExitEffect(d: Dyn, m: Message)
    requires Consistent(d)
    ensures OnlyItsChild(d, AfterChildExit(d, m), m.actor)
  {
    BookkeptConsistent(d, m);
    ExitMarksDead(Engine(d), m);
    var noted, action := Bookkept(d, m), OnChildExit(Engine(d), m.actor, m.reason, m.now).1;
    if action.RestartOne? {
      RestartedExit(d, m, action.id);
    }
    ReactedEffect(noted, action, m.actor);
  }

  /** The children of other actors are untouched; this actor's is gone, fresh, or given up on. */
  ghost predicate OnlyItsChild(d: Dyn, d': Dyn, actor: ActorId) {
    && (forall id :: id in d.handles && d.handles[id] != actor ==>
          && id in d'.handles && d'.handles[id] == d.handles[id]
          && (id in d.specs ==> id in d'.specs && d'.specs[id] == d.specs[id]))
    && d'.handles.Keys <= d.handles.Keys
    && (actor in d'.actorToId ==> d'.stopped)
    && (actor in d.actorToId && d.actorToId[actor] in d'.handles && !d'.stopped ==>
          d'.handles[d.actorToId[actor]] == d.next)
  }

  lemma ReactedEffect(noted: Dyn, action: Action, actor: ActorId)
    requires Consistent(noted)
    requires action.RestartOne? ==>
               action.id in noted.specs && action.id in noted.handles && noted.handles[action.id] == actor
    ensures OnlyItsChild(noted, Reacted(noted, action, actor), actor)
  {
    match action
    case Ignore => IgnoredExit(noted, actor);
    case RestartOne(id) => SwappedEffect(noted.(attempts := Reacted(noted, action, actor).attempts), id, actor);
    case Meltdown =>
    case TerminateBatch(_) =>
  }

  lemma SwappedEffect(d: Dyn, id: string, actor: ActorId)
    requires MapsOk(d) && id in d.specs && id in d.handles && d.handles[id] == actor
    ensures OnlyItsChild(d, Swapped(d, id), actor)
  {
  }

  /** The first child `actor` was started for is the one the reverse map knows. */
  lemma FirstOfIsMapped(d: Dyn, actor: ActorId)
    requires Consistent(d)
    ensures var found := FirstOf(d.children, actor, 0);
            && (found.Some? <==> actor in d.actorToId)
            && (found.Some? ==> d.actorToId[actor] == d.children[found.value].id)
  {
    var found := FirstOf(d.children, actor, 0);
    if found.Some? {
      RosterAt(d.children, found.value);
    }
    if actor in d.actorToId {
      var id := d.actorToId[actor];
      RosterNamed(d.children, id);
      RosterAt(d.children, FirstNamed(d.children, id, 0).value);
    }
  }

  lemma IgnoredExit(noted: Dyn, actor: ActorId)
    requires Consistent(noted)
    ensures OnlyItsChild(noted, Reacted(noted, Ignore, actor), actor)
  {
    FirstOfIsMapped(noted, actor);
    if actor in noted.actorToId {
      MappedIsHandled(noted, actor);
      DroppedMapping(noted, actor);
    }
    UnmappedEffect(noted, Reacted(noted, Ignore, actor), actor);
  }

  lemma UnmappedEffect(d: Dyn, d': Dyn, actor: ActorId)
    requires MapsOk(d) && actor !in d'.actorToId
    requires if actor in d.actorToId then d' == Dropped(d, d.actorToId[actor]) else d' == d
    ensures OnlyItsChild(d, d', actor)
  {
  }

  lemma RestartedExit(d: Dyn, m: Message, id: string)
    requires Consistent(d) && OnChildExit(Engine(d), m.actor, m.reason, m.now).1 == RestartOne(id)
    ensures id in d.specs && id in d.handles && d.handles[id] == m.actor
  {
    var at := FirstRunning(d.children, m.actor, 0).value;
    assert Runs(d.children[at], m.actor) && id == d.children[at].id;
    RosterAt(d.children, at);
  }

  // ----- what an exit leads to -----

  /** The child an actor runs for is the only one, and the maps know it. */
  lemma RunsForOne(d: Dyn, actor: ActorId, i: nat)
    requires Consistent(d) && i < |d.children| && Runs(d.children[i], actor)
    ensures FirstRunning(d.children, actor, 0) == Some(i)
    ensures actor in d.actorToId && d.actorToId[actor] == d.children[i].id
    ensures d.children[i].id in d.handles && d.handles[d.children[i].id] == actor && d.children[i].id in d.specs
  {
    var found := FirstRunning(d.children, actor, 0);
    assert found.Some? && found.value <= i;
    RosterAt(d.children, i);
    RosterAt(d.children, found.value);
  }

  /**
   The exit of the actor that runs for child `i`, while the supervisor is not stopping: the
   child gets a fresh actor exactly if its own type wants it and there is room, the supervisor
   gives up exactly if it wants it and there is none, and otherwise the child is gone.
   */
  lemma ExitDecided(d: Dyn, m: Message, i: nat)
    requires Consistent(d) && !d.stopping && i < |d.children| && Runs(d.children[i], m.actor)
    ensures var wants := Wants(d.children[i].restart, m.reason);
            var room := Room(d.accepted, m.now, d.within, d.maxRestarts);
            var id := d.children[i].id;
            var d' := AfterChildExit(d, m);
            && (wants && room ==>
                  && id in d'.handles && d'.handles[id] == d.next && d'.stopped == d.stopped
                  && id in d.specs && d'.attempts == BackoffDelay(d.attempts, id, d.specs[id].backoff).0)
            && (wants && !room ==> d'.stopped && d'.handles == d.handles)
            && (!wants ==> id !in d'.handles && d'.stopped == d.stopped)
            && d'.accepted == if wants && room then d.accepted + [m.now] else d.accepted
  {
    RunsForOne(d, m.actor, i);
    EngineExactly(Engine(d), m.actor, m.reason, m.now, i);
    BookkeptConsistent(d, m);
    var noted, action := Bookkept(d, m), OnChildExit(Engine(d), m.actor, m.reason, m.now).1;
    if action.Ignore? {
      FirstOfIsMapped(noted, m.actor);
    }
    ReactedDecided(noted, action, m.actor, d.children[i].id);
  }

  lemma ReactedDecided(noted: Dyn, action: Action, actor: ActorId, id: string)
    requires action.Ignore? ==>
               FirstOf(noted.children, actor, 0).Some? &&
               noted.children[FirstOf(noted.children, actor, 0).value].id == id
    requires action.RestartOne? ==> action.id == id && id in noted.specs
    ensures var d' := Reacted(noted, action, actor);
            && (action.Ignore? ==> id !in d'.handles && d'.stopped == noted.stopped)
            && (action.RestartOne? ==>
                  && id in d'.handles && d'.handles[id] == noted.next && d'.stopped == noted.stopped
                  && d'.attempts == BackoffDelay(noted.attempts, id, noted.specs[id].backoff).0)
            && (action.Meltdown? || action.TerminateBatch? ==> d'.stopped && d'.handles == noted.handles)
            && d'.accepted == noted.accepted
  {
  }

  // ----- children keep the restart type of their spec -----

  ghost predicate ChildMatches(d: Dyn, c: Child) {
    c.id in d.specs && d.specs[c.id].restart == c.restart
  }

  ghost predicate Matches(d: Dyn) {
    forall i :: 0 <= i < |d.children| ==> ChildMatches(d, d.children[i])
  }

  lemma StartMatches(d: Dyn, spec: Spec, regName: Option<string>, nameTaken: bool)
    requires Consistent(d) && Matches(d)
    ensures Matches(AfterStart(d, spec, regName, nameTaken).0)
  {
    var id := InstanceId(spec.id, d.counter + 1);
    NewNameIsUnknown(d, spec.id);
    if MayStart(d) {
      RoomEffect(d, id, spec, regName, nameTaken);
      if !(regName.Some? && nameTaken) {
        JoinedMatches(d, AfterStart(d, spec, regName, nameTaken).0, id, spec);
      }
    }
  }

  lemma JoinedMatches(d: Dyn, d': Dyn, id: string, spec: Spec)
    requires Matches(d) && Unknown(d, id) && Joined(d, d', id, spec)
    ensures Matches(d')
  {
    forall i | 0 <= i < |d'.children| ensures ChildMatches(d', d'.children[i]) {
      if i < |d.children| {
        assert d'.children[..|d.children|][i] == d.children[i];
        assert ChildMatches(d, d.children[i]);
      }
    }
  }

  lemma DroppedMatches(d: Dyn, id: string)
    requires Consistent(d) && Matches(d)
    ensures Matches(Dropped(d, id))
  {
    var d', found := Dropped(d, id), FirstNamed(d.children, id, 0);
    ConsistentDistinct(d);
    forall i: nat | i < |d'.children| ensures ChildMatches(d', d'.children[i]) {
      var j := if found.Some? then Shifted(found.value, i) else i;
      assert d'.children[i] == d.children[j] && d.children[j].id != id;
      assert ChildMatches(d, d.children[j]);
    }
  }

  /** Changing handles alone changes no child's type. */
  lemma SameTypes(d: Dyn, d': Dyn)
    requires Matches(d) && d'.specs == d.specs && |d'.children| == |d.children|
    requires forall i :: 0 <= i < |d.children| ==>
               d'.children[i].id == d.children[i].id && d'.children[i].restart == d.children[i].restart
    ensures Matches(d')
  {
    forall i | 0 <= i < |d'.children| ensures ChildMatches(d', d'.children[i]) {
      assert ChildMatches(d, d.children[i]);
    }
  }

  lemma ExitMatches(d: Dyn, m: Message)
    requires Consistent(d) && Matches(d)
    ensures Matches(AfterChildExit(d, m))
  {
    var noted, action := Bookkept(d, m), OnChildExit(Engine(d), m.actor, m.reason, m.now).1;
    BookkeptConsistent(d, m);
    ExitMarksDead(Engine(d), m);
    SameTypes(d, noted);
    ReactedMatches(noted, action, m.actor);
  }

  lemma ReactedMatches(noted: Dyn, action: Action, actor: ActorId)
    requires Consistent(noted) && Matches(noted)
    ensures Matches(Reacted(noted, action, actor))
  {
    var d' := Reacted(noted, action, actor);
    match action
    case Ignore =>
      var found := FirstOf(noted.children, actor, 0);
      if found.Some? {
        DroppedMatches(noted, noted.children[found.value].id);
      }
    case RestartOne(_) => SameTypes(noted, d');
    case Meltdown => SameTypes(noted, d');
    case TerminateBatch(_) => SameTypes(noted, d');
  }

  lemma StepMatches(d: Dyn, r: Request)
    requires Consistent(d) && Matches(d)
    ensures Matches(Step(d, r).0)
  {
    match r
    case StartChild(spec, regName, nameTaken) => StartMatches(d, spec, regName, nameTaken);
    case TerminateChild(actor) =>
      if actor in d.actorToId {
        DroppedMatches(d, d.actorToId[actor]);
        SameTypes(Dropped(d, d.actorToId[actor]),
                  Dropped(d, d.actorToId[actor]).(terminated := d.terminated + {d.actorToId[actor]}));
      }
    case ChildExited(m) => ExitMatches(d, m);
  }

  /** After any messages, the engine knows every child by the restart type it was started with. */
  lemma {:induction false} AlwaysMatches(
      maxChildren: Option<nat>, maxRestarts: nat, within: nat, next: ActorId, requests: seq<Request>)
    ensures Matches(After(Initial(maxChildren, maxRestarts, within, next), requests))
  {
    if requests != [] {
      var before := requests[..|requests| - 1];
      AlwaysMatches(maxChildren, maxRestarts, within, next, before);
      AlwaysConsistent(maxChildren, maxRestarts, within, next, before);
      StepMatches(After(Initial(maxChildren, maxRestarts, within, next), before), requests[|requests| - 1]);
    }
  }
}
