/**
 The dynamic supervisor with local children as a function of its state and the next
 message (concurrency/src/tasks/dynamic_supervisor.rs:204-509), and what holds over every
 sequence of messages: the engine, the specs, the handles and the reverse map describe
 the same children, no more of these tracked children are alive than allowed, and a
 terminated child never comes back. What runs untracked is in DynamicPopulation.
 */
module DynamicSupervisorSpec {
  import opened Reasons
  import opened Backoff
  import opened SupervisorSpec
  import opened InstanceIds

  datatype Dyn = Dyn(
    children: seq<Child>, specs: map<string, Spec>, handles: map<string, ActorId>, actorToId: map<ActorId, string>,
    regNames: map<string, string>, counter: nat, next: ActorId, maxChildren: Option<nat>,
    maxRestarts: nat, within: nat, accepted: seq<nat>, attempts: map<string, Count>,
    stopping: bool, stopped: bool,
    terminated: set<string>)  // ids whose termination was requested

  datatype Request =
    | StartChild(spec: Spec, regName: Option<string>, nameTaken: bool)  // nameTaken: the registry's answer
    | TerminateChild(actor: ActorId)
    | ChildExited(exit: Message)

  datatype Reply =
    | Started(actor: ActorId) | SupervisorStopping | MaxChildrenExceeded | DuplicateChildId | RegistryRefused
    | Terminated | ChildNotFound | Handled

  function AliveCount(children: seq<Child>): nat {
    if children == [] then 0
    else AliveCount(children[..|children| - 1]) + if IsAlive(children[|children| - 1]) then 1 else 0
  }

  function NextStartIndex(children: seq<Child>): nat {
    if children == [] then 0
    else
      var rest, last := NextStartIndex(children[..|children| - 1]), children[|children| - 1].startIndex + 1;
      if rest >= last then rest else last
  }

  /** The first child `actor` was started for, dead or alive. */
  function FirstOf(children: seq<Child>, actor: ActorId, i: nat): (r: Option<nat>)
    requires i <= |children|
    ensures r.Some? ==>
              && i <= r.value < |children| && children[r.value].handle.Some?
              && children[r.value].handle.value.actor == actor
    ensures forall k :: i <= k < (if r.Some? then r.value else |children|) ==>
              !(children[k].handle.Some? && children[k].handle.value.actor == actor)
    decreases |children| - i
  {
    if i == |children| then None
    else if children[i].handle.Some? && children[i].handle.value.actor == actor then Some(i)
    else FirstOf(children, actor, i + 1)
  }

  // ----- the parts of a step -----

  /** Register a freshly started child under `id`. */
  function Added(d: Dyn, id: string, spec: Spec): Dyn {
    d.(children := d.children + [Child(id, spec.restart, NextStartIndex(d.children), Some(Slot(d.next, true)))],
       specs := d.specs[id := spec], handles := d.handles[id := d.next],
       actorToId := d.actorToId[d.next := id], next := d.next + 1)
  }

  /** Forget a child everywhere. */
  function Dropped(d: Dyn, id: string): Dyn {
    d.(children := RemoveById(d.children, id),
       specs := d.specs - {id},
       actorToId := if id in d.handles then d.actorToId - {d.handles[id]} else d.actorToId,
       handles := d.handles - {id},
       regNames := map n | n in d.regNames && d.regNames[n] != id :: d.regNames[n])
  }

  /** Give a child a fresh actor. */
  function Swapped(d: Dyn, id: string): Dyn {
    d.(children := ReplaceHandle(d.children, id, Slot(d.next, true)),
       actorToId := (if id in d.handles then d.actorToId - {d.handles[id]} else d.actorToId)[d.next := id],
       handles := d.handles[id := d.next], next := d.next + 1)
  }

  function Engine(d: Dyn): Logic {
    Logic(OneForOne, d.maxRestarts, d.within, d.accepted, d.children, d.stopping, None, d.attempts)
  }

  predicate MayStart(d: Dyn) {
    !d.stopping && (d.maxChildren.Some? ==> AliveCount(d.children) < d.maxChildren.value)
  }

  /** Start a child under a new name; if its registry name is taken it is forgotten again. */
  function Admitted(d: Dyn, id: string, spec: Spec, regName: Option<string>, nameTaken: bool): (Dyn, Reply) {
    var added := Added(d, id, spec);
    if FirstNamed(d.children, id, 0).Some? then (d, DuplicateChildId)
    else if regName.None? then (added, Started(d.next))
    else if nameTaken then (Dropped(added, id), RegistryRefused)
    else (added.(regNames := d.regNames[regName.value := id]), Started(d.next))
  }

  function AfterStart(d: Dyn, spec: Spec, regName: Option<string>, nameTaken: bool): (Dyn, Reply) {
    if d.stopping then (d, SupervisorStopping)
    else if !MayStart(d) then (d, MaxChildrenExceeded)
    else Admitted(d.(counter := d.counter + 1), InstanceId(spec.id, d.counter + 1), spec, regName, nameTaken)
  }

  function AfterTerminate(d: Dyn, actor: ActorId): (Dyn, Reply) {
    if actor !in d.actorToId || d.actorToId[actor] !in d.handles then (d, ChildNotFound)
    else (Dropped(d, d.actorToId[actor]).(terminated := d.terminated + {d.actorToId[actor]}), Terminated)
  }

  /** The engine's bookkeeping for an exit. */
  function Bookkept(d: Dyn, m: Message): Dyn {
    var l := OnChildExit(Engine(d), m.actor, m.reason, m.now).0;
    d.(children := l.children, accepted := l.accepted, attempts := l.attempts)
  }

  /** What the supervisor makes of the engine's answer, once the exit has been noted. */
  function Reacted(noted: Dyn, action: Action, actor: ActorId): Dyn {
    match action
    case Ignore =>
      var found := FirstOf(noted.children, actor, 0);
      if found.Some? then Dropped(noted, noted.children[found.value].id) else noted
    case RestartOne(id) =>
      if id in noted.specs then
        Swapped(noted.(attempts := BackoffDelay(noted.attempts, id, noted.specs[id].backoff).0), id)
      else noted
    case Meltdown => noted.(stopped := true)
    case TerminateBatch(_) => noted.(stopped := true)
  }

  function AfterChildExit(d: Dyn, m: Message): Dyn {
    Reacted(Bookkept(d, m), OnChildExit(Engine(d), m.actor, m.reason, m.now).1, m.actor)
  }

  function Step(d: Dyn, r: Request): (Dyn, Reply) {
    match r
    case StartChild(spec, regName, nameTaken) => AfterStart(d, spec, regName, nameTaken)
    case TerminateChild(actor) => AfterTerminate(d, actor)
    case ChildExited(m) => (AfterChildExit(d, m), Handled)
  }

  // ----- consistency -----

  ghost predicate DistinctIds(children: seq<Child>) {
    forall i, j :: 0 <= i < j < |children| ==> children[i].id != children[j].id
  }

  /** The engine's own view of who stands in for which child. */
  function Roster(children: seq<Child>): map<string, ActorId> {
    if children == [] then map[]
    else
      var c := children[|children| - 1];
      var rest := Roster(children[..|children| - 1]);
      if c.handle.Some? then rest[c.id := c.handle.value.actor] else rest
  }

  /** The engine's children and the handle map are the same relation. */
  ghost predicate ChildrenOk(d: Dyn) {
    && DistinctIds(d.children)
    && (forall i :: 0 <= i < |d.children| ==> d.children[i].handle.Some?)
    && Roster(d.children) == d.handles
  }

  ghost predicate Numbered(id: string, counter: nat) {
    CounterOf(id) <= counter
  }

  /** Specs, handles and the reverse map agree; names carry used counters; terminated ids are gone. */
  ghost predicate MapsOk(d: Dyn) {
    && d.specs.Keys == d.handles.Keys
    && (forall id :: id in d.handles ==>
          d.handles[id] < d.next && d.handles[id] in d.actorToId && d.actorToId[d.handles[id]] == id)
    && (forall a :: a in d.actorToId ==> d.actorToId[a] in d.handles && d.handles[d.actorToId[a]] == a)
    && (forall n :: n in d.regNames ==> d.regNames[n] in d.handles)
    && (forall id :: id in d.handles ==> Numbered(id, d.counter) && id !in d.terminated)
    && (forall id :: id in d.terminated ==> Numbered(id, d.counter))
  }

  ghost predicate CountOk(d: Dyn) {
    d.maxChildren.Some? ==> AliveCount(d.children) <= d.maxChildren.value
  }

  ghost predicate Consistent(d: Dyn) {
    ChildrenOk(d) && MapsOk(d) && CountOk(d)
  }

  // ----- counting and listing -----

  lemma Append(children: seq<Child>, c: Child)
    requires c.handle.Some?
    ensures AliveCount(children + [c]) == AliveCount(children) + if IsAlive(c) then 1 else 0
    ensures Roster(children + [c]) == Roster(children)[c.id := c.handle.value.actor]
  {
    assert (children + [c])[..|children|] == children;
  }

  lemma {:induction false} CountUpdate(children: seq<Child>, i: nat, c: Child)
    requires i < |children|
    ensures AliveCount(children[i := c]) ==
            AliveCount(children) - (if IsAlive(children[i]) then 1 else 0) + (if IsAlive(c) then 1 else 0)
  {
    var updated := children[i := c];
    var prefix := children[..|children| - 1];
    if i < |prefix| {
      CountUpdate(prefix, i, c);
      assert updated[..|updated| - 1] == prefix[i := c];
    } else {
      assert updated[..|updated| - 1] == prefix;
    }
  }

  lemma {:induction false} CountRemove(children: seq<Child>, i: nat)
    requires i < |children|
    ensures AliveCount(children[..i] + children[i + 1..]) ==
            AliveCount(children) - (if IsAlive(children[i]) then 1 else 0)
  {
    var removed := children[..i] + children[i + 1..];
    var prefix := children[..|children| - 1];
    if i < |prefix| {
      CountRemove(prefix, i);
      assert removed[..|removed| - 1] == prefix[..i] + prefix[i + 1..];
    } else {
      assert removed == prefix;
    }
  }

  /** The roster lists exactly the children. */
  lemma {:induction false} RosterKeys(children: seq<Child>, id: string)
    requires forall i :: 0 <= i < |children| ==> children[i].handle.Some?
    ensures id in Roster(children) <==> exists i :: 0 <= i < |children| && children[i].id == id
  {
    if children != [] {
      var prefix := children[..|children| - 1];
      RosterKeys(prefix, id);
      if id in Roster(prefix) {
        var i :| 0 <= i < |prefix| && prefix[i].id == id;
        assert children[i].id == id;
      }
      if exists i :: 0 <= i < |children| && children[i].id == id {
        var i :| 0 <= i < |children| && children[i].id == id;
        assert i < |prefix| ==> prefix[i].id == id;
      }
    }
  }

  lemma RosterNamed(children: seq<Child>, id: string)
    requires forall i :: 0 <= i < |children| ==> children[i].handle.Some?
    ensures id in Roster(children) <==> FirstNamed(children, id, 0).Some?
  {
    RosterKeys(children, id);
  }

  lemma {:induction false} RosterAt(children: seq<Child>, i: nat)
    requires DistinctIds(children) && i < |children|
    requires forall k :: 0 <= k < |children| ==> children[k].handle.Some?
    ensures children[i].id in Roster(children) && Roster(children)[children[i].id] == children[i].handle.value.actor
  {
    var prefix := children[..|children| - 1];
    if i < |prefix| {
      RosterAt(prefix, i);
      assert children[i].id != children[|children| - 1].id;
    }
  }

  lemma {:induction false} RosterUpdate(children: seq<Child>, i: nat, c: Child)
    requires DistinctIds(children) && i < |children| && c.id == children[i].id && c.handle.Some?
    requires forall k :: 0 <= k < |children| ==> children[k].handle.Some?
    ensures Roster(children[i := c]) == Roster(children)[c.id := c.handle.value.actor]
  {
    var updated := children[i := c];
    var prefix, last := children[..|children| - 1], children[|children| - 1];
    if i < |prefix| {
      RosterUpdate(prefix, i, c);
      assert updated[..|updated| - 1] == prefix[i := c];
      assert c.id != last.id;
    } else {
      assert updated[..|updated| - 1] == prefix;
    }
  }

  lemma {:induction false} RosterLacks(children: seq<Child>, id: string)
    requires forall k :: 0 <= k < |children| ==> children[k].id != id
    ensures id !in Roster(children)
  {
    if children != [] {
      RosterLacks(children[..|children| - 1], id);
    }
  }

  lemma PutRemove<K, V>(m: map<K, V>, k: K, v: V)
    requires k !in m
    ensures m[k := v] - {k} == m
  {
  }

  lemma MapPutOther(m: map<string, ActorId>, removed: string, id: string, a: ActorId)
    requires removed != id
    ensures m[id := a] - {removed} == (m - {removed})[id := a]
  {
  }

  lemma {:induction false} RosterRemove(children: seq<Child>, i: nat)
    requires DistinctIds(children) && i < |children|
    requires forall k :: 0 <= k < |children| ==> children[k].handle.Some?
    ensures Roster(children[..i] + children[i + 1..]) == Roster(children) - {children[i].id}
  {
    var removed := children[..i] + children[i + 1..];
    var prefix, last := children[..|children| - 1], children[|children| - 1];
    if i < |prefix| {
      RosterRemove(prefix, i);
      assert removed[..|removed| - 1] == prefix[..i] + prefix[i + 1..];
      assert removed[|removed| - 1] == last && children[i].id != last.id;
      MapPutOther(Roster(prefix), children[i].id, last.id, last.handle.value.actor);
    } else {
      assert removed == prefix;
      RosterLacks(prefix, last.id);
      PutRemove(Roster(prefix), last.id, last.handle.value.actor);
    }
  }

  /** Marking a child dead leaves the roster as it is. */
  lemma RosterDead(children: seq<Child>, i: nat)
    requires DistinctIds(children) && i < |children|
    requires forall k :: 0 <= k < |children| ==> children[k].handle.Some?
    ensures Roster(children[i := Dead(children[i])]) == Roster(children)
  {
    RosterAt(children, i);
    RosterUpdate(children, i, Dead(children[i]));
  }

  // ----- each part keeps consistency -----

  lemma AddedConsistent(d: Dyn, id: string, spec: Spec)
    requires Consistent(d) && id !in d.handles && id !in d.terminated && Numbered(id, d.counter)
    requires d.maxChildren.Some? ==> AliveCount(d.children) < d.maxChildren.value
    ensures Consistent(Added(d, id, spec))
  {
    var d' := Added(d, id, spec);
    Append(d.children, d'.children[|d.children|]);
    RosterKeys(d.children, id);
    assert ChildrenOk(d');
    assert MapsOk(d');
  }

  lemma DroppedMaps(d: Dyn, id: string)
    requires MapsOk(d)
    ensures MapsOk(Dropped(d, id))
  {
  }

  lemma DroppedConsistent(d: Dyn, id: string)
    requires Consistent(d)
    ensures Consistent(Dropped(d, id))
  {
    var d' := Dropped(d, id);
    DroppedMaps(d, id);
    RosterNamed(d.children, id);
    var found := FirstNamed(d.children, id, 0);
    if found.Some? {
      RosterRemove(d.children, found.value);
      CountRemove(d.children, found.value);
      RemovedStaysDistinct(d.children, found.value);
    } else {
      assert d'.handles == d.handles;
    }
  }

  lemma RemovedStaysDistinct(children: seq<Child>, at: nat)
    requires DistinctIds(children) && at < |children|
    requires forall k :: 0 <= k < |children| ==> children[k].handle.Some?
    ensures DistinctIds(children[..at] + children[at + 1..])
    ensures var rest := children[..at] + children[at + 1..];
            forall k :: 0 <= k < |rest| ==> rest[k].handle.Some?
  {
  }

  lemma ConsistentDistinct(d: Dyn)
    requires Consistent(d)
    ensures DistinctIds(d.children)
  {
  }

  /** With distinct ids a second removal finds nothing. */
  lemma RemovedOnce(children: seq<Child>, id: string)
    requires DistinctIds(children)
    ensures RemoveById(RemoveById(children, id), id) == RemoveById(children, id)
  {
    var rest := RemoveById(children, id);
    var found := FirstNamed(children, id, 0);
    if found.Some? {
      forall k | 0 <= k < |rest| ensures rest[k].id != id {
        assert rest[k] == children[Shifted(found.value, k)];
      }
    }
  }

  lemma SwappedMaps(d: Dyn, id: string)
    requires MapsOk(d) && id in d.handles
    ensures MapsOk(Swapped(d, id))
  {
  }

  lemma SwappedConsistent(d: Dyn, id: string)
    requires ChildrenOk(d) && MapsOk(d) && id in d.handles
    requires d.maxChildren.Some? ==> AliveCount(d.children) < d.maxChildren.value
    ensures Consistent(Swapped(d, id))
  {
    var d' := Swapped(d, id);
    SwappedMaps(d, id);
    RosterNamed(d.children, id);
    var at := FirstNamed(d.children, id, 0).value;
    RosterUpdate(d.children, at, d'.children[at]);
    CountUpdate(d.children, at, d'.children[at]);
  }

  /** Marking a child dead concerns neither the roster nor the maps. */
  lemma DeadConsistent(d: Dyn, at: nat)
    requires Consistent(d) && at < |d.children|
    ensures Consistent(d.(children := d.children[at := Dead(d.children[at])]))
    ensures AliveCount(d.children[at := Dead(d.children[at])]) ==
            AliveCount(d.children) - if IsAlive(d.children[at]) then 1 else 0
  {
    CountUpdate(d.children, at, Dead(d.children[at]));
    RosterDead(d.children, at);
    var d' := d.(children := d.children[at := Dead(d.children[at])]);
    MapsElsewhere(d, d');
    assert ChildrenOk(d');
    assert CountOk(d');
  }

  /** The maps do not depend on the engine's children. */
  lemma MapsElsewhere(d: Dyn, d': Dyn)
    requires MapsOk(d) && d' == d.(children := d'.children)
    ensures MapsOk(d')
  {
  }

  // ----- each message keeps consistency -----

  /** A start never meets a name in use: the counter in the name is new. */
  lemma FreshName(d: Dyn, template: string)
    requires Consistent(d)
    ensures var id := InstanceId(template, d.counter + 1);
            id !in d.handles && id !in d.terminated && FirstNamed(d.children, id, 0).None?
            && Numbered(id, d.counter + 1)
  {
    var id := InstanceId(template, d.counter + 1);
    CounterRecovered(template, d.counter + 1);
    assert !Numbered(id, d.counter);
    RosterNamed(d.children, id);
  }

  lemma CountedConsistent(d: Dyn)
    requires Consistent(d)
    ensures Consistent(d.(counter := d.counter + 1))
  {
    var d' := d.(counter := d.counter + 1);
    assert ChildrenOk(d') && CountOk(d');
    assert MapsOk(d') by {
      forall id | Numbered(id, d.counter) ensures Numbered(id, d'.counter) {}
    }
  }

  lemma RegisteredMaps(d: Dyn, name: string, id: string)
    requires MapsOk(d) && id in d.handles
    ensures MapsOk(d.(regNames := d.regNames[name := id]))
  {
  }

  lemma AdmittedConsistent(d: Dyn, id: string, spec: Spec, regName: Option<string>, nameTaken: bool)
    requires Consistent(d) && MayStart(d) && id !in d.handles && id !in d.terminated && Numbered(id, d.counter)
    ensures Consistent(Admitted(d, id, spec, regName, nameTaken).0)
  {
    var added := Added(d, id, spec);
    AddedConsistent(d, id, spec);
    DroppedConsistent(added, id);
    if regName.Some? {
      RegisteredMaps(added, regName.value, id);
    }
    var d' := Admitted(d, id, spec, regName, nameTaken).0;
    assert d' == d || d' == added || d' == Dropped(added, id)
           || (regName.Some? && d' == added.(regNames := added.regNames[regName.value := id]));
  }

  /** The error for a name in use is never returned. */
  lemma NeverDuplicate(d: Dyn, spec: Spec, regName: Option<string>, nameTaken: bool)
    requires Consistent(d)
    ensures !AfterStart(d, spec, regName, nameTaken).1.DuplicateChildId?
  {
    FreshName(d, spec.id);
  }

  lemma StartIsAdmission(d: Dyn, spec: Spec, regName: Option<string>, nameTaken: bool)
    ensures if MayStart(d)
            then AfterStart(d, spec, regName, nameTaken) ==
                 Admitted(d.(counter := d.counter + 1), InstanceId(spec.id, d.counter + 1), spec, regName, nameTaken)
            else AfterStart(d, spec, regName, nameTaken).0 == d
  {
  }

  lemma StartConsistent(d: Dyn, spec: Spec, regName: Option<string>, nameTaken: bool)
    requires Consistent(d)
    ensures Consistent(AfterStart(d, spec, regName, nameTaken).0)
  {
    var counted, id := d.(counter := d.counter + 1), InstanceId(spec.id, d.counter + 1);
    StartIsAdmission(d, spec, regName, nameTaken);
    if MayStart(d) {
      FreshName(d, spec.id);
      CountedConsistent(d);
      AdmittedConsistent(counted, id, spec, regName, nameTaken);
    }
  }

  lemma TerminateConsistent(d: Dyn, actor: ActorId)
    requires Consistent(d)
    ensures Consistent(AfterTerminate(d, actor).0)
  {
    if actor in d.actorToId {
      var id := d.actorToId[actor];
      DroppedConsistent(d, id);
      assert MapsOk(Dropped(d, id).(terminated := d.terminated + {id}));
    }
  }

  lemma ExitMarksDead(l: Logic, m: Message)
    ensures var r := OnChildExit(l, m.actor, m.reason, m.now);
            && r.0.children == (if l.suppress then l.children else MarkDead(l.children, m.actor))
            && (r.1.RestartOne? ==> !l.suppress && FirstRunning(l.children, m.actor, 0).Some?)
  {
  }

  /** Consistency does not look at the restart history or the backoff counters. */
  lemma OnlyChildrenMatter(d: Dyn, d': Dyn)
    requires Consistent(d) && d' == d.(accepted := d'.accepted, attempts := d'.attempts)
    ensures Consistent(d')
  {
  }

  /** Noting an exit marks at most one child dead, and a restart is only asked for such a child. */
  lemma BookkeptConsistent(d: Dyn, m: Message)
    requires Consistent(d)
    ensures Consistent(Bookkept(d, m))
    ensures OnChildExit(Engine(d), m.actor, m.reason, m.now).1.RestartOne? ==>
              AliveCount(Bookkept(d, m).children) == AliveCount(d.children) - 1
  {
    var at := FirstRunning(d.children, m.actor, 0);
    ExitMarksDead(Engine(d), m);
    if !d.stopping && at.Some? {
      DeadConsistent(d, at.value);
    }
    OnlyChildrenMatter(d.(children := Bookkept(d, m).children), Bookkept(d, m));
  }

  lemma ExitConsistent(d: Dyn, m: Message)
    requires Consistent(d)
    ensures Consistent(AfterChildExit(d, m))
  {
    BookkeptConsistent(d, m);
    var noted := Bookkept(d, m);
    match OnChildExit(Engine(d), m.actor, m.reason, m.now).1
    case Ignore =>
      var found := FirstOf(noted.children, m.actor, 0);
      if found.Some? {
        DroppedConsistent(noted, noted.children[found.value].id);
      }
    case RestartOne(id) =>
      if id in d.specs {
        SwappedConsistent(noted.(attempts := BackoffDelay(noted.attempts, id, d.specs[id].backoff).0), id);
      }
    case Meltdown =>
    case TerminateBatch(_) =>
  }

  lemma StepConsistent(d: Dyn, r: Request)
    requires Consistent(d)
    ensures Consistent(Step(d, r).0)
  {
    match r
    case StartChild(spec, regName, nameTaken) => StartConsistent(d, spec, regName, nameTaken);
    case TerminateChild(actor) => TerminateConsistent(d, actor);
    case ChildExited(m) => ExitConsistent(d, m);
  }

  // ----- whole runs -----

  /** A supervisor before its first message. */
  function Initial(maxChildren: Option<nat>, maxRestarts: nat, within: nat, next: ActorId): Dyn {
    Dyn([], map[], map[], map[], map[], 0, next, maxChildren, maxRestarts, within, [], map[], false, false, {})
  }

  function After(d: Dyn, requests: seq<Request>): Dyn {
    if requests == [] then d
    else Step(After(d, requests[..|requests| - 1]), requests[|requests| - 1]).0
  }

  /**
   After any messages whatsoever: the engine's children are exactly the handle map, specs
   have the same ids, the reverse map is the exact inverse, registered names lead to
   children, and no more children are alive than allowed.
   */
  lemma {:induction false} AlwaysConsistent(
      maxChildren: Option<nat>, maxRestarts: nat, within: nat, next: ActorId, requests: seq<Request>)
    ensures Consistent(After(Initial(maxChildren, maxRestarts, within, next), requests))
  {
    if requests != [] {
      AlwaysConsistent(maxChildren, maxRestarts, within, next, requests[..|requests| - 1]);
      var before := After(Initial(maxChildren, maxRestarts, within, next), requests[..|requests| - 1]);
      StepConsistent(before, requests[|requests| - 1]);
    }
  }

  /** Every child is registered under at most one name, so forgetting a child removes one name. */
  ghost predicate OneNameEach(d: Dyn) {
    forall n, n' :: n in d.regNames && n' in d.regNames && d.regNames[n] == d.regNames[n'] ==> n == n'
  }

  lemma AdmittedNames(d: Dyn, id: string, spec: Spec, regName: Option<string>, nameTaken: bool)
    requires MapsOk(d) && id !in d.handles && OneNameEach(d)
    ensures OneNameEach(Admitted(d, id, spec, regName, nameTaken).0)
  {
  }

  lemma ExitNames(d: Dyn, m: Message)
    requires OneNameEach(d)
    ensures OneNameEach(AfterChildExit(d, m))
  {
  }

  lemma StepNames(d: Dyn, r: Request)
    requires Consistent(d) && OneNameEach(d)
    ensures OneNameEach(Step(d, r).0)
  {
    match r
    case StartChild(spec, regName, nameTaken) =>
      if MayStart(d) {
        FreshName(d, spec.id);
        CountedConsistent(d);
        AdmittedNames(d.(counter := d.counter + 1), InstanceId(spec.id, d.counter + 1), spec, regName, nameTaken);
      }
    case TerminateChild(actor) =>
    case ChildExited(m) => ExitNames(d, m);
  }

  lemma {:induction false} AlwaysOneNameEach(
      maxChildren: Option<nat>, maxRestarts: nat, within: nat, next: ActorId, requests: seq<Request>)
    ensures OneNameEach(After(Initial(maxChildren, maxRestarts, within, next), requests))
  {
    if requests != [] {
      var before := requests[..|requests| - 1];
      AlwaysOneNameEach(maxChildren, maxRestarts, within, next, before);
      AlwaysConsistent(maxChildren, maxRestarts, within, next, before);
      StepNames(After(Initial(maxChildren, maxRestarts, within, next), before), requests[|requests| - 1]);
    }
  }

  lemma StepKeepsTerminated(d: Dyn, r: Request)
    ensures d.terminated <= Step(d, r).0.terminated
  {
  }

  /** A terminated id is never again a child, whatever messages follow, its own late exit included. */
  lemma {:induction false} TerminatedStaysGone(d: Dyn, actor: ActorId, requests: seq<Request>)
    requires Consistent(d) && actor in d.actorToId
    ensures var id := d.actorToId[actor];
            var end := After(AfterTerminate(d, actor).0, requests);
            && Consistent(end) && id in end.terminated
            && id !in end.handles && FirstNamed(end.children, id, 0).None?
  {
    TerminateConsistent(d, actor);
    var start := AfterTerminate(d, actor).0;
    var end := After(start, requests);
    if requests != [] {
      TerminatedStaysGone(d, actor, requests[..|requests| - 1]);
      StepConsistent(After(start, requests[..|requests| - 1]), requests[|requests| - 1]);
      StepKeepsTerminated(After(start, requests[..|requests| - 1]), requests[|requests| - 1]);
    }
    RosterNamed(end.children, d.actorToId[actor]);
  }
}
