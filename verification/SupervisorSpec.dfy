/**
 The restart policy engine of supervisors as functions of its state
 (concurrency/src/supervisor/mod.rs, concurrency/src/child_spec.rs:158-165), and what it
 means for a whole run of a static supervisor with local children
 (concurrency/src/tasks/supervisor.rs:221-374).
 */
module SupervisorSpec {
  import opened Reasons
  import opened Intensity
  import opened Backoff

  datatype Strategy = OneForOne | OneForAll | RestForOne

  datatype RestartType = Permanent | Transient | Temporary

  predicate ShouldRestart(restart: RestartType, reason: ExitReason) {
    match restart
    case Permanent => !reason.Shutdown?
    case Transient => reason.IsAbnormal()
    case Temporary => false
  }

  /** The actor currently standing in for a child, and whether its exit has been seen. */
  datatype Slot = Slot(actor: ActorId, alive: bool)

  datatype Child = Child(id: string, restart: RestartType, startIndex: nat, handle: Option<Slot>)

  datatype Batch = All | FromIndex(index: nat)

  datatype Action = Ignore | RestartOne(id: string) | TerminateBatch(ids: seq<string>) | Meltdown

  /** The engine's whole state; `accepted` is the full history of the restart limit. */
  datatype Logic = Logic(
    strategy: Strategy, maxRestarts: nat, within: nat, accepted: seq<nat>,
    children: seq<Child>, suppress: bool, pending: Option<Batch>, attempts: map<string, Count>)

  // ----- looking children up -----

  predicate IsAlive(c: Child) {
    c.handle.Some? && c.handle.value.alive
  }

  /** `actor` stands in for this child and is not known to have exited. */
  predicate Runs(c: Child, actor: ActorId) {
    c.handle == Some(Slot(actor, true))
  }

  /** The first child from position `i` on that `actor` runs for. */
  function FirstRunning(children: seq<Child>, actor: ActorId, i: nat): (r: Option<nat>)
    requires i <= |children|
    ensures r.Some? ==> i <= r.value < |children| && Runs(children[r.value], actor)
    ensures forall k :: i <= k < (if r.Some? then r.value else |children|) ==> !Runs(children[k], actor)
    decreases |children| - i
  {
    if i == |children| then None
    else if Runs(children[i], actor) then Some(i)
    else FirstRunning(children, actor, i + 1)
  }

  /** The first child from position `i` on with this id. */
  function FirstNamed(children: seq<Child>, id: string, i: nat): (r: Option<nat>)
    requires i <= |children|
    ensures r.Some? ==> i <= r.value < |children| && children[r.value].id == id
    ensures forall k :: i <= k < (if r.Some? then r.value else |children|) ==> children[k].id != id
    decreases |children| - i
  {
    if i == |children| then None
    else if children[i].id == id then Some(i)
    else FirstNamed(children, id, i + 1)
  }

  function Ids(children: seq<Child>): (ids: seq<string>)
    ensures |ids| == |children| && forall i :: 0 <= i < |ids| ==> ids[i] == children[i].id
  {
    seq(|children|, i requires 0 <= i < |children| => children[i].id)
  }

  /** The ids of the children started at or after `index`, in order. */
  function IdsFrom(children: seq<Child>, index: nat): (ids: seq<string>)
  {
    if children == [] then []
    else
      var c := children[|children| - 1];
      IdsFrom(children[..|children| - 1], index) + if c.startIndex >= index then [c.id] else []
  }

  // ----- the engine's steps -----

  function Dead(c: Child): Child {
    if c.handle.Some? then c.(handle := Some(c.handle.value.(alive := false))) else c
  }

  function MarkDead(children: seq<Child>, actor: ActorId): (r: seq<Child>)
    ensures |r| == |children|
  {
    var found := FirstRunning(children, actor, 0);
    if found.Some? then children[found.value := Dead(children[found.value])] else children
  }

  function OnChildExit(l: Logic, actor: ActorId, reason: ExitReason, now: nat): (Logic, Action)
  {
    if l.suppress then (l, Ignore)
    else
      var found := FirstRunning(l.children, actor, 0);
      if found.None? then (l, Ignore)
      else
        var c := l.children[found.value];
        var noted := l.(children := MarkDead(l.children, actor));
        if !ShouldRestart(c.restart, reason) then
          (noted.(attempts := l.attempts - {c.id}), Ignore)
        else if CountRecent(l.accepted, now, l.within) >= l.maxRestarts then
          (noted, Meltdown)
        else
          var counted := noted.(accepted := l.accepted + [now]);
          match l.strategy
          case OneForOne => (counted, RestartOne(c.id))
          case OneForAll =>
            (counted.(suppress := true, pending := Some(All)), TerminateBatch(Ids(counted.children)))
          case RestForOne =>
            (counted.(suppress := true, pending := Some(FromIndex(c.startIndex))),
             TerminateBatch(IdsFrom(counted.children, c.startIndex)))
  }

  // ----- when a child is restarted -----

  /** What its restart type makes of an exit: written out, without the policy function. */
  predicate Wants(restart: RestartType, reason: ExitReason) {
    (restart == Permanent && reason != Shutdown) || (restart == Transient && (reason.Panic? || reason.Kill?))
  }

  /** Fewer than the allowed number of accepted restarts lie within the window. */
  predicate Room(accepted: seq<nat>, now: nat, within: nat, maxRestarts: nat) {
    |InWindow(accepted, now, within)| < maxRestarts
  }

  /**
   The engine's answer to the exit of an actor that runs for child `i`: a restart exactly if
   the child's own type wants one and there is room, a meltdown exactly if it wants one and
   there is none, and otherwise nothing, with the child's backoff counter reset.
   */
  lemma EngineExactly(l: Logic, actor: ActorId, reason: ExitReason, now: nat, i: nat)
    requires !l.suppress && FirstRunning(l.children, actor, 0) == Some(i)
    ensures var (l', action) := OnChildExit(l, actor, reason, now);
            var c := l.children[i];
            var room := Room(l.accepted, now, l.within, l.maxRestarts);
            && (action.RestartOne? || action.TerminateBatch? <==> Wants(c.restart, reason) && room)
            && (action.Meltdown? <==> Wants(c.restart, reason) && !room)
            && (action.Ignore? <==> !Wants(c.restart, reason))
            && (action.RestartOne? ==> l.strategy.OneForOne? && action.id == c.id)
            && l'.children == l.children[i := Dead(c)]
            && l'.accepted == (if Wants(c.restart, reason) && room then l.accepted + [now] else l.accepted)
            && l'.attempts == (if Wants(c.restart, reason) then l.attempts else l.attempts - {c.id})
  {
    CountIsWindow(l.accepted, now, l.within);
  }

  /** All positions from `from` on are dead; there is no such position range beyond the end. */
  predicate DeadFrom(children: seq<Child>, from: nat) {
    from <= |children| && forall i :: from <= i < |children| ==> !IsAlive(children[i])
  }

  predicate PendingComplete(l: Logic) {
    match l.pending
    case None => false
    case Some(All) => DeadFrom(l.children, 0)
    case Some(FromIndex(index)) => DeadFrom(l.children, index)
  }

  function TakePending(l: Logic): (Logic, Option<seq<string>>)
  {
    match l.pending
    case None => (l, None)
    case Some(batch) =>
      (l.(pending := None, suppress := false),
       Some(match batch case All => Ids(l.children) case FromIndex(index) => IdsFrom(l.children, index)))
  }

  function ReplaceHandle(children: seq<Child>, id: string, slot: Slot): (r: seq<Child>)
    ensures |r| == |children|
  {
    var found := FirstNamed(children, id, 0);
    if found.Some? then children[found.value := children[found.value].(handle := Some(slot))] else children
  }

  function RemoveById(children: seq<Child>, id: string): seq<Child> {
    var found := FirstNamed(children, id, 0);
    if found.Some? then children[..found.value] + children[found.value + 1..] else children
  }

  // ----- start indices against positions -----

  /** Start indices grow with the position and are never below it: what removals preserve. */
  ghost predicate Ordered(children: seq<Child>) {
    && (forall i, j :: 0 <= i < j < |children| ==> children[i].startIndex < children[j].startIndex)
    && (forall i :: 0 <= i < |children| ==> i <= children[i].startIndex)
  }

  ghost predicate Positional(children: seq<Child>) {
    forall i :: 0 <= i < |children| ==> children[i].startIndex == i
  }

  function Shifted(at: nat, i: nat): nat {
    if i < at then i else i + 1
  }

  lemma WithoutOneOrdered(children: seq<Child>, at: nat, rest: seq<Child>)
    requires Ordered(children) && at < |children| && |rest| == |children| - 1
    requires forall i: nat :: i < |rest| ==> rest[i] == children[Shifted(at, i)]
    ensures Ordered(rest)
  {
    forall i: nat | i < |rest| ensures i <= rest[i].startIndex {
      assert rest[i] == children[Shifted(at, i)];
    }
    forall i: nat, j: nat | i < j < |rest| ensures rest[i].startIndex < rest[j].startIndex {
      assert rest[i] == children[Shifted(at, i)] && rest[j] == children[Shifted(at, j)];
    }
  }

  lemma RemovalKeepsOrder(children: seq<Child>, id: string)
    requires Ordered(children)
    ensures Ordered(RemoveById(children, id))
  {
    var found := FirstNamed(children, id, 0);
    if found.Some? {
      WithoutOneOrdered(children, found.value, RemoveById(children, id));
    }
  }

  /**
   The completion check goes by position while the batch was chosen by start index. Once
   every child chosen by start index is dead, the check succeeds if and only if the failed
   child's start index is not beyond the number of children still registered.
   */
  lemma CompletionCheck(children: seq<Child>, index: nat)
    requires Ordered(children)
    requires forall i :: 0 <= i < |children| && children[i].startIndex >= index ==> !IsAlive(children[i])
    ensures DeadFrom(children, index) <==> index <= |children|
  {
  }

  /** With start index equal to position the check and the choice agree for every child's index. */
  lemma CheckAgreesWhenPositional(children: seq<Child>, index: nat)
    requires Positional(children) && index < |children|
    ensures DeadFrom(children, index) <==>
            forall i :: 0 <= i < |children| && children[i].startIndex >= index ==> !IsAlive(children[i])
  {
  }

  /** While restarts are suppressed an exit is only noted (supervisor.rs:318-321). */
  function NoteExit(l: Logic, actor: ActorId): Logic {
    l.(children := MarkDead(l.children, actor))
  }

  function NoteExits(l: Logic, exits: seq<ActorId>): Logic {
    if exits == [] then l else NoteExit(NoteExits(l, exits[..|exits| - 1]), exits[|exits| - 1])
  }

  /**
   When the index is beyond the registered children the batch never completes: whatever
   exits arrive later, restarts stay suppressed and nothing is ever restarted again.
   */
  lemma {:induction false} BatchSticks(l: Logic, exits: seq<ActorId>)
    requires l.suppress && l.pending.Some? && l.pending.value.FromIndex? && l.pending.value.index > |l.children|
    ensures NoteExits(l, exits).suppress && NoteExits(l, exits).pending == l.pending
    ensures |NoteExits(l, exits).children| == |l.children|
    ensures !PendingComplete(NoteExits(l, exits))
  {
    if exits != [] {
      BatchSticks(l, exits[..|exits| - 1]);
    }
  }

  /** It takes three children, two of which were removed again, and a failure of the third. */
  lemma StuckAfterRemovals() returns (l: Logic, l': Logic, a: Action)
    ensures l.strategy.RestForOne? && Ordered(l.children) && !l.suppress
    ensures (l', a) == OnChildExit(l, 7, Kill, 0)
    ensures a.TerminateBatch? && l'.suppress
    ensures forall i :: 0 <= i < |l'.children| ==> !IsAlive(l'.children[i])
    ensures !PendingComplete(l')
  {
    var c := Child("c", Permanent, 2, Some(Slot(7, true)));
    var started := [Child("a", Permanent, 0, Some(Slot(5, true))), Child("b", Permanent, 1, Some(Slot(6, true))), c];
    assert FirstNamed(started, "a", 0) == Some(0);
    var one := RemoveById(started, "a");
    assert one == started[1..];
    assert FirstNamed(one, "b", 0) == Some(0);
    assert RemoveById(one, "b") == [c];
    l := Logic(RestForOne, 3, 5, [], RemoveById(one, "b"), false, None, map[]);
    assert FirstRunning(l.children, 7, 0) == Some(0);
    var r := OnChildExit(l, 7, Kill, 0);
    l', a := r.0, r.1;
  }

  // ----- a static supervisor, one message at a time -----

  datatype Spec = Spec(id: string, restart: RestartType, backoff: RestartBackoff)

  /** What a static supervisor is between two messages; `next` is the next unused actor id. */
  datatype Sup = Sup(
    strategy: Strategy, maxRestarts: nat, within: nat, accepted: seq<nat>, specs: seq<Spec>,
    children: seq<Child>, attempts: map<string, Count>, next: ActorId, stopped: bool)

  /** The children from `from` up to `upTo` get fresh actors, in order; the others are untouched. */
  function Refreshed(children: seq<Child>, from: nat, upTo: nat, next: ActorId): (r: seq<Child>)
    ensures |r| == |children|
    ensures forall i :: 0 <= i < |r| ==> r[i] == RefreshedChild(children[i], i, from, upTo, next)
  {
    seq(|children|, i requires 0 <= i < |children| => RefreshedChild(children[i], i, from, upTo, next))
  }

  function RefreshedChild(c: Child, i: nat, from: nat, upTo: nat, next: ActorId): Child {
    if from <= i < upTo then c.(handle := Some(Slot(next + (i - from), true))) else c
  }

  /** Backoff counters after restarting children `from` up to `to`. */
  function Bumped(attempts: map<string, Count>, specs: seq<Spec>, from: nat, upTo: nat): map<string, Count>
    requires upTo <= |specs|
    decreases upTo
  {
    if upTo <= from then attempts
    else BackoffDelay(Bumped(attempts, specs, from, upTo - 1), specs[upTo - 1].id, specs[upTo - 1].backoff).0
  }

  /** The first and one-past-last position that a failure of child `i` restarts. */
  function RestartRange(strategy: Strategy, i: nat, n: nat): (nat, nat) {
    match strategy
    case OneForOne => (i, i + 1)
    case OneForAll => (0, n)
    case RestForOne => (i, n)
  }

  datatype Message = Message(actor: ActorId, reason: ExitReason, now: nat)

  /** What a supervisor makes of an exit: nothing, note it, give up, or restart a range of children. */
  datatype Outcome = Ignored | Noted(at: nat) | GaveUp(at: nat) | Restarted(from: nat, upTo: nat)

  function Decide(s: Sup, m: Message): (o: Outcome)
    ensures o.Noted? || o.GaveUp? ==> o.at < |s.children|
    ensures o.Restarted? ==> o.from < o.upTo <= |s.children|
  {
    var found := FirstRunning(s.children, m.actor, 0);
    if found.None? then Ignored
    else if !ShouldRestart(s.children[found.value].restart, m.reason) then Noted(found.value)
    else if CountRecent(s.accepted, m.now, s.within) >= s.maxRestarts then GaveUp(found.value)
    else
      var (from, upTo) := RestartRange(s.strategy, found.value, |s.children|);
      Restarted(from, upTo)
  }

  function Apply(s: Sup, o: Outcome, now: nat): (s': Sup)
    requires |s.specs| == |s.children|
    requires o.Noted? || o.GaveUp? ==> o.at < |s.children|
    requires o.Restarted? ==> o.from < o.upTo <= |s.children|
    ensures |s'.children| == |s.children|
  {
    match o
    case Ignored => s
    case Noted(i) =>
      s.(children := s.children[i := Dead(s.children[i])], attempts := s.attempts - {s.children[i].id})
    case GaveUp(i) => s.(children := s.children[i := Dead(s.children[i])], stopped := true)
    case Restarted(from, upTo) =>
      s.(accepted := s.accepted + [now],
         children := Refreshed(s.children, from, upTo, s.next),
         attempts := Bumped(s.attempts, s.specs, from, upTo),
         next := s.next + (upTo - from))
  }

  /** Everything one exit message does to a supervisor whose restarts are not suppressed. */
  function AfterExit(s: Sup, m: Message): Sup
    requires |s.specs| == |s.children|
  {
    Apply(s, Decide(s, m), m.now)
  }

  /** A child registered from its spec, standing at its start index, with an actor handed out earlier. */
  ghost predicate ChildOk(c: Child, spec: Spec, i: nat, next: ActorId) {
    && c.id == spec.id && c.restart == spec.restart && c.startIndex == i
    && c.handle.Some? && c.handle.value.actor < next
  }

  ghost predicate Apart(c: Child, d: Child) {
    c.id != d.id && (c.handle.Some? && d.handle.Some? ==> c.handle.value.actor != d.handle.value.actor)
  }

  ghost predicate Valid(s: Sup) {
    && |s.specs| == |s.children|
    && (forall i: nat :: i < |s.children| ==> ChildOk(s.children[i], s.specs[i], i, s.next))
    && (forall i, j :: 0 <= i < j < |s.children| ==> Apart(s.children[i], s.children[j]))
  }

  /** One exit changes only handles: a child keeps its actor or gets the one reserved for its position. */
  lemma AfterExitChild(s: Sup, m: Message, i: nat)
    requires Valid(s) && i < |s.children|
    ensures var s' := AfterExit(s, m);
            && |s'.children| == |s.children| && s'.specs == s.specs && s.next <= s'.next
            && ChildOk(s'.children[i], s'.specs[i], i, s'.next)
            && (s'.children[i].handle.value.actor < s.next ==>
                  s'.children[i].handle.value.actor == s.children[i].handle.value.actor
                  && (s'.children[i].handle.value.alive ==> s'.children[i] == s.children[i]))
  {
    assert ChildOk(s.children[i], s.specs[i], i, s.next);
  }

  lemma ApplyApart(s: Sup, o: Outcome, now: nat, i: nat, j: nat)
    requires |s.specs| == |s.children| && i < j < |s.children|
    requires o.Noted? || o.GaveUp? ==> o.at < |s.children|
    requires o.Restarted? ==> o.from < o.upTo <= |s.children|
    requires Apart(s.children[i], s.children[j])
    requires ChildOk(s.children[i], s.specs[i], i, s.next) && ChildOk(s.children[j], s.specs[j], j, s.next)
    ensures var s' := Apply(s, o, now);
            |s'.children| == |s.children| && Apart(s'.children[i], s'.children[j])
  {
  }

  lemma AfterExitValid(s: Sup, m: Message)
    requires Valid(s)
    ensures Valid(AfterExit(s, m))
  {
    var s' := AfterExit(s, m);
    forall i: nat | i < |s'.children| ensures ChildOk(s'.children[i], s'.specs[i], i, s'.next) {
      AfterExitChild(s, m, i);
    }
    forall i, j | 0 <= i < j < |s'.children| ensures Apart(s'.children[i], s'.children[j]) {
      ApplyApart(s, Decide(s, m), m.now, i, j);
    }
  }

  /** Message `k` takes state `k` of a run to state `k + 1`. */
  ghost predicate Handles(states: seq<Sup>, messages: seq<Message>, k: nat)
    requires k < |messages| && |states| == |messages| + 1
  {
    |states[k].specs| == |states[k].children| && states[k + 1] == AfterExit(states[k], messages[k])
  }

  /** The states a supervisor goes through while it handles these messages. */
  ghost predicate Run(states: seq<Sup>, messages: seq<Message>) {
    && |states| == |messages| + 1 && Valid(states[0])
    && forall k: nat :: k < |messages| ==> Handles(states, messages, k)
  }

  lemma {:induction false} RunValid(states: seq<Sup>, messages: seq<Message>, k: nat)
    requires Run(states, messages) && k < |states|
    ensures Valid(states[k])
  {
    if k > 0 {
      RunValid(states, messages, k - 1);
      assert Handles(states, messages, k - 1);
      AfterExitValid(states[k - 1], messages[k - 1]);
    }
  }

  /** The exit of `actor` is not ignored in this state. */
  predicate ActsOn(s: Sup, actor: ActorId) {
    exists i :: 0 <= i < |s.children| && Runs(s.children[i], actor)
  }

  /** An actor that has been handed out and runs for no child any more. */
  predicate Retired(s: Sup, actor: ActorId) {
    actor < s.next && !ActsOn(s, actor)
  }

  lemma ExitRetires(s: Sup, m: Message)
    requires Valid(s) && ActsOn(s, m.actor)
    ensures Retired(AfterExit(s, m), m.actor)
  {
    var s' := AfterExit(s, m);
    var at :| 0 <= at < |s.children| && Runs(s.children[at], m.actor);
    assert ChildOk(s.children[at], s.specs[at], at, s.next);
    forall i | 0 <= i < |s'.children| ensures !Runs(s'.children[i], m.actor) {
      AfterExitChild(s, m, i);
      if i < at {
        assert Apart(s.children[i], s.children[at]);
      } else if at < i {
        assert Apart(s.children[at], s.children[i]);
      } else {
        FoundHere(s, m, at);
      }
    }
    AfterExitChild(s, m, at);
  }

  /** The child the exit is about is left dead or with a fresh actor. */
  lemma FoundHere(s: Sup, m: Message, at: nat)
    requires Valid(s) && at < |s.children| && Runs(s.children[at], m.actor)
    ensures var s' := AfterExit(s, m);
            |s'.children| == |s.children| && !Runs(s'.children[at], m.actor)
  {
    var found := FirstRunning(s.children, m.actor, 0);
    assert found.value < at ==> Apart(s.children[found.value], s.children[at]);
    assert ChildOk(s.children[at], s.specs[at], at, s.next);
  }

  lemma RetiredStays(s: Sup, m: Message, actor: ActorId)
    requires Valid(s) && Retired(s, actor)
    ensures Retired(AfterExit(s, m), actor)
  {
    var s' := AfterExit(s, m);
    forall i | 0 <= i < |s'.children| ensures !Runs(s'.children[i], actor) {
      AfterExitChild(s, m, i);
      assert !Runs(s.children[i], actor);
    }
    if |s.children| > 0 {
      AfterExitChild(s, m, 0);
    }
  }

  /** Messages from retired actors change nothing at all. */
  lemma LateExitIgnored(s: Sup, m: Message)
    requires Valid(s) && !ActsOn(s, m.actor)
    ensures AfterExit(s, m) == s
  {
    assert FirstRunning(s.children, m.actor, 0).None?;
  }

  lemma {:induction false} RetiredForever(states: seq<Sup>, messages: seq<Message>, actor: ActorId, j: nat, k: nat)
    requires Run(states, messages) && j <= k < |states| && Retired(states[j], actor)
    ensures Retired(states[k], actor)
    decreases k - j
  {
    if j < k {
      RunValid(states, messages, j);
      assert Handles(states, messages, j);
      RetiredStays(states[j], messages[j], actor);
      RetiredForever(states, messages, actor, j + 1, k);
    }
  }

  /**
   Over any run the exit of one incarnation is acted on at most once: if message `j` is acted
   on, every later message about the same actor leaves the whole supervisor as it is.
   */
  lemma ActedOnAtMostOnce(states: seq<Sup>, messages: seq<Message>, j: nat, k: nat)
    requires Run(states, messages) && j < k < |messages| && messages[j].actor == messages[k].actor
    requires ActsOn(states[j], messages[j].actor)
    ensures states[k + 1] == states[k]
  {
    RunValid(states, messages, j);
    assert Handles(states, messages, j);
    ExitRetires(states[j], messages[j]);
    RetiredForever(states, messages, messages[j].actor, j + 1, k);
    RunValid(states, messages, k);
    assert Handles(states, messages, k);
    LateExitIgnored(states[k], messages[k]);
  }

  /**
   Several crashes absorbed by one batch cost one restart: every actor replaced by a batch
   is retired by it, so its own exit, arriving later, is ignored and not counted.
   */
  lemma BatchAbsorbs(s: Sup, m: Message, i: nat)
    requires Valid(s) && i < |s.children| && s.children[i].handle.Some?
    requires AfterExit(s, m).children[i].handle != s.children[i].handle
    ensures Retired(AfterExit(s, m), s.children[i].handle.value.actor)
    ensures |AfterExit(s, m).accepted| <= |s.accepted| + 1
  {
    var s' := AfterExit(s, m);
    var was := s.children[i].handle.value.actor;
    assert ChildOk(s.children[i], s.specs[i], i, s.next);
    AfterExitChild(s, m, i);
    forall k | 0 <= k < |s'.children| ensures !Runs(s'.children[k], was) {
      AfterExitChild(s, m, k);
      if k < i {
        assert Apart(s.children[k], s.children[i]);
      } else if i < k {
        assert Apart(s.children[i], s.children[k]);
      }
    }
  }

  /**
   A restart is exact: under OneForAll every child, under RestForOne the failed child and
   those started after it, under OneForOne the failed child alone gets an actor never used
   before, no two the same; every other child is as it was, and one restart is counted.
   */
  lemma RestartIsExact(s: Sup, m: Message, i: nat)
    requires Valid(s) && Decide(s, m).Restarted? && i < |s.children|
    ensures var s' := AfterExit(s, m);
            var failed := FirstRunning(s.children, m.actor, 0).value;
            var hit := match s.strategy
                       case OneForOne => i == failed
                       case OneForAll => true
                       case RestForOne => s.children[i].startIndex >= s.children[failed].startIndex;
            && |s'.children| == |s.children| && s'.accepted == s.accepted + [m.now] && Valid(s')
            && (!hit ==> s'.children[i] == s.children[i])
            && (hit ==> IsAlive(s'.children[i]) && s.next <= s'.children[i].handle.value.actor < s'.next
                        && s'.children[i].id == s.children[i].id)
  {
    AfterExitValid(s, m);
    var failed := FirstRunning(s.children, m.actor, 0).value;
    assert ChildOk(s.children[i], s.specs[i], i, s.next);
    assert ChildOk(s.children[failed], s.specs[failed], failed, s.next);
  }

  /** The child an actor runs for is the only one. */
  lemma RunsForOne(s: Sup, actor: ActorId, i: nat)
    requires Valid(s) && i < |s.children| && Runs(s.children[i], actor)
    ensures FirstRunning(s.children, actor, 0) == Some(i)
  {
    var found := FirstRunning(s.children, actor, 0);
    assert found.Some? && found.value <= i;
    assert found.value < i ==> Apart(s.children[found.value], s.children[i]);
  }

  /**
   What a static supervisor makes of the exit of the actor that runs for child `i`: it
   restarts exactly if the child's own type wants it and there is room; it gives up, and
   stops, exactly if it wants it and there is none; and it only notes the exit otherwise.
   */
  lemma DecideExactly(s: Sup, m: Message, i: nat)
    requires Valid(s) && i < |s.children| && Runs(s.children[i], m.actor)
    ensures var wants := Wants(s.children[i].restart, m.reason);
            var room := Room(s.accepted, m.now, s.within, s.maxRestarts);
            var s' := AfterExit(s, m);
            && (Decide(s, m).Restarted? <==> wants && room)
            && (Decide(s, m) == GaveUp(i) <==> wants && !room)
            && (Decide(s, m) == Noted(i) <==> !wants)
            && s'.stopped == (s.stopped || (wants && !room))
            && s'.accepted == (if wants && room then s.accepted + [m.now] else s.accepted)
            && (!(wants && room) ==> s'.children == s.children[i := Dead(s.children[i])])
  {
    RunsForOne(s, m.actor, i);
    CountIsWindow(s.accepted, m.now, s.within);
  }

  /** One restart of a child more, saturating. */
  function OneMoreAttempt(attempts: map<string, Count>, id: string): nat {
    var before: nat := if id in attempts then attempts[id] else 0;
    Min(before + 1, MAX_U32)
  }

  /** Restarting a range counts one attempt for each of its children with a backoff, and for no other name. */
  lemma {:induction false} BumpedCounts(
      attempts: map<string, Count>, specs: seq<Spec>, from: nat, upTo: nat, id: string)
    requires upTo <= |specs| && forall i, j :: 0 <= i < j < |specs| ==> specs[i].id != specs[j].id
    ensures var after := Bumped(attempts, specs, from, upTo);
            && ((forall i :: from <= i < upTo ==> specs[i].id != id || specs[i].backoff.NoBackoff?) ==>
                  (id in after <==> id in attempts) && (id in after ==> after[id] == attempts[id]))
            && (forall i :: from <= i < upTo && specs[i].id == id && !specs[i].backoff.NoBackoff? ==>
                  id in after && after[id] == OneMoreAttempt(attempts, id))
    decreases upTo
  {
    if from < upTo {
      BumpedCounts(attempts, specs, from, upTo - 1, id);
    }
  }

  /** The attempts a restart counts: one for each restarted child that has a backoff. */
  lemma RestartCounts(s: Sup, m: Message, i: nat)
    requires Valid(s) && Decide(s, m).Restarted? && i < |s.children|
    ensures var o := Decide(s, m);
            var id := s.specs[i].id;
            var after := AfterExit(s, m).attempts;
            if o.from <= i < o.upTo && !s.specs[i].backoff.NoBackoff?
            then id in after && after[id] == OneMoreAttempt(s.attempts, id)
            else (id in after <==> id in s.attempts) && (id in after ==> after[id] == s.attempts[id])
  {
    forall j, k | 0 <= j < k < |s.specs| ensures s.specs[j].id != s.specs[k].id {
      assert ChildOk(s.children[j], s.specs[j], j, s.next) && ChildOk(s.children[k], s.specs[k], k, s.next);
      assert Apart(s.children[j], s.children[k]);
    }
    BumpedCounts(s.attempts, s.specs, Decide(s, m).from, Decide(s, m).upTo, s.specs[i].id);
    forall j | 0 <= j < |s.specs| && j != i ensures s.specs[j].id != s.specs[i].id {}
  }

  /**
   After an exit that does not lead to a restart, the child's delays begin at the base
   again: its k-th delay from then on is the base doubled k-1 times, capped.
   */
  lemma QuietExitResetsBackoff(s: Sup, m: Message, base: Duration, max: Duration, k: nat)
    requires Valid(s) && Decide(s, m).Noted? && k >= 1
    ensures var id := s.children[Decide(s, m).at].id;
            NthDelay(AfterExit(s, m).attempts, id, Exponential(base, max), k) ==
            Min(TimesPow2(base, Min(k - 1, 20)), max)
  {
    KthDelay(AfterExit(s, m).attempts, s.children[Decide(s, m).at].id, base, max, k);
  }

  /**
   The restart types form a chain: what restarts a transient child restarts a permanent one,
   the two differ exactly on `Normal`, a temporary child is never restarted, and nobody is
   restarted after an ordered shutdown.
   */
  lemma RestartTypesFormAChain(reason: ExitReason)
    ensures !ShouldRestart(Temporary, reason)
    ensures ShouldRestart(Transient, reason) ==> ShouldRestart(Permanent, reason)
    ensures ShouldRestart(Permanent, reason) != ShouldRestart(Transient, reason) <==> reason.Normal?
    ensures ShouldRestart(Permanent, reason) <==> reason != Shutdown
  {
  }
}
