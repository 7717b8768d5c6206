/**
 The static supervisor with local children (concurrency/src/tasks/supervisor.rs). One
 exit message runs to completion: the engine's decision, the termination of a batch, the
 completion check and the restarts. Together they are the single step
 `SupervisorSpec.AfterExit`: a batch restarts exactly the children it terminated, leaves
 all others untouched, and never stays pending.
 */
module StaticSupervisor {
  import opened Reasons
  import opened Backoff
  import opened SupervisorSpec
  import opened SupervisorEngine
  import S = SupervisorSpec

  /** Children `from` up to `upTo` marked dead. */
  function Deadened(children: seq<Child>, from: nat, upTo: nat): (r: seq<Child>)
    ensures |r| == |children|
    ensures forall i :: 0 <= i < |r| ==> r[i] == if from <= i < upTo then Dead(children[i]) else children[i]
  {
    seq(|children|, i requires 0 <= i < |children| => if from <= i < upTo then Dead(children[i]) else children[i])
  }

  /** Choosing by start index is choosing by position. */
  lemma {:induction false} IdsFromPosition(children: seq<Child>, index: nat)
    requires Positional(children) && index <= |children|
    ensures IdsFrom(children, index) == Ids(children)[index..]
  {
    if children != [] {
      var prefix := children[..|children| - 1];
      if index == |children| {
        NoIdsBeyond(prefix, index);
      } else {
        IdsFromPosition(prefix, index);
        assert Ids(children)[index..] == Ids(prefix)[index..] + [children[|children| - 1].id];
      }
    }
  }

  lemma {:induction false} NoIdsBeyond(children: seq<Child>, index: nat)
    requires Positional(children) && |children| <= index
    ensures IdsFrom(children, index) == []
  {
    if children != [] {
      NoIdsBeyond(children[..|children| - 1], index);
    }
  }

  /** Marking the actor of child `i` dead reaches child `i` and no other. */
  lemma MarkDeadAt(s: Sup, children: seq<Child>, from: nat, i: nat)
    requires S.Valid(s) && from <= i < |s.children| && children == Deadened(s.children, from, i)
    requires ChildOk(s.children[i], s.specs[i], i, s.next)
    ensures MarkDead(children, s.children[i].handle.value.actor) == Deadened(s.children, from, i + 1)
  {
    var actor := s.children[i].handle.value.actor;
    forall k | 0 <= k < |children| && k != i ensures !Runs(children[k], actor) {
      assert ChildOk(s.children[k], s.specs[k], k, s.next);
      assert if k < i then Apart(s.children[k], s.children[i]) else Apart(s.children[i], s.children[k]);
    }
    var found := FirstRunning(children, actor, 0);
    assert children[i] == s.children[i];
    if s.children[i].handle.value.alive {
      assert Runs(children[i], actor);
      assert found == Some(i);
    } else {
      assert Dead(s.children[i]) == s.children[i];
    }
    assert MarkDead(children, actor) == Deadened(s.children, from, i + 1);
  }

  /** Replacing the handle of child `i` by its name reaches child `i`. */
  lemma ReplaceAt(s: Sup, children: seq<Child>, from: nat, upTo: nat, i: nat)
    requires S.Valid(s) && from <= i < upTo <= |s.children|
    requires |children| == |s.children|
    requires children == Restarting(s, from, upTo, i)
    ensures ReplaceHandle(children, s.specs[i].id, Slot(s.next + (i - from), true)) == Restarting(s, from, upTo, i + 1)
  {
    assert ChildOk(s.children[i], s.specs[i], i, s.next);
    assert children[i].id == s.specs[i].id;
    forall k | 0 <= k < i ensures children[k].id != s.specs[i].id {
      assert Apart(s.children[k], s.children[i]);
    }
    assert FirstNamed(children, s.specs[i].id, 0) == Some(i);
    assert ReplaceHandle(children, s.specs[i].id, Slot(s.next + (i - from), true)) == Restarting(s, from, upTo, i + 1);
  }

  /** The children while a range is being restarted: done up to `i`, dead from there on. */
  function Restarting(s: Sup, from: nat, upTo: nat, i: nat): seq<Child> {
    Refreshed(Deadened(s.children, from, upTo), from, i, s.next)
  }

  ghost predicate DistinctSpecs(specs: seq<Spec>) {
    forall i, j :: 0 <= i < j < |specs| ==> specs[i].id != specs[j].id
  }

  /** The handle map after the first `n` specs were started; a repeated id keeps its last actor. */
  function StartedHandles(specs: seq<Spec>, firstActor: ActorId, n: nat): map<string, ActorId>
    requires n <= |specs|
  {
    if n == 0 then map[] else StartedHandles(specs, firstActor, n - 1)[specs[n - 1].id := firstActor + n - 1]
  }

  /** The first `n` specs are registered in order, each with the next actor. */
  ghost predicate StartedFrom(children: seq<Child>, specs: seq<Spec>, firstActor: ActorId, n: nat) {
    && n <= |specs| && |children| == n
    && forall k :: 0 <= k < n ==>
         children[k] == Child(specs[k].id, specs[k].restart, k, Some(Slot(firstActor + k, true)))
  }

  lemma StartedValid(s: Sup, firstActor: ActorId)
    requires StartedFrom(s.children, s.specs, firstActor, |s.specs|) && s.next == firstActor + |s.specs|
    ensures DistinctSpecs(s.specs) ==> S.Valid(s)
  {
    if DistinctSpecs(s.specs) {
      forall i: nat | i < |s.children| ensures ChildOk(s.children[i], s.specs[i], i, s.next) {}
      forall i, j | 0 <= i < j < |s.children| ensures Apart(s.children[i], s.children[j]) {}
    }
  }

  lemma {:induction false} StartedAgree(specs: seq<Spec>, firstActor: ActorId, n: nat)
    requires n <= |specs|
    ensures forall i :: 0 <= i < n ==> specs[i].id in StartedHandles(specs, firstActor, n)
    ensures DistinctSpecs(specs) ==>
              forall i :: 0 <= i < n ==> StartedHandles(specs, firstActor, n)[specs[i].id] == firstActor + i
  {
    if n > 0 {
      StartedAgree(specs, firstActor, n - 1);
    }
  }

  class Supervisor {
    const specs: seq<Spec>
    const logic: SupervisorLogic
    var handles: map<string, ActorId>
    var nextActor: ActorId
    var stopped: bool

    /** The handle map knows every child's current actor. */
    ghost predicate HandlesAgree(children: seq<Child>)
      reads this`handles
    {
      && |children| == |specs|
      && forall i :: 0 <= i < |specs| ==>
           specs[i].id in handles && children[i].handle.Some? && handles[specs[i].id] == children[i].handle.value.actor
    }

    ghost predicate Valid()
      reads this, logic, logic.intensity
    {
      logic.Valid() && S.Valid(View()) && HandlesAgree(logic.children) && logic.pending.None?
    }

    ghost function View(): Sup
      reads this, logic, logic.intensity
    {
      Sup(logic.strategy, logic.intensity.maxRestarts, logic.intensity.within, logic.intensity.accepted,
          specs, logic.children, logic.attempts, nextActor, stopped)
    }

    /**
     `started`: every spec is started in order and registered at its position. The handle map
     knows every child's actor, and the supervisor is valid, if and only if the ids are distinct.
     */
    constructor (strategy: Strategy, maxRestarts: nat, within: nat, specs: seq<Spec>, firstActor: ActorId)
      ensures Valid() <==> DistinctSpecs(specs)
      ensures fresh(logic) && fresh(logic.intensity) && !logic.suppress && !stopped
      ensures this.specs == specs && logic.intensity.clock == 0
      ensures StartedFrom(logic.children, specs, firstActor, |specs|)
      ensures handles == StartedHandles(specs, firstActor, |specs|)
    {
      this.specs := specs;
      logic := new SupervisorLogic(strategy, maxRestarts, within);
      handles, nextActor, stopped := map[], firstActor, false;
      new;
      StartAll();
      StartedValid(View(), firstActor);
      StartedAgree(specs, firstActor, |specs|);
    }

    method StartAll()
      requires logic.children == [] && handles == map[]
      modifies this`handles, this`nextActor, logic`children
      ensures StartedFrom(logic.children, specs, old(nextActor), |specs|)
      ensures nextActor == old(nextActor) + |specs| && handles == StartedHandles(specs, old(nextActor), |specs|)
    {
      ghost var firstActor := nextActor;
      var i := 0;
      while i < |specs|
        invariant 0 <= i <= |specs| && nextActor == firstActor + i
        invariant StartedFrom(logic.children, specs, firstActor, i)
        invariant handles == StartedHandles(specs, firstActor, i)
      {
        logic.RegisterChild(specs[i].id, specs[i].restart, i, Slot(nextActor, true));
        handles := handles[specs[i].id := nextActor];
        nextActor := nextActor + 1;
        i := i + 1;
      }
    }

    method FindSpec(id: string) returns (found: Option<nat>)
      ensures found.Some? ==> found.value < |specs| && specs[found.value].id == id
      ensures forall k :: 0 <= k < (if found.Some? then found.value else |specs|) ==> specs[k].id != id
    {
      var i := 0;
      while i < |specs|
        invariant 0 <= i <= |specs|
        invariant forall k :: 0 <= k < i ==> specs[k].id != id
      {
        if specs[i].id == id {
          return Some(i);
        }
        i := i + 1;
      }
      return None;
    }

    /** Shut down and mark dead, one id after the other; the ids are those of the children from `from` on. */
    method TerminateChildren(ids: seq<string>, ghost s: Sup, ghost from: nat)
      requires S.Valid(s) && s.specs == specs && |s.children| == |specs| && HandlesAgree(s.children)
      requires from <= |specs| && ids == Ids(s.children)[from..]
      requires logic.children == Deadened(s.children, from, from)
      modifies logic`children
      ensures logic.children == Deadened(s.children, from, |specs|)
    {
      var k := 0;
      while k < |ids|
        invariant 0 <= k <= |ids|
        invariant logic.children == Deadened(s.children, from, from + k)
      {
        var id := ids[k];
        assert id == s.children[from + k].id && ChildOk(s.children[from + k], s.specs[from + k], from + k, s.next);
        if id in handles {
          MarkDeadAt(s, logic.children, from, from + k);
          logic.MarkChildDead(handles[id]);
        }
        k := k + 1;
      }
    }

    /** Count the attempt, start a fresh actor and put it in the child's place. */
    method RestartChildWithBackoff(id: string) returns (delay: Duration)
      requires exists i :: 0 <= i < |specs| && specs[i].id == id
      modifies this`handles, this`nextActor, logic`children, logic`attempts
      ensures nextActor == old(nextActor) + 1
      ensures handles == old(handles)[id := old(nextActor)]
      ensures logic.children == ReplaceHandle(old(logic.children), id, Slot(old(nextActor), true))
      ensures exists i :: 0 <= i < |specs| && specs[i].id == id
                          && (logic.attempts, delay) == BackoffDelay(old(logic.attempts), id, specs[i].backoff)
    {
      var found := FindSpec(id);
      delay := logic.BackoffDelay(id, specs[found.value].backoff);
      logic.ReplaceChildHandle(id, Slot(nextActor, true));
      handles := handles[id := nextActor];
      nextActor := nextActor + 1;
    }

    /** How far the restart of children `from` up to `upTo` has come. */
    ghost predicate Progress(s: Sup, from: nat, upTo: nat, i: nat)
      requires from <= i <= upTo <= |specs| && |s.children| == |s.specs|
      reads this, logic
    {
      && logic.children == Restarting(s, from, upTo, i)
      && logic.attempts == Bumped(s.attempts, specs, from, i)
      && nextActor == s.next + (i - from)
      && HandlesFor(s, from, i, handles)
    }

    method RestartNext(id: string, ghost s: Sup, ghost from: nat, ghost upTo: nat, ghost i: nat)
      requires S.Valid(s) && s.specs == specs && |s.children| == |specs|
      requires from <= i < upTo <= |specs| && id == specs[i].id && Progress(s, from, upTo, i)
      modifies this`handles, this`nextActor, logic`children, logic`attempts
      ensures Progress(s, from, upTo, i + 1)
    {
      OneName(s, i);
      ReplaceAt(s, logic.children, from, upTo, i);
      ghost var before := handles;
      var _ := RestartChildWithBackoff(id);
      HandlesNext(s, from, i, before);
    }

    method RestartEach(ids: seq<string>, ghost s: Sup, ghost from: nat, ghost upTo: nat)
      requires S.Valid(s) && s.specs == specs && |s.children| == |specs|
      requires from <= upTo <= |specs| && |ids| == upTo - from && Progress(s, from, upTo, from)
      requires forall k :: 0 <= k < |ids| ==> ids[k] == specs[from + k].id
      modifies this`handles, this`nextActor, logic`children, logic`attempts
      ensures Progress(s, from, upTo, upTo)
    {
      var k := 0;
      ghost var i := from;
      while k < |ids|
        invariant 0 <= k <= |ids| && i == from + k && Progress(s, from, upTo, i)
      {
        RestartNext(ids[k], s, from, upTo, i);
        k, i := k + 1, i + 1;
      }
    }

    /** Restart the children `from` up to `upTo`, all of which are dead. */
    method RestartRange(ids: seq<string>, ghost s: Sup, ghost from: nat, ghost upTo: nat)
      requires S.Valid(s) && s.specs == specs && |s.children| == |specs| && HandlesAgree(s.children)
      requires from <= upTo <= |specs| && ids == Ids(s.children)[from..upTo]
      requires s.next == nextActor && s.attempts == logic.attempts
      requires logic.children == Deadened(s.children, from, upTo)
      modifies this`handles, this`nextActor, logic`children, logic`attempts
      ensures logic.children == Refreshed(s.children, from, upTo, s.next)
      ensures logic.attempts == Bumped(s.attempts, specs, from, upTo)
      ensures nextActor == s.next + (upTo - from)
      ensures HandlesAgree(logic.children)
    {
      RestartingEnds(s, from, upTo);
      assert HandlesFor(s, from, from, handles);
      forall k | 0 <= k < |ids| ensures ids[k] == specs[from + k].id {
        assert ChildOk(s.children[from + k], s.specs[from + k], from + k, s.next);
      }
      RestartEach(ids, s, from, upTo);
      HandlesAfter(s, from, upTo, handles);
    }

    /** A single child is restarted; `s` is the supervisor before the exit was noted. */
    method RestartSingle(id: string, ghost s: Sup, ghost i: nat)
      requires S.Valid(s) && s.specs == specs && |s.children| == |specs| && HandlesAgree(s.children)
      requires i < |specs| && id == s.children[i].id
      requires s.next == nextActor && s.attempts == logic.attempts
      requires logic.children == s.children[i := Dead(s.children[i])]
      modifies this`handles, this`nextActor, logic`children, logic`attempts
      ensures logic.children == Refreshed(s.children, i, i + 1, s.next)
      ensures logic.attempts == Bumped(s.attempts, specs, i, i + 1)
      ensures nextActor == s.next + 1
      ensures HandlesAgree(logic.children)
    {
      assert logic.children == Deadened(s.children, i, i + 1);
      assert [id] == Ids(s.children)[i..i + 1];
      RestartRange([id], s, i, i + 1);
    }

    method TerminateBatchOf(ids: seq<string>, ghost s: Sup, ghost i: nat, ghost from: nat)
      requires S.Valid(s) && s.specs == specs && |s.children| == |specs| && HandlesAgree(s.children)
      requires from <= i < |specs| && ids == Ids(s.children)[from..]
      requires logic.children == s.children[i := Dead(s.children[i])]
      modifies logic`children
      ensures logic.children == Deadened(s.children, from, |specs|)
    {
      ghost var noted := s.(children := s.children[i := Dead(s.children[i])]);
      NotedValid(s, i);
      NotedRange(s, i, from);
      TerminateChildren(ids, noted, from);
    }

    method TakeCompleteBatch(ghost s: Sup, ghost from: nat) returns (again: seq<string>)
      requires S.Valid(s) && from <= |s.children| && logic.children == Deadened(s.children, from, |s.children|)
      requires logic.pending == Some(FromIndex(from)) || (from == 0 && logic.pending == Some(All))
      modifies logic`pending, logic`suppress
      ensures again == Ids(s.children)[from..] && !logic.suppress && logic.pending.None?
    {
      var complete := logic.PendingBatchRestartComplete();
      DeadenedIsDead(s, from);
      assert complete;
      PositionalIds(s, from, logic.children);
      var ids := logic.TakePendingRestartIds();
      again := ids.value;
    }

    /** Terminate a batch, check that it is complete, and restart it; the check never fails. */
    method RunBatch(ids: seq<string>, ghost s: Sup, ghost i: nat, ghost from: nat)
      requires S.Valid(s) && s.specs == specs && |s.children| == |specs| && HandlesAgree(s.children)
      requires from <= i < |specs| && ids == Ids(s.children)[from..]
      requires logic.children == s.children[i := Dead(s.children[i])]
      requires s.next == nextActor && s.attempts == logic.attempts && logic.suppress
      requires logic.pending == Some(FromIndex(from)) || (from == 0 && logic.pending == Some(All))
      modifies this`handles, this`nextActor, logic
      ensures logic.children == Refreshed(s.children, from, |specs|, s.next)
      ensures logic.attempts == Bumped(s.attempts, specs, from, |specs|)
      ensures nextActor == s.next + (|specs| - from)
      ensures HandlesAgree(logic.children) && !logic.suppress && logic.pending.None?
    {
      TerminateBatchOf(ids, s, i, from);
      var again := TakeCompleteBatch(s, from);
      RestartRange(again, s, from, |specs|);
    }

    /**
     One exit message. If restarts are suppressed (the supervisor is stopping) the exit is
     only noted; otherwise the supervisor makes exactly the step `AfterExit`, and ends it
     with no batch pending and restarts not suppressed.
     */
    method HandleExit(m: Message)
      requires Valid() && logic.intensity.clock <= m.now
      modifies this, logic, logic.intensity
      ensures Valid() && logic.intensity.clock <= m.now
      ensures logic.suppress == old(logic.suppress)
      ensures old(logic.suppress) ==> View() == old(View()).(children := MarkDead(old(logic.children), m.actor))
      ensures !old(logic.suppress) ==> View() == AfterExit(old(View()), m)
    {
      if logic.suppress {
        NoteExit(m.actor);
      } else {
        ActOnExit(m);
      }
    }

    /** The branch taken while restarts are suppressed. */
    method NoteExit(actor: ActorId)
      requires Valid()
      modifies logic`children
      ensures Valid() && View() == old(View()).(children := MarkDead(old(logic.children), actor))
    {
      ghost var s := View();
      NotedIfRunning(s, actor);
      logic.MarkChildDead(actor);
    }

    /** The branch taken otherwise. */
    method ActOnExit(m: Message)
      requires Valid() && logic.intensity.clock <= m.now && !logic.suppress
      modifies this, logic, logic.intensity
      ensures Valid() && logic.intensity.clock <= m.now && !logic.suppress
      ensures View() == AfterExit(old(View()), m)
    {
      ghost var s := View();
      var action := logic.OnChildExit(m.actor, m.reason, m.now);
      React(action, s, m);
      AfterExitValid(s, m);
    }

    method React(action: Action, ghost s: Sup, ghost m: Message)
      requires S.Valid(s) && s.specs == specs && HandlesAgree(s.children)
      requires logic.Valid() && s.next == nextActor && s.stopped == stopped
      requires (logic.State(), action) == S.OnChildExit(EngineOf(s), m.actor, m.reason, m.now)
      modifies this, logic
      ensures logic.Valid() && HandlesAgree(logic.children) && !logic.suppress && logic.pending.None?
      ensures View() == AfterExit(s, m)
    {
      match action
      case Ignore => Conclude(action, s, m);
      case Meltdown => Conclude(action, s, m);
      case RestartOne(_) => CarryOutSingle(action, s, m);
      case TerminateBatch(_) => CarryOutBatch(action, s, m);
    }

    /** Nothing to restart; after too many restarts the supervisor asks to be stopped. */
    method Conclude(action: Action, ghost s: Sup, ghost m: Message)
      requires S.Valid(s) && s.specs == specs && HandlesAgree(s.children)
      requires logic.Valid() && s.next == nextActor && s.stopped == stopped
      requires (logic.State(), action) == S.OnChildExit(EngineOf(s), m.actor, m.reason, m.now)
      requires action.Ignore? || action.Meltdown?
      modifies this`stopped
      ensures HandlesAgree(logic.children) && !logic.suppress && logic.pending.None?
      ensures View() == AfterExit(s, m)
    {
      if Decide(s, m).Restarted? {
        DecideRestart(s, m);
      } else {
        DecideNote(s, m);
        HandlesAfterNote(s, m, handles);
      }
      stopped := stopped || action.Meltdown?;
    }

    method CarryOutSingle(action: Action, ghost s: Sup, ghost m: Message)
      requires S.Valid(s) && s.specs == specs && HandlesAgree(s.children)
      requires logic.Valid() && s.next == nextActor && s.stopped == stopped
      requires (logic.State(), action) == S.OnChildExit(EngineOf(s), m.actor, m.reason, m.now)
      requires action.RestartOne?
      modifies this`handles, this`nextActor, logic
      ensures logic.Valid() && HandlesAgree(logic.children) && !logic.suppress && logic.pending.None?
      ensures View() == AfterExit(s, m)
    {
      OnlyRestartsRestart(s, m);
      DecideRestart(s, m);
      RestartSingle(action.id, s, Decide(s, m).from);
    }

    method CarryOutBatch(action: Action, ghost s: Sup, ghost m: Message)
      requires S.Valid(s) && s.specs == specs && HandlesAgree(s.children)
      requires logic.Valid() && s.next == nextActor && s.stopped == stopped
      requires (logic.State(), action) == S.OnChildExit(EngineOf(s), m.actor, m.reason, m.now)
      requires action.TerminateBatch?
      modifies this`handles, this`nextActor, logic
      ensures logic.Valid() && HandlesAgree(logic.children) && !logic.suppress && logic.pending.None?
      ensures View() == AfterExit(s, m)
    {
      OnlyRestartsRestart(s, m);
      DecideRestart(s, m);
      RestartRest(action.ids, s, FirstRunning(s.children, m.actor, 0).value, Decide(s, m), m.now);
    }

    /** The engine has noted the exit of child `i` and ordered a batch that reaches to the last child. */
    method RestartRest(ids: seq<string>, ghost s: Sup, ghost i: nat, ghost o: Outcome, ghost now: nat)
      requires S.Valid(s) && s.specs == specs && HandlesAgree(s.children)
      requires logic.Valid() && s.next == nextActor && s.stopped == stopped
      requires o.Restarted? && o.from <= i < o.upTo == |s.children| && ids == Ids(s.children)[o.from..]
      requires logic.strategy == s.strategy && logic.intensity.maxRestarts == s.maxRestarts
      requires logic.intensity.within == s.within && logic.intensity.accepted == s.accepted + [now]
      requires logic.children == s.children[i := Dead(s.children[i])] && logic.attempts == s.attempts && logic.suppress
      requires logic.pending == Some(FromIndex(o.from)) || (o.from == 0 && logic.pending == Some(All))
      modifies this`handles, this`nextActor, logic
      ensures logic.Valid() && HandlesAgree(logic.children) && !logic.suppress && logic.pending.None?
      ensures View() == Apply(s, o, now)
    {
      RunBatch(ids, s, i, o.from);
    }
  }

  lemma OnlyRestartsRestart(s: Sup, m: Message)
    requires S.Valid(s)
    ensures var action := S.OnChildExit(EngineOf(s), m.actor, m.reason, m.now).1;
            action.RestartOne? || action.TerminateBatch? ==> Decide(s, m).Restarted?
  {
  }

  /** The engine in a supervisor that is not suppressed. */
  function EngineOf(s: Sup): Logic {
    Logic(s.strategy, s.maxRestarts, s.within, s.accepted, s.children, false, None, s.attempts)
  }

  /** Exits that restart nothing: the engine's answer in the terms of `Decide`. */
  lemma DecideNote(s: Sup, m: Message)
    requires S.Valid(s) && !Decide(s, m).Restarted?
    ensures var r := S.OnChildExit(EngineOf(s), m.actor, m.reason, m.now);
            && r.1 == (if Decide(s, m).GaveUp? then Meltdown else Ignore)
            && r.0 == EngineOf(Apply(s, Decide(s, m), m.now))
  {
  }

  /** The range an exit restarts, around the child it is about. */
  lemma DecideRange(s: Sup, m: Message)
    requires Decide(s, m).Restarted?
    ensures var found := FirstRunning(s.children, m.actor, 0);
            var o := Decide(s, m);
            && found.Some? && o.from <= found.value < o.upTo
            && o.from == (if s.strategy.OneForAll? then 0 else found.value)
            && o.upTo == (if s.strategy.OneForOne? then o.from + 1 else |s.children|)
  {
  }

  /** The engine's answer to such an exit, with children `noted` in which the exit is marked. */
  function Ordered(s: Sup, i: nat, noted: seq<Child>): (Logic, Action)
    requires i < |s.children|
  {
    var l := EngineOf(s).(children := noted);
    match s.strategy
    case OneForOne => (l, RestartOne(s.children[i].id))
    case OneForAll => (l.(suppress := true, pending := Some(All)), TerminateBatch(Ids(noted)))
    case RestForOne =>
      (l.(suppress := true, pending := Some(FromIndex(s.children[i].startIndex))),
       TerminateBatch(IdsFrom(noted, s.children[i].startIndex)))
  }

  lemma EngineRestarts(s: Sup, m: Message, i: nat)
    requires Decide(s, m).Restarted? && FirstRunning(s.children, m.actor, 0) == Some(i)
    ensures S.OnChildExit(EngineOf(s), m.actor, m.reason, m.now) ==
            Ordered(s.(accepted := s.accepted + [m.now]), i, s.children[i := Dead(s.children[i])])
  {
  }

  /** Exits that restart a range: which one, and what the engine has noted so far. */
  lemma DecideRestart(s: Sup, m: Message)
    requires S.Valid(s) && Decide(s, m).Restarted?
    ensures var found := FirstRunning(s.children, m.actor, 0);
            var o := Decide(s, m);
            var r := S.OnChildExit(EngineOf(s), m.actor, m.reason, m.now);
            && found.Some? && o.from <= found.value < o.upTo
            && (if s.strategy.OneForOne?
                then o.upTo == o.from + 1 && r.1 == RestartOne(s.children[o.from].id)
                else o.upTo == |s.children| && r.1 == TerminateBatch(Ids(s.children)[o.from..]))
            && r.0 == EngineOf(s).(accepted := s.accepted + [m.now],
                                   children := s.children[found.value := Dead(s.children[found.value])],
                                   suppress := !s.strategy.OneForOne?,
                                   pending := match s.strategy
                                              case OneForOne => None
                                              case OneForAll => Some(All)
                                              case RestForOne => Some(FromIndex(o.from)))
            && (s.strategy.OneForAll? ==> o.from == 0)
  {
    DecideRange(s, m);
    var i := FirstRunning(s.children, m.actor, 0).value;
    var noted := s.children[i := Dead(s.children[i])];
    EngineRestarts(s, m, i);
    assert ChildOk(s.children[i], s.specs[i], i, s.next);
    PositionalIds(s, if s.strategy.RestForOne? then i else 0, noted);
    assert Ids(s.children)[0..] == Ids(s.children);
  }

  /** Nothing restarted yet, and everything restarted. */
  lemma RestartingEnds(s: Sup, from: nat, upTo: nat)
    requires from <= upTo <= |s.children|
    ensures Restarting(s, from, upTo, from) == Deadened(s.children, from, upTo)
    ensures Restarting(s, from, upTo, upTo) == Refreshed(s.children, from, upTo, s.next)
  {
  }

  lemma HandlesAfter(s: Sup, from: nat, upTo: nat, handles: map<string, ActorId>)
    requires |s.children| == |s.specs| && from <= upTo <= |s.specs| && HandlesFor(s, from, upTo, handles)
    ensures forall i :: 0 <= i < |s.specs| ==>
              && s.specs[i].id in handles && Refreshed(s.children, from, upTo, s.next)[i].handle.Some?
              && handles[s.specs[i].id] == Refreshed(s.children, from, upTo, s.next)[i].handle.value.actor
  {
  }

  /** Noting an exit leaves every child's actor where it was. */
  lemma HandlesAfterNote(s: Sup, m: Message, handles: map<string, ActorId>)
    requires S.Valid(s) && !Decide(s, m).Restarted? && HandlesFor(s, 0, 0, handles)
    ensures |AfterExit(s, m).children| == |s.specs|
    ensures forall i :: 0 <= i < |s.specs| ==>
              && s.specs[i].id in handles && AfterExit(s, m).children[i].handle.Some?
              && handles[s.specs[i].id] == AfterExit(s, m).children[i].handle.value.actor
  {
  }

  lemma NotedRange(s: Sup, i: nat, from: nat)
    requires from <= i < |s.children|
    ensures var noted := s.children[i := Dead(s.children[i])];
            && Ids(noted) == Ids(s.children)
            && Deadened(noted, from, from) == noted
            && Deadened(noted, from, |s.children|) == Deadened(s.children, from, |s.children|)
  {
  }

  lemma DeadenedIsDead(s: Sup, from: nat)
    requires from <= |s.children|
    ensures DeadFrom(Deadened(s.children, from, |s.children|), from)
  {
  }

  ghost predicate HandlesFor(s: Sup, from: nat, i: nat, handles: map<string, ActorId>)
    requires |s.children| == |s.specs|
  {
    forall k :: 0 <= k < |s.specs| ==>
      && s.specs[k].id in handles && s.children[k].handle.Some?
      && handles[s.specs[k].id] == if from <= k < i then s.next + (k - from) else s.children[k].handle.value.actor
  }

  /** Putting the next fresh actor into the map brings the handles one child further. */
  lemma HandlesNext(s: Sup, from: nat, i: nat, handles: map<string, ActorId>)
    requires |s.children| == |s.specs| && from <= i < |s.specs| && HandlesFor(s, from, i, handles)
    requires forall k :: 0 <= k < |s.specs| && s.specs[k].id == s.specs[i].id ==> k == i
    ensures HandlesFor(s, from, i + 1, handles[s.specs[i].id := s.next + (i - from)])
  {
  }

  /** No other spec has this child's name. */
  lemma OneName(s: Sup, at: nat)
    requires S.Valid(s) && at < |s.specs|
    ensures forall i :: 0 <= i < |s.specs| && s.specs[i].id == s.specs[at].id ==> i == at
  {
    assert ChildOk(s.children[at], s.specs[at], at, s.next);
    forall i | 0 <= i < |s.specs| && i != at ensures s.specs[i].id != s.specs[at].id {
      assert ChildOk(s.children[i], s.specs[i], i, s.next);
      assert if i < at then Apart(s.children[i], s.children[at]) else Apart(s.children[at], s.children[i]);
    }
  }

  /** Whatever happened to the handles, the batch is named by the ids from `from` on. */
  lemma PositionalIds(s: Sup, from: nat, children: seq<Child>)
    requires S.Valid(s) && |children| == |s.children| && from <= |children|
    requires forall i :: 0 <= i < |children| ==> children[i] == s.children[i] || children[i] == Dead(s.children[i])
    ensures Ids(children) == Ids(s.children)
    ensures IdsFrom(children, from) == Ids(s.children)[from..]
  {
    forall i | 0 <= i < |children| ensures children[i].startIndex == i {
      assert ChildOk(s.children[i], s.specs[i], i, s.next);
    }
    IdsFromPosition(children, from);
    assert Ids(children) == Ids(s.children);
  }

  lemma NotedValid(s: Sup, at: nat)
    requires S.Valid(s) && at < |s.children|
    ensures S.Valid(s.(children := s.children[at := Dead(s.children[at])]))
  {
    var s' := s.(children := s.children[at := Dead(s.children[at])]);
    forall i: nat | i < |s.children| ensures ChildOk(s'.children[i], s.specs[i], i, s.next) {
      assert ChildOk(s.children[i], s.specs[i], i, s.next);
    }
    forall i, j | 0 <= i < j < |s.children| ensures Apart(s'.children[i], s'.children[j]) {
      assert Apart(s.children[i], s.children[j]);
    }
  }

  lemma NotedIfRunning(s: Sup, actor: ActorId)
    requires S.Valid(s)
    ensures S.Valid(s.(children := MarkDead(s.children, actor)))
  {
    var found := FirstRunning(s.children, actor, 0);
    if found.Some? {
      NotedValid(s, found.value);
    }
  }
}
