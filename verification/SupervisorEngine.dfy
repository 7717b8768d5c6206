/**
 The engine as the object the supervisors update in place
 (concurrency/src/supervisor/mod.rs:104-372); every method is tied to a function of
 `SupervisorSpec`.
 */
module SupervisorEngine {
  import opened Reasons
  import opened Intensity
  import opened Backoff
  import opened SupervisorSpec
  import S = SupervisorSpec
  import B = Backoff

  class SupervisorLogic {
    const strategy: Strategy
    const intensity: IntensityTracker
    var children: seq<Child>
    var suppress: bool
    var pending: Option<Batch>
    var attempts: map<string, Count>

    ghost predicate Valid()
      reads this, intensity
    {
      intensity.Valid()
    }

    ghost function State(): Logic
      reads this, intensity
    {
      Logic(
        strategy, intensity.maxRestarts, intensity.within, intensity.accepted, children, suppress, pending, attempts)
    }

    constructor (strategy: Strategy, maxRestarts: nat, within: nat)
      ensures Valid() && fresh(intensity) && intensity.clock == 0
      ensures State() == Logic(strategy, maxRestarts, within, [], [], false, None, map[])
    {
      this.strategy := strategy;
      intensity := new IntensityTracker(maxRestarts, within);
      children, suppress, pending, attempts := [], false, None, map[];
    }

    method ChildIndexByActor(actor: ActorId) returns (found: Option<nat>)
      ensures found == FirstRunning(children, actor, 0)
    {
      var i := 0;
      while i < |children|
        invariant 0 <= i <= |children|
        invariant FirstRunning(children, actor, 0) == FirstRunning(children, actor, i)
      {
        if Runs(children[i], actor) {
          return Some(i);
        }
        i := i + 1;
      }
      return None;
    }

    method ChildIndexById(id: string) returns (found: Option<nat>)
      ensures found == FirstNamed(children, id, 0)
    {
      var i := 0;
      while i < |children|
        invariant 0 <= i <= |children|
        invariant FirstNamed(children, id, 0) == FirstNamed(children, id, i)
      {
        if children[i].id == id {
          return Some(i);
        }
        i := i + 1;
      }
      return None;
    }

    method MarkChildDead(actor: ActorId)
      modifies this`children
      ensures children == MarkDead(old(children), actor)
    {
      var found := ChildIndexByActor(actor);
      if found.Some? {
        var c := children[found.value];
        children := children[found.value := c.(handle := Some(Slot(c.handle.value.actor, false)))];
      }
    }

    method RegisterChild(id: string, restart: RestartType, startIndex: nat, slot: Slot)
      modifies this`children
      ensures children == old(children) + [Child(id, restart, startIndex, Some(slot))]
    {
      children := children + [Child(id, restart, startIndex, Some(slot))];
    }

    method ReplaceChildHandle(id: string, slot: Slot)
      modifies this`children
      ensures children == ReplaceHandle(old(children), id, slot)
    {
      var found := ChildIndexById(id);
      if found.Some? {
        children := children[found.value := children[found.value].(handle := Some(slot))];
      }
    }

    method RemoveChildById(id: string) returns (removed: bool)
      modifies this`children
      ensures children == RemoveById(old(children), id)
      ensures removed <==> FirstNamed(old(children), id, 0).Some?
    {
      var found := ChildIndexById(id);
      if found.Some? {
        children := children[..found.value] + children[found.value + 1..];
        return true;
      }
      return false;
    }

    method BackoffDelay(id: string, policy: RestartBackoff) returns (delay: Duration)
      modifies this`attempts
      ensures (attempts, delay) == B.BackoffDelay(old(attempts), id, policy)
    {
      if policy.NoBackoff? {
        return 0;
      }
      var attempt: nat := if id in attempts then attempts[id] else 0;
      if attempt < MAX_U32 {
        attempt := attempt + 1;
      }
      attempts := attempts[id := attempt];
      delay := DelayForAttempt(policy, attempt);
    }

    /** Decide what to do about an exit; the sliding window answers for the whole history. */
    method OnChildExit(actor: ActorId, reason: ExitReason, now: nat) returns (action: Action)
      requires Valid() && intensity.clock <= now
      modifies this, intensity
      ensures Valid() && intensity.clock <= now
      ensures (State(), action) == S.OnChildExit(old(State()), actor, reason, now)
    {
      if suppress {
        return Ignore;
      }
      var found := ChildIndexByActor(actor);
      if found.None? {
        return Ignore;
      }
      var c := children[found.value];
      MarkChildDead(actor);
      if !ShouldRestart(c.restart, reason) {
        attempts := attempts - {c.id};
        return Ignore;
      }
      var ok := intensity.RecordRestart(now);
      if !ok {
        return Meltdown;
      }
      match strategy
      case OneForOne =>
        return RestartOne(c.id);
      case OneForAll =>
        suppress, pending := true, Some(All);
        return TerminateBatch(Ids(children));
      case RestForOne =>
        suppress, pending := true, Some(FromIndex(c.startIndex));
        return TerminateBatch(IdsFrom(children, c.startIndex));
    }

    /** The check by position, including the case that there is no such position. */
    method PendingBatchRestartComplete() returns (complete: bool)
      ensures complete == PendingComplete(State())
    {
      if pending.None? {
        return false;
      }
      var from := match pending.value case All => 0 case FromIndex(index) => index;
      if from > |children| {
        return false;
      }
      var i := from;
      while i < |children|
        invariant from <= i <= |children|
        invariant forall k :: from <= k < i ==> !IsAlive(children[k])
      {
        if IsAlive(children[i]) {
          return false;
        }
        i := i + 1;
      }
      return true;
    }

    method TakePendingRestartIds() returns (ids: Option<seq<string>>)
      modifies this`pending, this`suppress
      ensures (State(), ids) == TakePending(old(State()))
    {
      if pending.None? {
        return None;
      }
      var batch := pending.value;
      pending, suppress := None, false;
      match batch
      case All => return Some(Ids(children));
      case FromIndex(index) => return Some(IdsFrom(children, index));
    }
  }
}
