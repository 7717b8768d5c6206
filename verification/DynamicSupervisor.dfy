/**
 The dynamic supervisor as the actor that updates its maps in place
 (concurrency/src/tasks/dynamic_supervisor.rs:204-509), tied message by message to
 `DynamicSupervisorSpec.Step`.
 */
module DynamicSupervisorActor {
  import opened Reasons
  import opened Backoff
  import opened SupervisorSpec
  import opened SupervisorEngine
  import opened InstanceIds
  import opened DynamicSupervisorSpec

  class DynamicSupervisor {
    const logic: SupervisorLogic
    const maxChildren: Option<nat>
    var specs: map<string, Spec>
    var handles: map<string, ActorId>
    var actorToId: map<ActorId, string>
    var regNames: map<string, string>
    var counter: nat
    var nextActor: ActorId
    var stopping: bool
    var stopped: bool
    ghost var terminated: set<string>

    ghost function View(): Dyn
      reads this, logic, logic.intensity
    {
      Dyn(logic.children, specs, handles, actorToId, regNames, counter, nextActor, maxChildren,
          logic.intensity.maxRestarts, logic.intensity.within, logic.intensity.accepted, logic.attempts,
          stopping, stopped, terminated)
    }

    ghost predicate Ready()
      reads this, logic, logic.intensity
    {
      logic.Valid() && logic.strategy.OneForOne? && logic.suppress == stopping && logic.pending.None?
    }

    ghost predicate Valid()
      reads this, logic, logic.intensity
    {
      Ready() && Consistent(View())
    }

    constructor (maxChildren: Option<nat>, maxRestarts: nat, within: nat, firstActor: ActorId)
      ensures Valid() && fresh(logic) && fresh(logic.intensity)
      ensures View() == Initial(maxChildren, maxRestarts, within, firstActor)
    {
      logic := new SupervisorLogic(OneForOne, maxRestarts, within);
      this.maxChildren := maxChildren;
      specs, handles, actorToId, regNames := map[], map[], map[], map[];
      counter, nextActor, stopping, stopped, terminated := 0, firstActor, false, false, {};
      AlwaysConsistent(maxChildren, maxRestarts, within, firstActor, []);
    }

    /** How many children are marked alive. */
    method ChildCount() returns (n: nat)
      ensures n == AliveCount(logic.children)
    {
      n := 0;
      var i := 0;
      while i < |logic.children|
        invariant 0 <= i <= |logic.children| && n == AliveCount(logic.children[..i])
      {
        assert logic.children[..i + 1][..i] == logic.children[..i];
        if IsAlive(logic.children[i]) {
          n := n + 1;
        }
        i := i + 1;
      }
      assert logic.children[..i] == logic.children;
    }

    /** Forget a child everywhere, its registry name included (it has at most one). */
    method CleanupChild(id: string)
      modifies this`regNames, this`handles, this`actorToId, this`specs, logic`children
      ensures View() == Dropped(old(View()), id)
    {
      regNames := map n | n in regNames && regNames[n] != id :: regNames[n];
      if id in handles {
        actorToId := actorToId - {handles[id]};
        handles := handles - {id};
      }
      specs := specs - {id};
      var _ := logic.RemoveChildById(id);
    }

    method StartChild(spec: Spec, regName: Option<string>, nameTaken: bool) returns (reply: Reply)
      requires Valid()
      modifies this, logic`children
      ensures Valid()
      ensures (View(), reply) == AfterStart(old(View()), spec, regName, nameTaken)
    {
      StartConsistent(View(), spec, regName, nameTaken);
      reply := StartIfRoom(spec, regName, nameTaken);
    }

    method StartIfRoom(spec: Spec, regName: Option<string>, nameTaken: bool) returns (reply: Reply)
      requires Ready()
      modifies this, logic`children
      ensures Ready()
      ensures (View(), reply) == AfterStart(old(View()), spec, regName, nameTaken)
    {
      if stopping {
        return SupervisorStopping;
      }
      if maxChildren.Some? {
        var n := ChildCount();
        if n >= maxChildren.value {
          return MaxChildrenExceeded;
        }
      }
      counter := counter + 1;
      reply := Admit(InstanceId(spec.id, counter), spec, regName, nameTaken);
    }

    method Admit(id: string, spec: Spec, regName: Option<string>, nameTaken: bool) returns (reply: Reply)
      modifies this`specs, this`handles, this`actorToId, this`regNames, this`nextActor, logic`children
      ensures (View(), reply) == Admitted(old(View()), id, spec, regName, nameTaken)
    {
      var taken := logic.ChildIndexById(id);
      if taken.Some? {
        return DuplicateChildId;
      }
      var actor := nextActor;
      Register(id, spec);
      if regName.Some? {
        if nameTaken {
          CleanupChild(id);
          return RegistryRefused;
        }
        regNames := regNames[regName.value := id];
      }
      return Started(actor);
    }

    method Register(id: string, spec: Spec)
      modifies this`specs, this`handles, this`actorToId, this`nextActor, logic`children
      ensures View() == Added(old(View()), id, spec)
    {
      var index := StartIndex();
      logic.RegisterChild(id, spec.restart, index, Slot(nextActor, true));
      specs, handles, actorToId := specs[id := spec], handles[id := nextActor], actorToId[nextActor := id];
      nextActor := nextActor + 1;
    }

    /** One more than the largest start index in use. */
    method StartIndex() returns (index: nat)
      ensures index == NextStartIndex(logic.children)
    {
      index := 0;
      var i := 0;
      while i < |logic.children|
        invariant 0 <= i <= |logic.children| && index == NextStartIndex(logic.children[..i])
      {
        assert logic.children[..i + 1][..i] == logic.children[..i];
        if index < logic.children[i].startIndex + 1 {
          index := logic.children[i].startIndex + 1;
        }
        i := i + 1;
      }
      assert logic.children[..i] == logic.children;
    }

    method TerminateChildByActor(actor: ActorId) returns (reply: Reply)
      requires Valid()
      modifies this, logic`children
      ensures Valid()
      ensures (View(), reply) == AfterTerminate(old(View()), actor)
    {
      TerminateConsistent(View(), actor);
      ConsistentDistinct(View());
      reply := TerminateIfKnown(actor);
    }

    method TerminateIfKnown(actor: ActorId) returns (reply: Reply)
      requires Ready() && DistinctIds(logic.children)
      modifies this, logic`children
      ensures Ready()
      ensures (View(), reply) == AfterTerminate(old(View()), actor)
    {
      if actor !in actorToId {
        return ChildNotFound;
      }
      var id := actorToId[actor];
      if id !in handles {
        return ChildNotFound;
      }
      ShutDownChild(id);
      terminated := terminated + {id};
      return Terminated;
    }

    /** The engine forgets the child first, so that its exit restarts nothing. */
    method ShutDownChild(id: string)
      requires DistinctIds(logic.children)
      modifies this`regNames, this`handles, this`actorToId, this`specs, logic`children
      ensures View() == Dropped(old(View()), id)
    {
      RemovedOnce(logic.children, id);
      var _ := logic.RemoveChildById(id);
      // The child is shut down and waited for here; no other message is handled meanwhile.
      CleanupChild(id);
    }

    method RestartChild(id: string)
      requires id in specs
      modifies this`handles, this`actorToId, this`nextActor, logic`children, logic`attempts
      ensures View() ==
              Swapped(old(View()).(attempts := BackoffDelay(old(logic.attempts), id, specs[id].backoff).0), id)
    {
      var _ := logic.BackoffDelay(id, specs[id].backoff);
      if id in handles {
        actorToId := actorToId - {handles[id]};
      }
      logic.ReplaceChildHandle(id, Slot(nextActor, true));
      handles, actorToId := handles[id := nextActor], actorToId[nextActor := id];
      nextActor := nextActor + 1;
    }

    /** The child an actor was started for, dead or alive. */
    method ChildIdByActorAny(actor: ActorId) returns (found: Option<nat>)
      ensures found == FirstOf(logic.children, actor, 0)
    {
      var i := 0;
      while i < |logic.children|
        invariant 0 <= i <= |logic.children|
        invariant FirstOf(logic.children, actor, 0) == FirstOf(logic.children, actor, i)
      {
        if logic.children[i].handle.Some? && logic.children[i].handle.value.actor == actor {
          return Some(i);
        }
        i := i + 1;
      }
      return None;
    }

    method HandleExit(m: Message)
      requires Valid() && logic.intensity.clock <= m.now
      modifies this, logic, logic.intensity
      ensures Valid() && logic.intensity.clock <= m.now
      ensures View() == AfterChildExit(old(View()), m)
    {
      ExitConsistent(View(), m);
      NoteAndReact(m);
    }

    method NoteAndReact(m: Message)
      requires Ready() && logic.intensity.clock <= m.now
      modifies this, logic, logic.intensity
      ensures Ready() && logic.intensity.clock <= m.now
      ensures View() == AfterChildExit(old(View()), m)
    {
      ghost var d := View();
      var action := logic.OnChildExit(m.actor, m.reason, m.now);
      assert View() == Bookkept(d, m);
      React(action, m.actor);
    }

    /** What the dynamic supervisor does with the engine's answer. */
    method React(action: Action, actor: ActorId)
      modifies this`regNames, this`handles, this`actorToId, this`specs, this`nextActor, this`stopped
      modifies logic`children, logic`attempts
      ensures View() == Reacted(old(View()), action, actor)
    {
      if action.Ignore? {
        var found := ChildIdByActorAny(actor);
        if found.Some? {
          CleanupChild(logic.children[found.value].id);
        }
      } else if action.RestartOne? {
        if action.id in specs {
          RestartChild(action.id);
        }
      } else {
        stopped := true;
      }
    }
  }
}
