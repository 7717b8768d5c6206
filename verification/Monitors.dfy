/**
 One monitor reference, from installation to `Down` or cancellation, for an actor's own
 table (concurrency/src/tasks/actor.rs:340-374 and 413-431) and for the broker's table of
 monitors requested by other nodes (concurrency/src/cluster/supervision_broker.rs:335-437).

 A step is one lock operation or one flag access. A demonitor removes the entry and clears
 its flag while it holds the table lock. The watcher of a local monitor removes the entry
 under the lock but reads the flag after releasing it; the broker's watcher does both under
 the lock. Other references only touch other entries, so one reference stands for all.
 */
module Monitors {
  import opened Reasons

  datatype Side = LocalTable | Broker

  datatype Installer =
    | Fresh
    | Inserted                    // entry in the table, target not looked at yet
    | SawDead                     // broker: the target has a reason already
    | Unhooked                    // broker: about to publish without a watcher
    | Returned(watching: bool)

  datatype Watcher = Absent | Waiting | Removed | Loaded(notify: bool) | Finished

  datatype Caller = Idle | Holding(found: bool) | Done(found: bool)

  /**
   `found` names the demonitor call that took the entry, if one did; `deadAtCheck` is what the
   installer's look at the target showed. No step reads either.
   */
  datatype Monitor = Monitor(
    entry: bool, active: bool, dead: bool, lock: Option<nat>,
    installer: Installer, watcher: Watcher, callers: seq<Caller>,
    downs: nat, found: Option<nat>, deadAtCheck: bool)

  datatype Move =
    | TargetExits
    | Insert
    | FindExited          // broker: the target is known only as exited
    | CheckTarget         // then spawn the watcher, or on the broker see a dead target
    | RemoveOwn           // broker: the installer takes its entry back
    | PublishOwn
    | WatcherRemoves
    | WatcherLoads
    | WatcherConcludes
    | Grab(i: nat)        // demonitor: lock the table and take the entry
    | Release(i: nat)     // clear the flag if it was there, unlock

  predicate Enabled(side: Side, s: Monitor, m: Move) {
    match m
    case TargetExits => true
    case Insert => s.installer.Fresh? && s.lock.None?
    case FindExited => side.Broker? && s.installer.Fresh? && s.dead
    case CheckTarget => s.installer.Inserted?
    case RemoveOwn => s.installer.SawDead? && s.lock.None?
    case PublishOwn => s.installer.Unhooked?
    case WatcherRemoves => s.watcher.Waiting? && s.dead && s.lock.None?
    case WatcherLoads => s.watcher.Removed?
    case WatcherConcludes => s.watcher.Loaded?
    case Grab(i) => i < |s.callers| && s.callers[i].Idle? && s.lock.None?
    case Release(i) => i < |s.callers| && s.callers[i].Holding?
  }

  function Step(side: Side, s: Monitor, m: Move): Monitor
    requires Enabled(side, s, m)
  {
    match m
    case TargetExits => s.(dead := true)
    case Insert => s.(installer := Inserted, entry := true, active := true)
    case FindExited => s.(installer := Unhooked, deadAtCheck := s.dead)
    case CheckTarget =>
      var looked := s.(deadAtCheck := s.dead);
      if side.Broker? && s.dead then looked.(installer := SawDead)
      else looked.(installer := Returned(true), watcher := Waiting)
    case RemoveOwn => s.(installer := Unhooked, entry := false)
    case PublishOwn => s.(installer := Returned(false), downs := s.downs + 1)
    case WatcherRemoves =>
      s.(entry := false, watcher := if side.Broker? then Loaded(s.entry && s.active) else Removed)
    case WatcherLoads => s.(watcher := Loaded(s.active))
    case WatcherConcludes => s.(watcher := Finished, downs := s.downs + if s.watcher.notify then 1 else 0)
    case Grab(i) =>
      s.(callers := s.callers[i := Holding(s.entry)], lock := Some(i), entry := false,
         found := if s.entry then Some(i) else s.found)
    case Release(i) =>
      s.(callers := s.callers[i := Done(s.callers[i].found)], lock := None,
         active := s.active && !s.callers[i].found)
  }

  function Start(n: nat): Monitor {
    Monitor(false, false, false, None, Fresh, Absent, seq(n, _ => Idle), 0, None, false)
  }

  ghost predicate Possible(side: Side, s: Monitor, moves: seq<Move>)
    decreases |moves|
  {
    moves == [] || (Enabled(side, s, moves[0]) && Possible(side, Step(side, s, moves[0]), moves[1..]))
  }

  ghost function After(side: Side, s: Monitor, moves: seq<Move>): Monitor
    requires Possible(side, s, moves)
    decreases |moves|
  {
    if moves == [] then s else After(side, Step(side, s, moves[0]), moves[1..])
  }

  // ----- invariant -----

  ghost predicate CallerOk(s: Monitor, i: nat)
    requires i < |s.callers|
  {
    && (s.callers[i].Holding? <==> s.lock == Some(i))
    && (s.found == Some(i) <==> !s.callers[i].Idle? && s.callers[i].found)
    && (s.found == Some(i) && s.callers[i].Done? ==> !s.active)
  }

  ghost predicate WatcherOk(side: Side, s: Monitor) {
    match s.watcher
    case Absent => true
    case Waiting => s.installer == Returned(true) && s.downs == 0 && (s.entry <==> s.found.None?)
    case Removed =>
      side.LocalTable? && s.installer == Returned(true) && s.downs == 0 && !s.entry && (s.active <==> s.found.None?)
    case Loaded(notify) => s.installer == Returned(true) && s.downs == 0 && !s.entry && (notify <==> s.found.None?)
    case Finished => s.installer == Returned(true) && !s.entry && s.downs == if s.found.None? then 1 else 0
  }

  ghost predicate InstallerOk(side: Side, s: Monitor) {
    match s.installer
    case Fresh => s.watcher.Absent? && !s.entry && s.found.None? && s.downs == 0
    case Inserted => s.watcher.Absent? && s.downs == 0 && (s.entry <==> s.found.None?)
    case SawDead => side.Broker? && s.watcher.Absent? && s.downs == 0 && s.deadAtCheck
    case Unhooked => side.Broker? && s.watcher.Absent? && s.downs == 0 && !s.entry && s.deadAtCheck
    case Returned(watching) =>
      if watching then !s.watcher.Absent? && (side.Broker? ==> !s.deadAtCheck)
      else side.Broker? && s.watcher.Absent? && s.downs == 1 && !s.entry && s.deadAtCheck
  }

  ghost predicate Inv(side: Side, s: Monitor) {
    && (s.entry ==> s.active && s.found.None?)
    && (!s.installer.Fresh? && s.found.None? && s.watcher.Waiting? ==> s.active)
    && (s.found.Some? ==> s.found.value < |s.callers|)
    && (s.lock.Some? ==> s.lock.value < |s.callers|)
    && WatcherOk(side, s) && InstallerOk(side, s)
    && forall i: nat :: i < |s.callers| ==> CallerOk(s, i)
  }

  lemma GrabKeepsInv(side: Side, s: Monitor, i: nat)
    requires Inv(side, s) && Enabled(side, s, Grab(i))
    ensures Inv(side, Step(side, s, Grab(i)))
  {
    var s' := Step(side, s, Grab(i));
    forall k: nat | k < |s'.callers| ensures CallerOk(s', k) {
      assert CallerOk(s, k) && CallerOk(s, i);
    }
  }

  lemma ReleaseKeepsInv(side: Side, s: Monitor, i: nat)
    requires Inv(side, s) && Enabled(side, s, Release(i))
    ensures Inv(side, Step(side, s, Release(i)))
  {
    var s' := Step(side, s, Release(i));
    assert CallerOk(s, i);
    forall k: nat | k < |s'.callers| ensures CallerOk(s', k) {
      assert CallerOk(s, k);
    }
  }

  lemma StepKeepsInv(side: Side, s: Monitor, m: Move)
    requires Inv(side, s) && Enabled(side, s, m)
    ensures Inv(side, Step(side, s, m))
  {
    if m.Grab? {
      GrabKeepsInv(side, s, m.i);
    } else if m.Release? {
      ReleaseKeepsInv(side, s, m.i);
    } else {
      var s' := Step(side, s, m);
      if s.found.Some? {
        assert CallerOk(s, s.found.value);
      }
      forall k: nat | k < |s'.callers| ensures CallerOk(s', k) {
        assert CallerOk(s, k);
      }
    }
  }

  lemma {:induction false} RunKeepsInv(side: Side, s: Monitor, moves: seq<Move>)
    requires Inv(side, s) && Possible(side, s, moves)
    ensures Inv(side, After(side, s, moves))
    decreases |moves|
  {
    if moves != [] {
      StepKeepsInv(side, s, moves[0]);
      RunKeepsInv(side, Step(side, s, moves[0]), moves[1..]);
    }
  }

  lemma StartInv(side: Side, n: nat)
    ensures Inv(side, Start(n))
  {
    forall i: nat | i < n ensures CallerOk(Start(n), i) {}
  }

  // ----- main results -----

  /** In every interleaving, for either table, one reference yields at most one `Down`. */
  lemma AtMostOneDown(side: Side, n: nat, moves: seq<Move>)
    requires Possible(side, Start(n), moves)
    ensures After(side, Start(n), moves).downs <= 1
  {
    StartInv(side, n);
    RunKeepsInv(side, Start(n), moves);
  }

  /**
   An actor's own table: a demonitor that found the entry means no `Down`, ever; and if none
   found it, the watcher's end means exactly one.
   */
  lemma LocalDemonitorWins(n: nat, moves: seq<Move>)
    requires Possible(LocalTable, Start(n), moves)
    ensures var s := After(LocalTable, Start(n), moves);
            && (s.found.Some? ==> s.downs == 0)
            && (s.watcher.Finished? ==> s.downs == if s.found.None? then 1 else 0)
            && (s.found.Some? <==> exists i: nat :: i < |s.callers| && !s.callers[i].Idle? && s.callers[i].found)
  {
    StartInv(LocalTable, n);
    RunKeepsInv(LocalTable, Start(n), moves);
    var s := After(LocalTable, Start(n), moves);
    if s.found.Some? {
      assert CallerOk(s, s.found.value);
    }
    forall i: nat | i < |s.callers| && !s.callers[i].Idle? && s.callers[i].found ensures s.found == Some(i) {
      assert CallerOk(s, i);
    }
  }

  /**
   The broker's table: once the installer has returned, a reference whose entry some
   demonitor found has yielded a `Down` if and only if the target was dead when the installer
   looked at it. Without such a demonitor the watcher's end means exactly one `Down`.
   */
  lemma BrokerDemonitor(n: nat, moves: seq<Move>)
    requires Possible(Broker, Start(n), moves)
    ensures var s := After(Broker, Start(n), moves);
            && (s.installer.Returned? && s.found.Some? ==> (s.downs == 1 <==> s.deadAtCheck))
            && (s.installer.Returned? && s.deadAtCheck ==> s.downs == 1)
            && (s.watcher.Finished? ==> s.downs == if s.found.None? then 1 else 0)
  {
    StartInv(Broker, n);
    RunKeepsInv(Broker, Start(n), moves);
  }

  /** Once installed, with the entry in place, no later demonitor can be overtaken. */
  lemma {:induction false} FoundAfterInstall(side: Side, s: Monitor, moves: seq<Move>)
    requires Inv(side, s) && s.installer.Returned? && s.entry && Possible(side, s, moves)
    ensures var s' := After(side, s, moves); s'.found.Some? ==> s'.downs == 0
  {
    ReturnedStays(side, s, moves);
    RunKeepsInv(side, s, moves);
  }

  lemma {:induction false} ReturnedStays(side: Side, s: Monitor, moves: seq<Move>)
    requires s.installer.Returned? && Possible(side, s, moves)
    ensures After(side, s, moves).installer == s.installer
    decreases |moves|
  {
    if moves != [] {
      ReturnedStays(side, Step(side, s, moves[0]), moves[1..]);
    }
  }

  lemma Prepend(side: Side, s: Monitor, m: Move, rest: seq<Move>)
    requires Enabled(side, s, m) && Possible(side, Step(side, s, m), rest)
    ensures Possible(side, s, [m] + rest) && After(side, s, [m] + rest) == After(side, Step(side, s, m), rest)
  {
    assert ([m] + rest)[1..] == rest;
  }

  /** A broker run in which a demonitor finds the entry and the owner still gets a `Down`. */
  lemma DownAfterDemonitor()
    ensures exists moves ::
              && Possible(Broker, Start(1), moves)
              && After(Broker, Start(1), moves).found == Some(0)
              && After(Broker, Start(1), moves).downs == 1
  {
    var s0 := Start(1);
    var s1 := Step(Broker, s0, Insert);
    var s2 := Step(Broker, s1, Grab(0));
    var s3 := Step(Broker, s2, Release(0));
    var s4 := Step(Broker, s3, TargetExits);
    var s5 := Step(Broker, s4, CheckTarget);
    var s6 := Step(Broker, s5, RemoveOwn);
    var s7 := Step(Broker, s6, PublishOwn);
    assert Possible(Broker, s7, []) && After(Broker, s7, []) == s7;
    Prepend(Broker, s6, PublishOwn, []);
    Prepend(Broker, s5, RemoveOwn, [PublishOwn] + []);
    Prepend(Broker, s4, CheckTarget, [RemoveOwn] + ([PublishOwn] + []));
    var late := [CheckTarget] + ([RemoveOwn] + ([PublishOwn] + []));
    Prepend(Broker, s3, TargetExits, late);
    Prepend(Broker, s2, Release(0), [TargetExits] + late);
    Prepend(Broker, s1, Grab(0), [Release(0)] + ([TargetExits] + late));
    Prepend(Broker, s0, Insert, [Grab(0)] + ([Release(0)] + ([TargetExits] + late)));
  }

  // ----- every reference comes to its end -----

  function InstallerLeft(i: Installer): nat {
    match i
    case Fresh => 8
    case Inserted => 7
    case SawDead => 2
    case Unhooked => 1
    case Returned(_) => 0
  }

  function WatcherLeft(w: Watcher): nat {
    match w
    case Absent => 0
    case Waiting => 3
    case Removed => 2
    case Loaded(_) => 1
    case Finished => 0
  }

  function CallerLeft(c: Caller): nat {
    if c.Idle? then 2 else if c.Holding? then 1 else 0
  }

  function CallersLeft(callers: seq<Caller>): nat {
    if callers == [] then 0 else CallersLeft(callers[..|callers| - 1]) + CallerLeft(callers[|callers| - 1])
  }

  /** The steps that installer, watcher and demonitor calls have left at most. */
  function StepsLeft(s: Monitor): nat {
    InstallerLeft(s.installer) + WatcherLeft(s.watcher) + CallersLeft(s.callers)
  }

  lemma {:induction false} CallersLeftUpdate(callers: seq<Caller>, i: nat, c: Caller)
    requires i < |callers|
    ensures CallersLeft(callers[i := c]) + CallerLeft(callers[i]) == CallersLeft(callers) + CallerLeft(c)
  {
    var n := |callers| - 1;
    if i < n {
      CallersLeftUpdate(callers[..n], i, c);
      assert callers[i := c][..n] == callers[..n][i := c];
    } else {
      assert callers[i := c][..n] == callers[..n];
    }
  }

  lemma {:induction false} AllIdle(n: nat)
    ensures CallersLeft(seq(n, _ => Idle)) == 2 * n
  {
    if n > 0 {
      AllIdle(n - 1);
      assert seq(n, _ => Idle)[..n - 1] == seq(n - 1, _ => Idle);
    }
  }

  lemma StepLowers(side: Side, s: Monitor, m: Move)
    requires Inv(side, s) && Enabled(side, s, m)
    ensures StepsLeft(Step(side, s, m)) + (if m.TargetExits? then 0 else 1) <= StepsLeft(s)
    ensures Step(side, s, m).dead == (s.dead || m.TargetExits?)
  {
    if m.Grab? {
      CallersLeftUpdate(s.callers, m.i, Holding(s.entry));
    } else if m.Release? {
      CallersLeftUpdate(s.callers, m.i, Done(s.callers[m.i].found));
    }
  }

  function StepsMade(moves: seq<Move>): nat {
    if moves == [] then 0 else StepsMade(moves[1..]) + if moves[0].TargetExits? then 0 else 1
  }

  lemma {:induction false} StepsRunOut(side: Side, s: Monitor, moves: seq<Move>)
    requires Inv(side, s) && Possible(side, s, moves)
    ensures StepsMade(moves) + StepsLeft(After(side, s, moves)) <= StepsLeft(s)
    ensures After(side, s, moves).dead == (s.dead || TargetExits in moves)
    decreases |moves|
  {
    if moves != [] {
      StepLowers(side, s, moves[0]);
      StepKeepsInv(side, s, moves[0]);
      StepsRunOut(side, Step(side, s, moves[0]), moves[1..]);
    }
  }

  /** Nothing is left to do, for the installer, the watcher or a demonitor call. */
  ghost predicate Quiet(side: Side, s: Monitor) {
    forall m: Move :: Enabled(side, s, m) ==> m.TargetExits?
  }

  lemma HolderReleases(side: Side, s: Monitor)
    requires Inv(side, s) && s.lock.Some?
    ensures Enabled(side, s, Release(s.lock.value))
  {
    assert CallerOk(s, s.lock.value);
  }

  lemma QuietIsDone(side: Side, s: Monitor)
    requires Inv(side, s) && Quiet(side, s) && s.dead
    ensures s.installer.Returned? && (s.watcher.Absent? || s.watcher.Finished?)
  {
    if s.lock.Some? {
      HolderReleases(side, s);
    }
    assert !Enabled(side, s, Insert) && !Enabled(side, s, CheckTarget);
    assert !Enabled(side, s, RemoveOwn) && !Enabled(side, s, PublishOwn);
    assert !Enabled(side, s, WatcherRemoves) && !Enabled(side, s, WatcherLoads) && !Enabled(side, s, WatcherConcludes);
  }

  /**
   The steps of a reference and of `n` demonitor calls are bounded; and when the target has
   exited and nothing is left to do, there has been one `Down`, unless a demonitor found the
   entry (and, on the broker, the installer had seen the target alive).
   */
  lemma DownIsCertain(side: Side, n: nat, moves: seq<Move>)
    requires Possible(side, Start(n), moves)
    ensures var s := After(side, Start(n), moves);
            && StepsMade(moves) <= 8 + 2 * n
            && (TargetExits in moves && Quiet(side, s) ==>
                  s.downs == if s.found.None? || (side.Broker? && s.deadAtCheck) then 1 else 0)
  {
    StartInv(side, n);
    RunKeepsInv(side, Start(n), moves);
    StepsRunOut(side, Start(n), moves);
    AllIdle(n);
    var s := After(side, Start(n), moves);
    if TargetExits in moves && Quiet(side, s) {
      QuietIsDone(side, s);
    }
  }
}
