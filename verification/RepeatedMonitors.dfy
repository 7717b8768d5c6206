/**
 Any number of installations of one monitor reference in the broker's table
 (concurrency/src/cluster/supervision_broker.rs:335-437), each step one lock operation or one
 look at the target. A later installation overwrites the entry of an earlier one, every
 installer that sees a dead target publishes, and a watcher publishes if it finds an entry,
 its own or another's. The flag in an entry is cleared only by whoever has taken the entry out,
 under the same lock, so an entry that is found is always active.

 The number of `Down`s is exact: one for each installer that saw the target dead, and one for
 each entry that was left to the watchers.
 */
module RepeatedMonitors {

  /** Where one installation is, and later its watcher. */
  datatype Stage =
    | Fresh
    | Inserted
    | SawDead                     // about to take the entry back
    | Unhooked                    // about to publish without a watcher
    | PublishedOwn
    | Watching
    | Removed(found: bool)        // the watcher has looked into the table
    | Finished(found: bool)

  /** What became of entries; no step reads it. */
  datatype Tally = Tally(inserted: nat, overwritten: nat, cancelled: nat, cleared: nat)

  datatype Monitor = Monitor(entry: bool, dead: bool, stages: seq<Stage>, downs: nat, tally: Tally)

  datatype Move =
    | TargetExits
    | Insert(i: nat)
    | FindExited(i: nat)          // the target is known only as exited
    | Check(i: nat)               // look at the target
    | Clear(i: nat)               // take the entry out, whosever it is
    | Publish(i: nat)
    | WatcherRemoves(i: nat)
    | WatcherConcludes(i: nat)
    | Demonitor

  predicate Enabled(s: Monitor, m: Move) {
    match m
    case TargetExits => true
    case Insert(i) => i < |s.stages| && s.stages[i].Fresh?
    case FindExited(i) => i < |s.stages| && s.stages[i].Fresh? && s.dead
    case Check(i) => i < |s.stages| && s.stages[i].Inserted?
    case Clear(i) => i < |s.stages| && s.stages[i].SawDead?
    case Publish(i) => i < |s.stages| && s.stages[i].Unhooked?
    case WatcherRemoves(i) => i < |s.stages| && s.stages[i].Watching? && s.dead
    case WatcherConcludes(i) => i < |s.stages| && s.stages[i].Removed?
    case Demonitor => true
  }

  function Bit(b: bool): nat {
    if b then 1 else 0
  }

  function At(s: Monitor, i: nat, stage: Stage): Monitor
    requires i < |s.stages|
  {
    s.(stages := s.stages[i := stage])
  }

  function Step(s: Monitor, m: Move): Monitor
    requires Enabled(s, m)
  {
    var t := s.tally;
    match m
    case TargetExits => s.(dead := true)
    case Insert(i) =>
      At(s.(entry := true,
            tally := t.(inserted := t.inserted + 1, overwritten := t.overwritten + Bit(s.entry))), i, Inserted)
    case FindExited(i) => At(s, i, Unhooked)
    case Check(i) => At(s, i, if s.dead then SawDead else Watching)
    case Clear(i) => At(s.(entry := false, tally := t.(cleared := t.cleared + Bit(s.entry))), i, Unhooked)
    case Publish(i) => At(s.(downs := s.downs + 1), i, PublishedOwn)
    case WatcherRemoves(i) => At(s.(entry := false), i, Removed(s.entry))
    case WatcherConcludes(i) => At(s.(downs := s.downs + Bit(s.stages[i].found)), i, Finished(s.stages[i].found))
    case Demonitor => s.(entry := false, tally := t.(cancelled := t.cancelled + Bit(s.entry)))
  }

  function Start(n: nat): Monitor {
    Monitor(false, false, seq(n, _ => Fresh), 0, Tally(0, 0, 0, 0))
  }

  /** A run as the states it goes through. */
  ghost predicate Follows(states: seq<Monitor>, moves: seq<Move>, k: nat)
    requires k < |moves| && |states| == |moves| + 1
  {
    Enabled(states[k], moves[k]) && states[k + 1] == Step(states[k], moves[k])
  }

  ghost predicate Run(states: seq<Monitor>, moves: seq<Move>) {
    |states| == |moves| + 1 && forall k: nat :: k < |moves| ==> Follows(states, moves, k)
  }

  // ----- counting installations -----

  datatype Kind = SeesDead | Hits | Told | Started

  predicate Is(kind: Kind, stage: Stage) {
    match kind
    case SeesDead => stage.SawDead? || stage.Unhooked? || stage.PublishedOwn?
    case Hits => (stage.Removed? || stage.Finished?) && stage.found
    case Told => stage.PublishedOwn? || (stage.Finished? && stage.found)
    case Started => !stage.Fresh?
  }

  function Count(stages: seq<Stage>, kind: Kind): nat {
    if stages == [] then 0
    else Count(stages[..|stages| - 1], kind) + Bit(Is(kind, stages[|stages| - 1]))
  }

  lemma {:induction false} CountUpdate(stages: seq<Stage>, i: nat, stage: Stage, kind: Kind)
    requires i < |stages|
    ensures Count(stages[i := stage], kind) + Bit(Is(kind, stages[i])) == Count(stages, kind) + Bit(Is(kind, stage))
  {
    var n := |stages| - 1;
    if i < n {
      CountUpdate(stages[..n], i, stage, kind);
      assert stages[i := stage][..n] == stages[..n][i := stage];
    } else {
      assert stages[i := stage][..n] == stages[..n];
    }
  }

  lemma {:induction false} CountNone(n: nat, kind: Kind)
    ensures Count(seq(n, _ => Fresh), kind) == 0
  {
    if n > 0 {
      CountNone(n - 1, kind);
      assert seq(n, _ => Fresh)[..n - 1] == seq(n - 1, _ => Fresh);
    }
  }

  lemma {:induction false} CountBound(stages: seq<Stage>)
    ensures Count(stages, SeesDead) + Count(stages, Hits) <= |stages|
    ensures Count(stages, Told) <= |stages|
  {
    if stages != [] {
      CountBound(stages[..|stages| - 1]);
    }
  }

  lemma {:induction false} CountAll(stages: seq<Stage>, kind: Kind)
    requires forall i :: 0 <= i < |stages| ==> Is(kind, stages[i])
    ensures Count(stages, kind) == |stages|
  {
    if stages != [] {
      CountAll(stages[..|stages| - 1], kind);
    }
  }

  lemma {:induction false} CountNobody(stages: seq<Stage>, kind: Kind)
    requires forall i :: 0 <= i < |stages| ==> !Is(kind, stages[i])
    ensures Count(stages, kind) == 0
  {
    if stages != [] {
      CountNobody(stages[..|stages| - 1], kind);
    }
  }

  // ----- conservation -----

  ghost predicate Inv(s: Monitor) {
    && s.downs == Count(s.stages, Told)
    && s.tally.inserted ==
         s.tally.overwritten + s.tally.cancelled + s.tally.cleared + Count(s.stages, Hits) + Bit(s.entry)
  }

  lemma StepKeepsInv(s: Monitor, m: Move)
    requires Inv(s) && Enabled(s, m)
    ensures Inv(Step(s, m))
  {
    var s' := Step(s, m);
    if !m.TargetExits? && !m.Demonitor? {
      CountUpdate(s.stages, m.i, s'.stages[m.i], Told);
      CountUpdate(s.stages, m.i, s'.stages[m.i], Hits);
    }
  }

  lemma StartInv(n: nat)
    ensures Inv(Start(n))
  {
    CountNone(n, Told);
    CountNone(n, Hits);
  }

  lemma {:induction false} RunKeepsInv(states: seq<Monitor>, moves: seq<Move>, k: nat)
    requires Run(states, moves) && Inv(states[0]) && k < |states|
    ensures Inv(states[k]) && |states[k].stages| == |states[0].stages|
  {
    if k > 0 {
      RunKeepsInv(states, moves, k - 1);
      assert Follows(states, moves, k - 1);
      StepKeepsInv(states[k - 1], moves[k - 1]);
    }
  }

  ghost predicate AtRest(s: Monitor) {
    forall i :: 0 <= i < |s.stages| ==> s.stages[i].PublishedOwn? || s.stages[i].Finished?
  }

  lemma {:induction false} ToldAtRest(stages: seq<Stage>)
    requires forall i :: 0 <= i < |stages| ==> stages[i].PublishedOwn? || stages[i].Finished?
    ensures Count(stages, Told) == Count(stages, SeesDead) + Count(stages, Hits)
  {
    if stages != [] {
      ToldAtRest(stages[..|stages| - 1]);
    }
  }

  /**
   Over every run, there is never more than one `Down` per installation. Once all of them are
   at rest the number is exact: the installers that saw the target dead, plus the entries that
   were neither overwritten, nor cancelled, nor cleared, nor are still there.
   */
  lemma DownsExactly(n: nat, states: seq<Monitor>, moves: seq<Move>, k: nat)
    requires Run(states, moves) && states[0] == Start(n) && k < |states|
    ensures var s := states[k];
            && s.downs <= n
            && (AtRest(s) ==>
                  s.downs + s.tally.overwritten + s.tally.cancelled + s.tally.cleared + Bit(s.entry) ==
                  Count(s.stages, SeesDead) + s.tally.inserted)
  {
    StartInv(n);
    RunKeepsInv(states, moves, k);
    CountBound(states[k].stages);
    if AtRest(states[k]) {
      ToldAtRest(states[k].stages);
    }
  }

  // ----- the two pure cases -----

  /** No installer saw the target dead, and none is still looking once it is. */
  ghost predicate NoneSawDead(s: Monitor) {
    && (forall i :: 0 <= i < |s.stages| ==>
          !s.stages[i].SawDead? && !s.stages[i].Unhooked? && !s.stages[i].PublishedOwn?)
    && (s.dead ==> forall i :: 0 <= i < |s.stages| ==> !s.stages[i].Fresh? && !s.stages[i].Inserted?)
  }

  /** Nobody has cancelled or cleared; entries were overwritten as long as one was there. */
  ghost predicate Watched(s: Monitor) {
    && NoneSawDead(s)
    && s.tally.cancelled == 0 && s.tally.cleared == 0
    && s.tally.inserted == Count(s.stages, Started)
    && (!s.dead ==> Count(s.stages, Hits) == 0)
    && s.tally.inserted == s.tally.overwritten + Bit(s.tally.inserted > 0)
  }

  /** No demonitor, and the target exits only when every installer has seen it alive. */
  ghost predicate Calm(s: Monitor, m: Move) {
    && !m.Demonitor?
    && (m.TargetExits? ==> forall i :: 0 <= i < |s.stages| ==> !s.stages[i].Fresh? && !s.stages[i].Inserted?)
  }

  lemma CalmStages(s: Monitor, m: Move)
    requires NoneSawDead(s) && Enabled(s, m) && Calm(s, m)
    ensures NoneSawDead(Step(s, m))
  {
  }

  lemma CalmStep(s: Monitor, m: Move)
    requires Inv(s) && Watched(s) && Enabled(s, m) && Calm(s, m)
    ensures Watched(Step(s, m))
  {
    var s' := Step(s, m);
    CalmStages(s, m);
    if !m.TargetExits? {
      assert !s.stages[m.i].SawDead? && !s.stages[m.i].Unhooked?;
      CountUpdate(s.stages, m.i, s'.stages[m.i], Started);
      CountUpdate(s.stages, m.i, s'.stages[m.i], Hits);
    }
  }

  lemma {:induction false} CalmRun(states: seq<Monitor>, moves: seq<Move>, k: nat)
    requires Run(states, moves) && Inv(states[0]) && Watched(states[0]) && k < |states|
    requires forall j: nat :: j < |moves| ==> Calm(states[j], moves[j])
    ensures Watched(states[k])
  {
    if k > 0 {
      CalmRun(states, moves, k - 1);
      RunKeepsInv(states, moves, k - 1);
      assert Follows(states, moves, k - 1);
      CalmStep(states[k - 1], moves[k - 1]);
    }
  }

  lemma {:induction false} HitsLeaveNoEntry(states: seq<Monitor>, moves: seq<Move>, k: nat)
    requires Run(states, moves) && states[0].stages != [] && k < |states|
    requires forall i :: 0 <= i < |states[0].stages| ==> states[0].stages[i].Fresh?
    requires forall j: nat :: j < |moves| ==> Calm(states[j], moves[j])
    requires Inv(states[0]) && Watched(states[0])
    ensures |states[k].stages| == |states[0].stages|
    ensures (exists i :: 0 <= i < |states[k].stages|
                         && (states[k].stages[i].Removed? || states[k].stages[i].Finished?)) ==>
              states[k].dead && !states[k].entry
  {
    if k > 0 {
      HitsLeaveNoEntry(states, moves, k - 1);
      CalmRun(states, moves, k - 1);
      assert Follows(states, moves, k - 1);
    }
  }

  /** All installed while the target lives, and no demonitor: however often, exactly one `Down`. */
  lemma InstalledAlive(n: nat, states: seq<Monitor>, moves: seq<Move>)
    requires Run(states, moves) && states[0] == Start(n) && n > 0
    requires forall j: nat :: j < |moves| ==> Calm(states[j], moves[j])
    requires AtRest(states[|moves|])
    ensures states[|moves|].downs == 1
  {
    var s := states[|moves|];
    StartInv(n);
    CountNone(n, Started);
    CountNone(n, Hits);
    CalmRun(states, moves, |moves|);
    RunKeepsInv(states, moves, |moves|);
    HitsLeaveNoEntry(states, moves, |moves|);
    assert s.stages[0].Finished?;
    CountAll(s.stages, Started);
    CountNobody(s.stages, SeesDead);
    ToldAtRest(s.stages);
  }

  /** All installed after the target's death: one `Down` for each installation. */
  lemma InstalledDead(n: nat, states: seq<Monitor>, moves: seq<Move>)
    requires Run(states, moves) && states[0] == Start(n).(dead := true)
    requires AtRest(states[|moves|])
    ensures states[|moves|].downs == n
  {
    var s0, s := states[0], states[|moves|];
    CountNone(n, Told);
    CountNone(n, Hits);
    RunKeepsInv(states, moves, |moves|);
    NobodyWatches(states, moves, |moves|);
    CountAll(s.stages, Told);
  }

  lemma {:induction false} NobodyWatches(states: seq<Monitor>, moves: seq<Move>, k: nat)
    requires Run(states, moves) && states[0].dead && k < |states|
    requires forall i :: 0 <= i < |states[0].stages| ==> states[0].stages[i].Fresh?
    ensures states[k].dead
    ensures forall i :: 0 <= i < |states[k].stages| ==>
              !states[k].stages[i].Watching? && !states[k].stages[i].Removed? && !states[k].stages[i].Finished?
  {
    if k > 0 {
      NobodyWatches(states, moves, k - 1);
      assert Follows(states, moves, k - 1);
    }
  }

  // ----- a demonitor in time -----

  ghost predicate Silenced(s: Monitor) {
    && !s.entry && s.downs == 0
    && forall i :: 0 <= i < |s.stages| ==>
         s.stages[i] == Watching || s.stages[i] == Removed(false) || s.stages[i] == Finished(false)
  }

  lemma SilencedStep(s: Monitor, m: Move)
    requires Silenced(s) && Enabled(s, m)
    ensures Silenced(Step(s, m))
  {
  }

  /** All installations watching and a demonitor: there is no `Down`, whatever follows. */
  lemma {:induction false} DemonitorSilences(s: Monitor, states: seq<Monitor>, moves: seq<Move>, k: nat)
    requires s.downs == 0 && forall i :: 0 <= i < |s.stages| ==> s.stages[i].Watching?
    requires Run(states, moves) && states[0] == Step(s, Demonitor) && k < |states|
    ensures Silenced(states[k])
  {
    if k > 0 {
      DemonitorSilences(s, states, moves, k - 1);
      assert Follows(states, moves, k - 1);
      SilencedStep(states[k - 1], moves[k - 1]);
    }
  }

  // ----- everything comes to rest -----

  function StageLeft(stage: Stage): nat {
    match stage
    case Fresh => 5
    case Inserted => 4
    case SawDead => 2
    case Unhooked => 1
    case Watching => 2
    case Removed(_) => 1
    case PublishedOwn => 0
    case Finished(_) => 0
  }

  /** The steps all installations and watchers have left at most. */
  function StepsLeft(stages: seq<Stage>): nat {
    if stages == [] then 0 else StepsLeft(stages[..|stages| - 1]) + StageLeft(stages[|stages| - 1])
  }

  lemma {:induction false} StepsLeftUpdate(stages: seq<Stage>, i: nat, stage: Stage)
    requires i < |stages|
    ensures StepsLeft(stages[i := stage]) + StageLeft(stages[i]) == StepsLeft(stages) + StageLeft(stage)
  {
    var n := |stages| - 1;
    if i < n {
      StepsLeftUpdate(stages[..n], i, stage);
      assert stages[i := stage][..n] == stages[..n][i := stage];
    } else {
      assert stages[i := stage][..n] == stages[..n];
    }
  }

  lemma {:induction false} AllFresh(n: nat)
    ensures StepsLeft(seq(n, _ => Fresh)) == 5 * n
  {
    if n > 0 {
      AllFresh(n - 1);
      assert seq(n, _ => Fresh)[..n - 1] == seq(n - 1, _ => Fresh);
    }
  }

  predicate Outside(m: Move) {
    m.TargetExits? || m.Demonitor?
  }

  lemma StepLowers(s: Monitor, m: Move)
    requires Enabled(s, m)
    ensures StepsLeft(Step(s, m).stages) + (if Outside(m) then 0 else 1) <= StepsLeft(s.stages)
    ensures Step(s, m).dead == (s.dead || m.TargetExits?)
  {
    if !Outside(m) {
      StepsLeftUpdate(s.stages, m.i, Step(s, m).stages[m.i]);
    }
  }

  function StepsMade(moves: seq<Move>, k: nat): nat
    requires k <= |moves|
  {
    if k == 0 then 0 else StepsMade(moves, k - 1) + if Outside(moves[k - 1]) then 0 else 1
  }

  lemma {:induction false} StepsRunOut(states: seq<Monitor>, moves: seq<Move>, k: nat)
    requires Run(states, moves) && k < |states|
    ensures StepsMade(moves, k) + StepsLeft(states[k].stages) <= StepsLeft(states[0].stages)
    ensures states[k].dead == (states[0].dead || TargetExits in moves[..k])
  {
    if k > 0 {
      StepsRunOut(states, moves, k - 1);
      assert Follows(states, moves, k - 1);
      StepLowers(states[k - 1], moves[k - 1]);
      assert moves[..k] == moves[..k - 1] + [moves[k - 1]];
    }
  }

  /**
   `n` installations and their watchers make at most `5 * n` steps; and until all are at
   rest one of them can step, unless they wait for the target, which can always exit.
   */
  lemma ComesToRest(n: nat, states: seq<Monitor>, moves: seq<Move>)
    requires Run(states, moves) && states[0] == Start(n)
    ensures StepsMade(moves, |moves|) <= 5 * n
    ensures var s := states[|moves|];
            || AtRest(s) || (exists m: Move :: !Outside(m) && Enabled(s, m))
            || (TargetExits !in moves && Enabled(s, TargetExits))
  {
    StepsRunOut(states, moves, |moves|);
    AllFresh(n);
    var s := states[|moves|];
    assert moves[..|moves|] == moves;
    if s.dead && !AtRest(s) {
      var i: nat :| i < |s.stages| && !s.stages[i].PublishedOwn? && !s.stages[i].Finished?;
      var m := match s.stages[i]
        case Fresh => Insert(i)
        case Inserted => Check(i)
        case SawDead => Clear(i)
        case Unhooked => Publish(i)
        case Watching => WatcherRemoves(i)
        case _ => WatcherConcludes(i);
      assert !Outside(m) && Enabled(s, m);
    }
  }
}
