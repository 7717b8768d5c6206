/**
 The life of one actor, from `started()` to the publication of its exit reason
 (concurrency/src/tasks/actor.rs:863-880 and 901-982, concurrency/src/exit_request.rs:18-36),
 interleaved with any number of callers that stop, shut down, kill or exit-signal it
 (concurrency/src/child_handle.rs:168-190, concurrency/src/link.rs:80-119). Every access to
 a shared slot, flag or token is one step. What callbacks and the mailbox do is left open.
 */
module ActorLifecycle {
  import opened Reasons

  // ----- callers -----

  datatype Operation = Stop | ShutDown | KillIt | LinkSignal(reason: ExitReason)

  datatype Effect = Cancel | Request(r: ExitReason) | SetSkip | Record(r: ExitReason)

  /** What an operation writes, in order. */
  function Program(op: Operation): seq<Effect> {
    match op
    case Stop => [Cancel]
    case ShutDown => [Request(Shutdown), Cancel]
    case KillIt => [Request(Kill), SetSkip, Cancel]
    case LinkSignal(reason) => [Record(reason), Cancel]
  }

  datatype Caller = Caller(op: Operation, done: nat)

  // ----- the actor -----

  /** Where the actor's task is between two steps. */
  datatype Place =
    | Starting               // inside started()
    | Started                // about to check for an early cancellation
    | Receiving              // inside recv
    | Handling(exit: bool)   // inside a message handler, or inside exit_received
    | LoopCheck              // about to check for cancellation
    | SignalSeen             // about to request Shutdown for itself
    | Leaving                // out of the loop, about to cancel its token
    | SkipCheck(early: bool) // about to read the skip flag
    | Stopping(early: bool)  // inside stopped()
    | Resolving              // about to take the requested slot
    | ResolvingLinked        // about to take the linked slot
    | Exiting(reason: ExitReason)
    | Done

  /** What has happened, for stating results; no step reads it. */
  datatype Event =
    | Cancelled
    | Requested(r: ExitReason)
    | Linked(r: ExitReason)
    | StartPanicked(m: string)
    | HandlerStarted
    | HandlerPanicked(exit: bool, m: string)
    | SkipSeen
    | StopStarted
    | StopPanicked(early: bool, m: string)
    | Published(r: ExitReason)

  /** Events in the order they happened, the latest outermost. */
  datatype History = Nothing | Then(before: History, latest: Event)

  /** `cut` and `linkedCut` are what the log was when the two slots were taken. */
  datatype Life = Life(
    place: Place, own: ExitReason, requested: Option<ExitReason>, linked: Option<ExitReason>,
    skip: bool, cancelled: bool, completion: Option<ExitReason>,
    callers: seq<Caller>, log: History, cut: History, linkedCut: History)

  datatype Move =
    | Do(i: nat)             // a caller performs its next effect
    | Return                 // the running callback returns
    | Panics(m: string)      // the running callback panics
    | ReceiveItem(exit: bool)
    | ReceiveSignal
    | ReceiveEnd             // a stop item, or a finished mailbox
    | Proceed                // any step that involves neither a callback nor the mailbox

  predicate InCallback(p: Place) {
    p.Starting? || p.Handling? || p.Stopping?
  }

  predicate Enabled(s: Life, m: Move) {
    match m
    case Do(i) => i < |s.callers| && s.callers[i].done < |Program(s.callers[i].op)|
    case Return => InCallback(s.place)
    case Panics(_) => InCallback(s.place)
    case ReceiveItem(_) => s.place.Receiving?
    case ReceiveSignal => s.place.Receiving?
    case ReceiveEnd => s.place.Receiving?
    case Proceed => !InCallback(s.place) && !s.place.Receiving? && !s.place.Done?
  }

  function Perform(s: Life, e: Effect): Life {
    match e
    case Cancel => s.(cancelled := true, log := Then(s.log, Cancelled))
    case Request(r) => s.(requested := Some(r), log := Then(s.log, Requested(r)))
    case SetSkip => s.(skip := true)
    case Record(r) =>
      s.(linked := if s.linked.None? then Some(r) else s.linked, log := Then(s.log, Linked(r)))
  }

  function ReturnStep(s: Life): Life
    requires InCallback(s.place)
  {
    match s.place
    case Starting => s.(place := Started)
    case Handling(_) => s.(place := LoopCheck)
    case Stopping(_) => s.(place := Resolving)
  }

  function HandlerText(exit: bool, m: string): string {
    (if exit then "panic in exit_received: " else "panic in handler: ") + m
  }

  function PanicStep(s: Life, m: string): Life
    requires InCallback(s.place)
  {
    match s.place
    case Starting =>
      s.(cancelled := true, place := Exiting(Panic("panic in started(): " + m)),
         log := Then(Then(s.log, StartPanicked(m)), Cancelled))
    case Handling(exit) =>
      s.(own := Panic(HandlerText(exit, m)), place := Leaving, log := Then(s.log, HandlerPanicked(exit, m)))
    case Stopping(early) =>
      s.(own := if !early && !s.own.IsAbnormal() then Panic("panic in stopped(): " + m) else s.own,
         place := Resolving, log := Then(s.log, StopPanicked(early, m)))
  }

  function ProceedStep(s: Life): Life
    requires Enabled(s, Proceed)
  {
    match s.place
    case Started => s.(place := if s.cancelled then SkipCheck(true) else Receiving)
    case LoopCheck => s.(place := if s.cancelled then Leaving else Receiving)
    case SignalSeen => Perform(s.(place := Leaving), Request(Shutdown))
    case Leaving => Perform(s.(place := SkipCheck(false)), Cancel)
    case SkipCheck(early) =>
      if s.skip then s.(place := Resolving, log := Then(s.log, SkipSeen))
      else s.(place := Stopping(early), log := Then(s.log, StopStarted))
    case Resolving =>
      var next :=
        if s.requested.Some? then Exiting(s.requested.value)
        else if s.own.Normal? then ResolvingLinked
        else Exiting(s.own);
      s.(place := next, requested := None, cut := s.log)
    case ResolvingLinked =>
      s.(place := Exiting(if s.linked.Some? then s.linked.value else s.own), linked := None, linkedCut := s.log)
    case Exiting(reason) => s.(place := Done, completion := Some(reason), log := Then(s.log, Published(reason)))
  }

  function Step(s: Life, m: Move): Life
    requires Enabled(s, m)
  {
    match m
    case Do(i) =>
      var c := s.callers[i];
      Perform(s.(callers := s.callers[i := c.(done := c.done + 1)]), Program(c.op)[c.done])
    case Return => ReturnStep(s)
    case Panics(text) => PanicStep(s, text)
    case ReceiveItem(exit) => s.(place := Handling(exit), log := Then(s.log, HandlerStarted))
    case ReceiveSignal => s.(place := SignalSeen)
    case ReceiveEnd => s.(place := Leaving)
    case Proceed => ProceedStep(s)
  }

  function Born(operations: seq<Operation>): Life {
    Life(Starting, Normal, None, None, false, false, None,
         seq(|operations|, i requires 0 <= i < |operations| => Caller(operations[i], 0)), Nothing, Nothing, Nothing)
  }

  ghost predicate Possible(s: Life, moves: seq<Move>)
    decreases |moves|
  {
    moves == [] || (Enabled(s, moves[0]) && Possible(Step(s, moves[0]), moves[1..]))
  }

  ghost function After(s: Life, moves: seq<Move>): Life
    requires Possible(s, moves)
    decreases |moves|
  {
    if moves == [] then s else After(Step(s, moves[0]), moves[1..])
  }

  // ----- reading the log -----

  function LastRequest(log: History): Option<ExitReason> {
    match log
    case Nothing => None
    case Then(before, Requested(r)) => Some(r)
    case Then(before, _) => LastRequest(before)
  }

  function FirstLinked(log: History): Option<ExitReason> {
    match log
    case Nothing => None
    case Then(before, e) =>
      if FirstLinked(before).Some? then FirstLinked(before) else if e.Linked? then Some(e.r) else None
  }

  function StartPanic(log: History): Option<string> {
    match log
    case Nothing => None
    case Then(before, e) => if e.StartPanicked? then Some(e.m) else StartPanic(before)
  }

  /** The actor's own failure: its first panic, unless that was an early `stopped()`. */
  function OwnPanic(log: History): Option<string> {
    match log
    case Nothing => None
    case Then(before, e) =>
      if OwnPanic(before).Some? then OwnPanic(before)
      else if e.HandlerPanicked? then Some((if e.exit then "panic in exit_received: " else "panic in handler: ") + e.m)
      else if e.StopPanicked? && !e.early then Some("panic in stopped(): " + e.m)
      else None
  }

  function Count(log: History, e: Event): nat {
    match log
    case Nothing => 0
    case Then(before, latest) => Count(before, e) + if latest == e then 1 else 0
  }

  /** Handlers started when the token was already cancelled. */
  function LateHandlers(log: History): nat {
    match log
    case Nothing => 0
    case Then(before, e) =>
      LateHandlers(before) + if e.HandlerStarted? && Count(before, Cancelled) > 0 then 1 else 0
  }

  function Publications(log: History): nat {
    match log
    case Nothing => 0
    case Then(before, e) => Publications(before) + if e.Published? then 1 else 0
  }

  /** Somebody has requested this reason. */
  predicate Asked(log: History, r: ExitReason) {
    log.Then? && (log.latest == Requested(r) || Asked(log.before, r))
  }

  predicate Killed(log: History) {
    Asked(log, Kill)
  }

  /** The reason the rules give: who wins depends only on what happened before each slot was taken. */
  function Verdict(log: History, cut: History, linkedCut: History): ExitReason {
    if StartPanic(log).Some? then Panic("panic in started(): " + StartPanic(log).value)
    else if LastRequest(cut).Some? then LastRequest(cut).value
    else if OwnPanic(log).Some? then Panic(OwnPanic(log).value)
    else if FirstLinked(linkedCut).Some? then FirstLinked(linkedCut).value
    else Normal
  }

  // ----- invariant -----

  predicate Undecided(p: Place) {
    !p.ResolvingLinked? && !p.Exiting? && !p.Done?
  }

  predicate BeforeStopped(p: Place) {
    Undecided(p) && !p.Stopping? && !p.Resolving?
  }

  predicate InLoop(p: Place) {
    p.Receiving? || p.Handling? || p.LoopCheck?
  }

  /** The slots and flags say what the log says, until they are taken. */
  ghost predicate SlotsOk(s: Life) {
    && (s.cancelled <==> Count(s.log, Cancelled) > 0)
    && (Undecided(s.place) ==> s.requested == LastRequest(s.log))
    && (Undecided(s.place) || s.place.ResolvingLinked? ==> s.linked == FirstLinked(s.log))
    && (s.skip ==> LastRequest(s.log).Some? && Killed(s.log))
  }

  ghost predicate OwnOk(s: Life) {
    && s.own == (if OwnPanic(s.log).Some? then Panic(OwnPanic(s.log).value) else Normal)
    && (s.place.Starting? || s.place.Started? || InLoop(s.place) ==> s.own.Normal?)
  }

  ghost predicate CutsOk(s: Life) {
    && (Undecided(s.place) ==> StartPanic(s.log).None?)
    && (s.place.ResolvingLinked? ==>
          StartPanic(s.log).None? && LastRequest(s.cut).None? && OwnPanic(s.log).None?)
    && (s.place.Exiting? ==> s.place.reason == Verdict(s.log, s.cut, s.linkedCut))
    && (s.place.Done? ==> s.completion == Some(Verdict(s.log, s.cut, s.linkedCut)))
    && (s.completion.Some? <==> s.place.Done?)
    && Publications(s.log) == (if s.place.Done? then 1 else 0)
    && (s.place.SkipCheck? || s.place.Stopping? || s.place.Resolving? || !Undecided(s.place) ==> s.cancelled)
  }

  ghost predicate CountsOk(s: Life) {
    && (BeforeStopped(s.place) ==> Count(s.log, StopStarted) == 0 && Count(s.log, SkipSeen) == 0)
    && (!BeforeStopped(s.place) && StartPanic(s.log).None? ==>
          Count(s.log, StopStarted) + Count(s.log, SkipSeen) == 1)
    && Count(s.log, StopStarted) + Count(s.log, SkipSeen) <= 1
    && (StartPanic(s.log).Some? ==> Count(s.log, StopStarted) == 0)
    && (Count(s.log, SkipSeen) > 0 && !Undecided(s.place) ==> LastRequest(s.cut).Some?)
    && (Count(s.log, SkipSeen) > 0 ==> s.skip && StartPanic(s.log).None?)
    && (s.place.Starting? || s.place.Started? || s.place.Receiving? ==> LateHandlers(s.log) == 0)
    && LateHandlers(s.log) <= (if Count(s.log, Cancelled) > 0 then 1 else 0)
  }

  ghost predicate CallerOk(s: Life, i: nat)
    requires i < |s.callers|
  {
    s.callers[i].op.KillIt? && s.callers[i].done > 0 ==> LastRequest(s.log).Some? && Killed(s.log)
  }

  ghost predicate Core(s: Life) {
    SlotsOk(s) && OwnOk(s) && CutsOk(s) && CountsOk(s)
  }

  ghost predicate Inv(s: Life) {
    && Core(s)
    && forall i: nat :: i < |s.callers| ==> CallerOk(s, i)
  }

  lemma CancelKeeps(s: Life)
    requires Core(s)
    ensures Core(Perform(s, Cancel))
  {
  }

  lemma RequestKeeps(s: Life, r: ExitReason)
    requires Core(s)
    ensures Core(Perform(s, Request(r)))
  {
    var s' := Perform(s, Request(r));
    assert OwnOk(s') && SlotsOk(s');
    assert CutsOk(s');
  }

  lemma RecordKeeps(s: Life, r: ExitReason)
    requires Core(s)
    ensures Core(Perform(s, Record(r)))
  {
    var s' := Perform(s, Record(r));
    assert OwnOk(s') && SlotsOk(s');
    assert CutsOk(s');
  }

  lemma PerformKeeps(s: Life, e: Effect)
    requires Core(s) && (e.SetSkip? ==> LastRequest(s.log).Some? && Killed(s.log))
    ensures Core(Perform(s, e))
    ensures LastRequest(s.log).Some? || e.Request? ==> LastRequest(Perform(s, e).log).Some?
    ensures Killed(s.log) || e == Request(Kill) ==> Killed(Perform(s, e).log)
  {
    match e
    case Cancel => CancelKeeps(s);
    case Request(r) => RequestKeeps(s, r);
    case Record(r) => RecordKeeps(s, r);
    case SetSkip =>
  }

  lemma CallersKeep(s: Life, s': Life)
    requires forall i: nat :: i < |s.callers| ==> CallerOk(s, i)
    requires s'.callers == s.callers
    requires (LastRequest(s.log).Some? ==> LastRequest(s'.log).Some?) && (Killed(s.log) ==> Killed(s'.log))
    ensures forall i: nat :: i < |s'.callers| ==> CallerOk(s', i)
  {
    forall i: nat | i < |s'.callers| ensures CallerOk(s', i) {
      assert CallerOk(s, i);
    }
  }

  lemma ProgramOrder(c: Caller)
    requires c.done < |Program(c.op)|
    ensures var e := Program(c.op)[c.done];
            (e.SetSkip? ==> c.op.KillIt? && c.done > 0) && (c.op.KillIt? && c.done == 0 ==> e == Request(Kill))
  {
  }

  lemma DoKeepsInv(s: Life, i: nat)
    requires Inv(s) && Enabled(s, Do(i))
    ensures Inv(Step(s, Do(i)))
  {
    var c := s.callers[i];
    var e := Program(c.op)[c.done];
    var s1 := s.(callers := s.callers[i := c.(done := c.done + 1)]);
    assert CallerOk(s, i);
    ProgramOrder(c);
    PerformKeeps(s1, e);
    var s' := Perform(s1, e);
    assert s'.callers == s1.callers;
    forall k: nat | k < |s'.callers| ensures CallerOk(s', k) {
      assert CallerOk(s, k);
    }
  }

  lemma StartPanicKeepsInv(s: Life, m: string)
    requires Inv(s) && s.place.Starting?
    ensures Inv(PanicStep(s, m))
  {
    var log1 := Then(s.log, StartPanicked(m));
    assert StartPanic(log1) == Some(m) && LastRequest(log1) == LastRequest(s.log);
    assert Killed(log1) <==> Killed(s.log);
    CallersKeep(s, PanicStep(s, m));
  }

  lemma HandlerPanicKeepsInv(s: Life, m: string)
    requires Inv(s) && s.place.Handling?
    ensures Inv(PanicStep(s, m))
  {
    CallersKeep(s, PanicStep(s, m));
  }

  lemma StopPanicKeepsInv(s: Life, m: string)
    requires Inv(s) && s.place.Stopping?
    ensures Inv(PanicStep(s, m))
  {
    CallersKeep(s, PanicStep(s, m));
  }

  lemma SkipCheckKeepsInv(s: Life)
    requires Inv(s) && s.place.SkipCheck?
    ensures Inv(ProceedStep(s))
  {
    var s' := ProceedStep(s);
    CallersKeep(s, s');
  }

  lemma ResolveKeepsInv(s: Life)
    requires Inv(s) && (s.place.Resolving? || s.place.ResolvingLinked? || s.place.Exiting?)
    ensures Inv(ProceedStep(s))
  {
    var s' := ProceedStep(s);
    CallersKeep(s, s');
  }

  lemma CheckKeepsInv(s: Life)
    requires Inv(s) && (s.place.Started? || s.place.LoopCheck?)
    ensures Inv(ProceedStep(s))
  {
    CallersKeep(s, ProceedStep(s));
  }

  lemma SelfRequestKeepsInv(s: Life)
    requires Inv(s) && s.place.SignalSeen?
    ensures Inv(ProceedStep(s))
  {
    PerformKeeps(s.(place := Leaving), Request(Shutdown));
    CallersKeep(s, ProceedStep(s));
  }

  lemma SelfCancelKeepsInv(s: Life)
    requires Inv(s) && s.place.Leaving?
    ensures Inv(ProceedStep(s))
  {
    PerformKeeps(s, Cancel);
    var s1 := Perform(s, Cancel);
    assert s1.place.Leaving? && s1.cancelled;
    assert ProceedStep(s) == s1.(place := SkipCheck(false));
    CallersKeep(s, ProceedStep(s));
  }

  lemma ProceedKeepsInv(s: Life)
    requires Inv(s) && Enabled(s, Proceed)
    ensures Inv(ProceedStep(s))
  {
    match s.place
    case SkipCheck(_) => SkipCheckKeepsInv(s);
    case SignalSeen => SelfRequestKeepsInv(s);
    case Leaving => SelfCancelKeepsInv(s);
    case Started => CheckKeepsInv(s);
    case LoopCheck => CheckKeepsInv(s);
    case _ => ResolveKeepsInv(s);
  }

  lemma ReturnKeepsInv(s: Life)
    requires Inv(s) && InCallback(s.place)
    ensures Inv(ReturnStep(s))
  {
    CallersKeep(s, ReturnStep(s));
  }

  lemma EndKeepsInv(s: Life, m: Move)
    requires Inv(s) && s.place.Receiving? && (m.ReceiveSignal? || m.ReceiveEnd?)
    ensures Inv(Step(s, m))
  {
    CallersKeep(s, Step(s, m));
  }

  lemma HandlerKeepsInv(s: Life, exit: bool)
    requires Inv(s) && s.place.Receiving?
    ensures Inv(Step(s, ReceiveItem(exit)))
  {
    CallersKeep(s, Step(s, ReceiveItem(exit)));
  }

  lemma StepKeepsInv(s: Life, m: Move)
    requires Inv(s) && Enabled(s, m)
    ensures Inv(Step(s, m))
  {
    match m
    case Do(i) => DoKeepsInv(s, i);
    case Panics(text) =>
      if s.place.Starting? {
        StartPanicKeepsInv(s, text);
      } else if s.place.Handling? {
        HandlerPanicKeepsInv(s, text);
      } else {
        StopPanicKeepsInv(s, text);
      }
    case Proceed => ProceedKeepsInv(s);
    case ReceiveItem(exit) => HandlerKeepsInv(s, exit);
    case Return => ReturnKeepsInv(s);
    case _ => EndKeepsInv(s, m);
  }

  lemma {:induction false} RunKeepsInv(s: Life, moves: seq<Move>)
    requires Inv(s) && Possible(s, moves)
    ensures Inv(After(s, moves))
    decreases |moves|
  {
    if moves != [] {
      StepKeepsInv(s, moves[0]);
      RunKeepsInv(Step(s, moves[0]), moves[1..]);
    }
  }

  lemma BornInv(operations: seq<Operation>)
    ensures Inv(Born(operations))
  {
    var s := Born(operations);
    forall i: nat | i < |s.callers| ensures CallerOk(s, i) {}
  }

  /** `log` goes on from `earlier`. */
  predicate Continues(log: History, earlier: History) {
    log == earlier || (log.Then? && Continues(log.before, earlier))
  }

  lemma PerformGrows(s: Life, e: Effect)
    ensures var s' := Perform(s, e);
            && (s'.log == s.log || (s'.log.Then? && s'.log.before == s.log))
            && s'.cut == s.cut && s'.linkedCut == s.linkedCut
  {
  }

  /** A step adds at most two events, and takes a cut only of the present log. */
  predicate Grown(s: Life, s': Life) {
    && (|| s'.log == s.log
        || (s'.log.Then? && s'.log.before == s.log)
        || (s'.log.Then? && s'.log.before.Then? && s'.log.before.before == s.log))
    && (s'.cut == s.cut || s'.cut == s.log) && (s'.linkedCut == s.linkedCut || s'.linkedCut == s.log)
  }

  lemma GrownContinues(s: Life, s': Life)
    requires Grown(s, s') && Continues(s.log, s.cut) && Continues(s.log, s.linkedCut)
    ensures Continues(s'.log, s'.cut) && Continues(s'.log, s'.linkedCut)
  {
    if s'.log.Then? && s'.log.before.Then? && s'.log.before.before == s.log {
      assert Continues(s'.log.before, s'.cut) && Continues(s'.log.before, s'.linkedCut);
    }
  }

  lemma ProceedGrows(s: Life)
    requires Enabled(s, Proceed)
    ensures Grown(s, ProceedStep(s))
  {
  }

  lemma StepGrows(s: Life, m: Move)
    requires Enabled(s, m)
    ensures Grown(s, Step(s, m))
  {
    if m.Do? {
      var c := s.callers[m.i];
      PerformGrows(s.(callers := s.callers[m.i := c.(done := c.done + 1)]), Program(c.op)[c.done]);
    } else if m.Proceed? {
      ProceedGrows(s);
    }
  }

  lemma {:induction false} CutsArePast(s: Life, moves: seq<Move>)
    requires Possible(s, moves) && Continues(s.log, s.cut) && Continues(s.log, s.linkedCut)
    ensures var s' := After(s, moves); Continues(s'.log, s'.cut) && Continues(s'.log, s'.linkedCut)
    decreases |moves|
  {
    if moves != [] {
      StepGrows(s, moves[0]);
      GrownContinues(s, Step(s, moves[0]));
      CutsArePast(Step(s, moves[0]), moves[1..]);
    }
  }

  // ----- main results -----

  /**
   Every interleaving. Once published, the reason is: the panic of `started()` if there was
   one, else the last reason requested before the requested slot was taken, else the actor's
   own first panic, else the first linked reason recorded before the linked slot was taken,
   else `Normal`. It is published at most once.
   */
  lemma ReportedReason(operations: seq<Operation>, moves: seq<Move>)
    requires Possible(Born(operations), moves)
    ensures var s := After(Born(operations), moves);
            && (s.completion.Some? ==> s.completion.value == Verdict(s.log, s.cut, s.linkedCut))
            && Continues(s.log, s.cut) && Continues(s.log, s.linkedCut)
            && Publications(s.log) == if s.completion.Some? then 1 else 0
  {
    BornInv(operations);
    RunKeepsInv(Born(operations), moves);
    CutsArePast(Born(operations), moves);
  }

  /**
   An actor that has published its reason has run `stopped()` once or has seen the skip flag
   once, unless `started()` panicked, when it has done neither; and if nobody killed it, it has run
   `stopped()`. An actor that saw the skip flag was killed and reports a requested reason,
   whatever panics or link signals it met. Once cancelled, it starts at most one more handler,
   and it is cancelled when it has published.
   */
  lemma CallbackDiscipline(operations: seq<Operation>, moves: seq<Move>)
    requires Possible(Born(operations), moves)
    ensures var s := After(Born(operations), moves);
            && Count(s.log, StopStarted) + Count(s.log, SkipSeen) <= 1
            && (StartPanic(s.log).Some? ==> Count(s.log, StopStarted) == 0)
            && (s.completion.Some? && StartPanic(s.log).None? ==>
                  Count(s.log, StopStarted) + Count(s.log, SkipSeen) == 1)
            && (s.completion.Some? && StartPanic(s.log).None? && !Killed(s.log) ==> Count(s.log, StopStarted) == 1)
            && (Count(s.log, SkipSeen) > 0 ==> Killed(s.log))
            && (Count(s.log, SkipSeen) > 0 && s.completion.Some? ==>
                  Some(s.completion.value) == LastRequest(s.cut))
            && LateHandlers(s.log) <= 1
            && (s.completion.Some? ==> s.cancelled)
  {
    BornInv(operations);
    RunKeepsInv(Born(operations), moves);
  }

  /** Nothing changes a published reason. */
  lemma {:induction false} CompletionIsFinal(s: Life, moves: seq<Move>)
    requires s.place.Done? && Possible(s, moves)
    ensures After(s, moves).completion == s.completion && After(s, moves).place.Done?
    decreases |moves|
  {
    if moves != [] {
      CompletionIsFinal(Step(s, moves[0]), moves[1..]);
    }
  }

  /** From `s` to `s'` the log records a callback exactly if it is entered, and a reason exactly if it is published. */
  predicate Recorded(s: Life, s': Life) {
    && Count(s'.log, StopStarted) ==
         Count(s.log, StopStarted) + (if s'.place.Stopping? && !s.place.Stopping? then 1 else 0)
    && Count(s'.log, HandlerStarted) ==
         Count(s.log, HandlerStarted) + (if s'.place.Handling? && !s.place.Handling? then 1 else 0)
    && Publications(s'.log) == Publications(s.log) + (if s'.place.Done? && !s.place.Done? then 1 else 0)
    && Count(s'.log, SkipSeen) == Count(s.log, SkipSeen) + (if s.place.SkipCheck? && s'.place.Resolving? then 1 else 0)
  }

  lemma PerformRecorded(s: Life, e: Effect)
    ensures Recorded(s, Perform(s, e))
  {
    var s' := Perform(s, e);
    assert s'.place == s.place;
    if s'.log != s.log {
      assert s'.log.before == s.log && !s'.log.latest.Published?;
      assert s'.log.latest != StopStarted && s'.log.latest != HandlerStarted && s'.log.latest != SkipSeen;
    }
  }

  lemma CallerRecorded(s: Life, m: Move)
    requires Enabled(s, m) && m.Do?
    ensures Recorded(s, Step(s, m))
  {
    var c := s.callers[m.i];
    var e := Program(c.op)[c.done];
    var s1 := s.(callers := s.callers[m.i := c.(done := c.done + 1)]);
    PerformRecorded(s1, e);
    SameRecord(s, s1, Perform(s1, e));
  }

  lemma SameRecord(s: Life, s1: Life, s': Life)
    requires s1.log == s.log && s1.place == s.place && Recorded(s1, s')
    ensures Recorded(s, s')
  {
  }

  lemma OwnEffectRecorded(s: Life)
    requires s.place.SignalSeen? || s.place.Leaving?
    ensures Recorded(s, ProceedStep(s))
  {
  }

  lemma ProceedRecorded(s: Life)
    requires Enabled(s, Proceed)
    ensures Recorded(s, ProceedStep(s))
  {
    if s.place.SignalSeen? || s.place.Leaving? {
      OwnEffectRecorded(s);
    } else if !s.place.SkipCheck? && !s.place.Exiting? {
      assert ProceedStep(s).log == s.log;
    }
  }

  lemma PanicRecorded(s: Life, m: string)
    requires InCallback(s.place)
    ensures var s' := PanicStep(s, m);
            && Recorded(s, s')
            && (s.place.Starting? ==> StartPanic(s'.log) == Some(m))
            && (s.place.Handling? ==> s'.log == Then(s.log, HandlerPanicked(s.place.exit, m)))
            && (s.place.Stopping? ==> s'.log == Then(s.log, StopPanicked(s.place.early, m)))
  {
    if s.place.Starting? {
      var log1 := Then(s.log, StartPanicked(m));
      assert Count(log1, StopStarted) == Count(s.log, StopStarted);
      assert Count(log1, HandlerStarted) == Count(s.log, HandlerStarted);
      assert Count(log1, SkipSeen) == Count(s.log, SkipSeen) && Publications(log1) == Publications(s.log);
    }
  }

  /** The log is true: callbacks when they are entered, panics with their texts, skipping, and the publication. */
  lemma EventsAreTrue(s: Life, m: Move)
    requires Enabled(s, m)
    ensures var s' := Step(s, m);
            && Recorded(s, s')
            && (s'.place.Handling? && !s.place.Handling? <==> m.ReceiveItem?)
            && (m.Panics? && s.place.Starting? ==> StartPanic(s'.log) == Some(m.m))
            && (m.Panics? && s.place.Handling? ==> s'.log == Then(s.log, HandlerPanicked(s.place.exit, m.m)))
            && (m.Panics? && s.place.Stopping? ==> s'.log == Then(s.log, StopPanicked(s.place.early, m.m)))
  {
    match m
    case Do(_) =>
      CallerRecorded(s, m);
      CallerKeepsPlace(s, m);
    case Proceed => ProceedRecorded(s);
    case Panics(text) => PanicRecorded(s, text);
    case _ =>
  }

  // ----- what a kill promises -----

  lemma {:induction false} KilledIsRequested(log: History)
    requires Killed(log)
    ensures LastRequest(log).Some?
  {
    if log.latest != Requested(Kill) {
      KilledIsRequested(log.before);
    }
  }

  /**
   An actor killed before its requested slot was taken reports `Kill` if and only if
   `started()` did not panic and nobody requested anything else after the kill.
   */
  lemma KillExactly(operations: seq<Operation>, moves: seq<Move>)
    requires Possible(Born(operations), moves)
    ensures var s := After(Born(operations), moves);
            Killed(s.cut) && s.completion.Some? ==>
              (s.completion.value == Kill <==> StartPanic(s.log).None? && LastRequest(s.cut) == Some(Kill))
  {
    ReportedReason(operations, moves);
    var s := After(Born(operations), moves);
    if Killed(s.cut) {
      KilledIsRequested(s.cut);
    }
  }

  lemma Onward(s: Life, m: Move, rest: seq<Move>)
    requires Enabled(s, m) && Possible(Step(s, m), rest)
    ensures Possible(s, [m] + rest) && After(s, [m] + rest) == After(Step(s, m), rest)
  {
    assert ([m] + rest)[1..] == rest;
  }

  /** The kill, and then the shutdown request of another caller, while `started()` runs. */
  lemma KillThenShutdown(s: Life) returns (moves: seq<Move>)
    requires s == Born([KillIt, ShutDown])
    ensures Possible(s, moves)
    ensures var s' := After(s, moves);
            && s'.place == Starting && s'.cancelled && s'.skip && s'.requested == Some(Shutdown)
            && Killed(s'.log) && s'.completion == None
  {
    var s1 := Step(s, Do(0));
    assert s1.callers == [Caller(KillIt, 1), Caller(ShutDown, 0)];
    var s2 := Step(s1, Do(0));
    assert s2.callers == [Caller(KillIt, 2), Caller(ShutDown, 0)];
    var s3 := Step(s2, Do(0));
    var s4 := Step(s3, Do(1));
    assert Killed(s1.log) && s3.log == Then(s1.log, Cancelled);
    assert Possible(s4, []) && After(s4, []) == s4;
    Onward(s3, Do(1), []);
    Onward(s2, Do(0), [Do(1)] + []);
    Onward(s1, Do(0), [Do(0)] + ([Do(1)] + []));
    Onward(s, Do(0), [Do(0)] + ([Do(0)] + ([Do(1)] + [])));
    moves := [Do(0)] + ([Do(0)] + ([Do(0)] + ([Do(1)] + [])));
  }

  /** `started()` returns, and the actor leaves by the early way out. */
  lemma EarlyExit(s: Life) returns (moves: seq<Move>)
    requires s.place == Starting && s.cancelled && s.skip && s.requested == Some(Shutdown)
    ensures Possible(s, moves) && After(s, moves).completion == Some(Shutdown)
    ensures After(s, moves).cut == Then(s.log, SkipSeen)
  {
    var s1 := Step(s, Return);
    var s2 := Step(s1, Proceed);
    var s3 := Step(s2, Proceed);
    var s4 := Step(s3, Proceed);
    var s5 := Step(s4, Proceed);
    assert Possible(s5, []) && After(s5, []) == s5;
    Onward(s4, Proceed, []);
    Onward(s3, Proceed, [Proceed] + []);
    Onward(s2, Proceed, [Proceed] + ([Proceed] + []));
    Onward(s1, Proceed, [Proceed] + ([Proceed] + ([Proceed] + [])));
    Onward(s, Return, [Proceed] + ([Proceed] + ([Proceed] + ([Proceed] + []))));
    moves := [Return] + ([Proceed] + ([Proceed] + ([Proceed] + ([Proceed] + []))));
  }

  lemma {:induction false} Together(s: Life, first: seq<Move>, second: seq<Move>)
    requires Possible(s, first) && Possible(After(s, first), second)
    ensures Possible(s, first + second) && After(s, first + second) == After(After(s, first), second)
    decreases |first|
  {
    if first == [] {
      assert first + second == second;
    } else {
      assert (first + second)[1..] == first[1..] + second;
      Together(Step(s, first[0]), first[1..], second);
    }
  }

  /** A killed actor that reports `Shutdown`: a later shutdown request overwrites the kill. */
  lemma KillOverwritten() returns (moves: seq<Move>)
    ensures Possible(Born([KillIt, ShutDown]), moves)
    ensures var s := After(Born([KillIt, ShutDown]), moves);
            Killed(s.cut) && s.completion == Some(Shutdown)
  {
    var s := Born([KillIt, ShutDown]);
    var first := KillThenShutdown(s);
    var second := EarlyExit(After(s, first));
    Together(s, first, second);
    moves := first + second;
  }

  // ----- what a plain stop promises -----

  /** Nothing but cancellations, handlers, `stopped()` and the publication has happened. */
  predicate Plain(log: History) {
    log.Then? ==>
      && (log.latest.Cancelled? || log.latest.HandlerStarted? || log.latest.StopStarted? || log.latest.Published?)
      && Plain(log.before)
  }

  lemma {:induction false} PlainReads(log: History)
    requires Plain(log)
    ensures LastRequest(log).None? && FirstLinked(log).None? && StartPanic(log).None? && OwnPanic(log).None?
    ensures !Killed(log)
  {
    if log.Then? {
      PlainReads(log.before);
    }
  }

  ghost predicate PlainLife(s: Life) {
    && Plain(s.log) && Plain(s.cut) && Plain(s.linkedCut) && !s.skip && !s.place.SignalSeen?
    && forall i :: 0 <= i < |s.callers| ==> s.callers[i].op.Stop?
  }

  predicate Undramatic(m: Move) {
    !m.Panics? && !m.ReceiveSignal?
  }

  lemma PlainStep(s: Life, m: Move)
    requires PlainLife(s) && Enabled(s, m) && Undramatic(m)
    ensures PlainLife(Step(s, m))
  {
    if m.Do? {
      assert s.callers[m.i].op.Stop?;
      assert Step(s, m).log == Then(s.log, Cancelled);
    }
  }

  lemma {:induction false} PlainRun(s: Life, moves: seq<Move>)
    requires PlainLife(s) && Possible(s, moves) && forall i :: 0 <= i < |moves| ==> Undramatic(moves[i])
    ensures PlainLife(After(s, moves))
    decreases |moves|
  {
    if moves != [] {
      PlainStep(s, moves[0]);
      PlainRun(Step(s, moves[0]), moves[1..]);
    }
  }

  /** Only stopped, never signalled, and without a panic: `stopped()` has run and the reason is `Normal`. */
  lemma PlainStop(operations: seq<Operation>, moves: seq<Move>)
    requires Possible(Born(operations), moves)
    requires forall i :: 0 <= i < |operations| ==> operations[i].Stop?
    requires forall i :: 0 <= i < |moves| ==> Undramatic(moves[i])
    ensures var s := After(Born(operations), moves);
            s.completion.Some? ==> s.completion == Some(Normal) && Count(s.log, StopStarted) == 1
  {
    PlainRun(Born(operations), moves);
    ReportedReason(operations, moves);
    CallbackDiscipline(operations, moves);
    var s := After(Born(operations), moves);
    PlainReads(s.log);
    PlainReads(s.cut);
    PlainReads(s.linkedCut);
  }

  // ----- what a finished call has done -----

  /** Written out per operation: what its caller has seen to after so many effects. */
  ghost predicate CallDone(s: Life, c: Caller) {
    match c.op
    case Stop => c.done >= 1 ==> s.cancelled
    case ShutDown => (c.done >= 1 ==> Asked(s.log, Shutdown)) && (c.done >= 2 ==> s.cancelled)
    case KillIt => (c.done >= 1 ==> Asked(s.log, Kill)) && (c.done >= 2 ==> s.skip) && (c.done >= 3 ==> s.cancelled)
    case LinkSignal(_) => (c.done >= 1 ==> FirstLinked(s.log).Some?) && (c.done >= 2 ==> s.cancelled)
  }

  /** Flags stay set and events stay in the log. */
  ghost predicate Later(s: Life, s': Life) {
    && (s.cancelled ==> s'.cancelled) && (s.skip ==> s'.skip)
    && (Asked(s.log, Shutdown) ==> Asked(s'.log, Shutdown)) && (Asked(s.log, Kill) ==> Asked(s'.log, Kill))
    && (FirstLinked(s.log).Some? ==> FirstLinked(s'.log).Some?)
  }

  lemma GrownLater(s: Life, s': Life)
    requires Grown(s, s') && (s.cancelled ==> s'.cancelled) && (s.skip ==> s'.skip)
    ensures Later(s, s')
  {
    if s'.log.Then? && s'.log.before.Then? && s'.log.before.before == s.log {
      var log1 := s'.log.before;
      assert Asked(s.log, Shutdown) ==> Asked(log1, Shutdown);
      assert Asked(s.log, Kill) ==> Asked(log1, Kill);
      assert FirstLinked(s.log).Some? ==> FirstLinked(log1).Some?;
    }
  }

  lemma StepFlags(s: Life, m: Move)
    requires Enabled(s, m)
    ensures (s.cancelled ==> Step(s, m).cancelled) && (s.skip ==> Step(s, m).skip)
  {
  }

  lemma CallStep(s: Life, i: nat)
    requires Enabled(s, Do(i)) && CallDone(s, s.callers[i])
    ensures CallDone(Step(s, Do(i)), Step(s, Do(i)).callers[i])
  {
    StepFlags(s, Do(i));
    StepGrows(s, Do(i));
    GrownLater(s, Step(s, Do(i)));
  }

  lemma StepCalls(s: Life, m: Move, i: nat)
    requires Enabled(s, m) && i < |s.callers| && CallDone(s, s.callers[i])
    ensures i < |Step(s, m).callers| && CallDone(Step(s, m), Step(s, m).callers[i])
  {
    if m == Do(i) {
      CallStep(s, i);
    } else {
      StepFlags(s, m);
      StepGrows(s, m);
      GrownLater(s, Step(s, m));
      CallersStay(s, m, i);
    }
  }

  lemma CallersStay(s: Life, m: Move, i: nat)
    requires Enabled(s, m) && i < |s.callers| && m != Do(i)
    ensures i < |Step(s, m).callers| && Step(s, m).callers[i] == s.callers[i]
  {
  }

  lemma {:induction false} RunCalls(s: Life, moves: seq<Move>, i: nat)
    requires Possible(s, moves) && i < |s.callers| && CallDone(s, s.callers[i])
    ensures i < |After(s, moves).callers| && CallDone(After(s, moves), After(s, moves).callers[i])
    decreases |moves|
  {
    if moves != [] {
      StepCalls(s, moves[0], i);
      RunCalls(Step(s, moves[0]), moves[1..], i);
    }
  }

  /**
   A finished call has cancelled the actor; a finished shutdown or kill has requested its
   reason before, a finished kill has set the skip flag, and after a finished link signal a
   linked reason is on record.
   */
  lemma FinishedCalls(operations: seq<Operation>, moves: seq<Move>, i: nat)
    requires Possible(Born(operations), moves) && i < |operations|
    requires i < |After(Born(operations), moves).callers|
    requires var c := After(Born(operations), moves).callers[i]; c.done == |Program(c.op)|
    ensures var s := After(Born(operations), moves);
            var op := s.callers[i].op;
            && s.cancelled
            && (op.ShutDown? ==> Asked(s.log, Shutdown)) && (op.KillIt? ==> Asked(s.log, Kill) && s.skip)
            && (op.LinkSignal? ==> FirstLinked(s.log).Some?)
  {
    RunCalls(Born(operations), moves, i);
  }

  // ----- signals and early cancellation -----

  /** An operating-system signal makes the actor request a shutdown of itself before it goes on. */
  lemma {:induction false} SignalAsks(s: Life, moves: seq<Move>)
    requires (s.place.SignalSeen? || Asked(s.log, Shutdown)) && Possible(s, moves)
    ensures After(s, moves).place.SignalSeen? || Asked(After(s, moves).log, Shutdown)
    decreases |moves|
  {
    if moves != [] {
      SignalStep(s, moves[0]);
      SignalAsks(Step(s, moves[0]), moves[1..]);
    }
  }

  lemma SignalStep(s: Life, m: Move)
    requires (s.place.SignalSeen? || Asked(s.log, Shutdown)) && Enabled(s, m)
    ensures Step(s, m).place.SignalSeen? || Asked(Step(s, m).log, Shutdown)
  {
    StepFlags(s, m);
    StepGrows(s, m);
    GrownLater(s, Step(s, m));
  }

  predicate OnTheEarlyWay(s: Life) {
    || (s.place.Started? && s.cancelled) || s.place == SkipCheck(true) || s.place == Stopping(true)
    || s.place.Resolving? || s.place.ResolvingLinked? || s.place.Exiting? || s.place.Done?
  }

  lemma EarlyStep(s: Life, m: Move)
    requires OnTheEarlyWay(s) && Enabled(s, m)
    ensures OnTheEarlyWay(Step(s, m)) && Step(s, m).own == s.own
    ensures Count(Step(s, m).log, HandlerStarted) == Count(s.log, HandlerStarted)
  {
    if m.Do? {
      var c := s.callers[m.i];
      PerformGrows(s.(callers := s.callers[m.i := c.(done := c.done + 1)]), Program(c.op)[c.done]);
    }
  }

  /** Cancelled when `started()` has returned: no handler ever runs, and `stopped()` decides nothing. */
  lemma {:induction false} EarlyCancellation(s: Life, moves: seq<Move>)
    requires OnTheEarlyWay(s) && Possible(s, moves)
    ensures Count(After(s, moves).log, HandlerStarted) == Count(s.log, HandlerStarted)
    ensures After(s, moves).own == s.own
    decreases |moves|
  {
    if moves != [] {
      EarlyStep(s, moves[0]);
      EarlyCancellation(Step(s, moves[0]), moves[1..]);
    }
  }

  // ----- a cancelled actor comes to its end -----

  /** How many steps of its own a cancelled actor has left at most. */
  function StepsLeft(p: Place): nat {
    match p
    case Starting => 10
    case Started => 9
    case Receiving => 9
    case Handling(_) => 8
    case LoopCheck => 7
    case SignalSeen => 7
    case Leaving => 6
    case SkipCheck(_) => 5
    case Stopping(_) => 4
    case Resolving => 3
    case ResolvingLinked => 2
    case Exiting(_) => 1
    case Done => 0
  }

  lemma OwnStepLowers(s: Life, m: Move)
    requires s.cancelled && Enabled(s, m) && !m.Do?
    ensures Step(s, m).cancelled && StepsLeft(Step(s, m).place) < StepsLeft(s.place)
  {
  }

  lemma CallerKeepsPlace(s: Life, m: Move)
    requires Enabled(s, m) && m.Do?
    ensures Step(s, m).place == s.place && (s.cancelled ==> Step(s, m).cancelled)
  {
  }

  function OwnMoves(moves: seq<Move>): nat {
    if moves == [] then 0 else OwnMoves(moves[1..]) + if moves[0].Do? then 0 else 1
  }

  lemma {:induction false} StepsRunOut(s: Life, moves: seq<Move>)
    requires s.cancelled && Possible(s, moves)
    ensures After(s, moves).cancelled && OwnMoves(moves) + StepsLeft(After(s, moves).place) <= StepsLeft(s.place)
    decreases |moves|
  {
    if moves != [] {
      if moves[0].Do? {
        CallerKeepsPlace(s, moves[0]);
      } else {
        OwnStepLowers(s, moves[0]);
      }
      StepsRunOut(Step(s, moves[0]), moves[1..]);
    }
  }

  /**
   A cancelled actor makes at most ten more steps of its own, however its callbacks end and
   whatever arrives; and in every state it can make one, unless it has published its reason.
   */
  lemma CancelledComesToItsEnd(operations: seq<Operation>, moves: seq<Move>, more: seq<Move>)
    requires Possible(Born(operations), moves)
    requires var s := After(Born(operations), moves); s.cancelled && Possible(s, more)
    ensures var s' := After(After(Born(operations), moves), more);
            && OwnMoves(more) <= 10
            && (s'.completion.Some? || exists m: Move :: !m.Do? && Enabled(s', m))
  {
    var s := After(Born(operations), moves);
    StepsRunOut(s, more);
    BornInv(operations);
    RunKeepsInv(Born(operations), moves);
    RunKeepsInv(s, more);
    var s' := After(s, more);
    if s'.completion.None? {
      var m := if InCallback(s'.place) then Return else if s'.place.Receiving? then ReceiveEnd else Proceed;
      assert !m.Do? && Enabled(s', m);
    }
  }

  // ----- an actor that nobody stops goes on -----

  predicate Up(p: Place) {
    p.Starting? || p.Started? || InLoop(p)
  }

  lemma {:induction false} KeepsUp(s: Life, moves: seq<Move>)
    requires Up(s.place) && Possible(s, moves) && !After(s, moves).cancelled
    requires forall i :: 0 <= i < |moves| ==> !moves[i].Panics? && !moves[i].ReceiveSignal? && !moves[i].ReceiveEnd?
    ensures Up(After(s, moves).place)
    decreases |moves|
  {
    if moves != [] {
      var s1 := Step(s, moves[0]);
      if s1.cancelled {
        StepsRunOut(s1, moves[1..]);
      } else {
        if moves[0].Do? {
          CallerKeepsPlace(s, moves[0]);
        }
        StepFlags(s, moves[0]);
        KeepsUp(s1, moves[1..]);
      }
    }
  }

  /**
   An actor leaves its loop only for a cause: it has been cancelled, one of its callbacks
   panicked, or it received a signal or the end of its mailbox.
   */
  lemma LeavesForACause(operations: seq<Operation>, moves: seq<Move>)
    requires Possible(Born(operations), moves) && !After(Born(operations), moves).cancelled
    requires !Up(After(Born(operations), moves).place)
    ensures exists i :: 0 <= i < |moves| && (moves[i].Panics? || moves[i].ReceiveSignal? || moves[i].ReceiveEnd?)
  {
    if forall i :: 0 <= i < |moves| ==> !moves[i].Panics? && !moves[i].ReceiveSignal? && !moves[i].ReceiveEnd? {
      KeepsUp(Born(operations), moves);
      assert false;
    }
  }
}
