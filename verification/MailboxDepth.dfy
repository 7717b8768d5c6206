/**
 The depth counter of a bounded mailbox (concurrency/src/mailbox.rs:367-488,
 concurrency/src/tasks/actor.rs:934-935), one atomic access or lock operation per step.

 Any number of senders interleave with the receiver. Depending on how the mailbox is
 configured they all acquire by compare-and-swap (fail-fast mailboxes, and blocking ones
 on the tasks runtime) or all by load-then-add under a mutex (blocking ones on the threads
 runtime). In every interleaving the counter accounts for each message exactly once, never
 goes below zero and never above the capacity.
 */
module MailboxDepth {
  import opened Reasons

  datatype Discipline = CompareAndSwap | Mutex | NoLock

  /** Where a sender is between two steps. */
  datatype Sender =
    | Idle
    | Loaded(current: nat)        // compare-and-swap: saw room at this depth
    | Locked                      // mutex: holds the lock
    | LockedLoaded(current: nat)  // mutex: holds the lock and saw room at this depth
    | Acquired                    // owns a place, has not sent yet
    | SendFailed                  // the channel was closed, about to give the place back

  datatype State = State(
    depth: int, queued: nat, open: bool, abandoned: nat, senders: seq<Sender>, lock: Option<nat>, dequeued: bool)

  datatype Move =
    | Load(i: nat)                       // read the counter, with or without the lock
    | Swap(i: nat, spurious: bool)       // compare_exchange_weak, which may fail for no reason
    | TakeLock(i: nat)
    | Wait(i: nat)                       // mailbox full: release the lock and wait
    | Add(i: nat)                        // fetch_add and release the lock
    | Send(i: nat)
    | Rollback(i: nat)
    | Dequeue                            // the receiver takes a message
    | Release                            // and gives its place back
    | Close                              // the receiver is dropped, with whatever is queued

  predicate Enabled(d: Discipline, cap: nat, s: State, m: Move) {
    match m
    case Load(i) =>
      i < |s.senders| && (if d.CompareAndSwap? then s.senders[i].Idle? else s.senders[i].Locked?)
    case Swap(i, _) => d.CompareAndSwap? && i < |s.senders| && s.senders[i].Loaded?
    case TakeLock(i) => !d.CompareAndSwap? && i < |s.senders| && s.senders[i].Idle? && (d.NoLock? || s.lock.None?)
    case Wait(i) => !d.CompareAndSwap? && i < |s.senders| && s.senders[i].Locked? && s.depth >= cap
    case Add(i) => !d.CompareAndSwap? && i < |s.senders| && s.senders[i].LockedLoaded?
    case Send(i) => i < |s.senders| && s.senders[i].Acquired?
    case Rollback(i) => i < |s.senders| && s.senders[i].SendFailed?
    case Dequeue => s.open && s.queued > 0 && !s.dequeued
    case Release => s.dequeued
    case Close => s.open
  }

  function Set(s: State, i: nat, sender: Sender): State
    requires i < |s.senders|
  {
    s.(senders := s.senders[i := sender])
  }

  function Step(d: Discipline, cap: nat, s: State, m: Move): State
    requires Enabled(d, cap, s, m)
  {
    match m
    case Load(i) =>
      if s.depth < 0 || s.depth >= cap then s  // full: fail, or try again later
      else Set(s, i, if d.CompareAndSwap? then Loaded(s.depth) else LockedLoaded(s.depth))
    case Swap(i, spurious) =>
      if !spurious && s.depth == s.senders[i].current then Set(s.(depth := s.depth + 1), i, Acquired)
      else Set(s, i, Idle)
    case TakeLock(i) => Set(s.(lock := Some(i)), i, Locked)
    case Wait(i) => Set(s.(lock := None), i, Idle)
    case Add(i) => Set(s.(depth := s.depth + 1, lock := None), i, Acquired)
    case Send(i) => if s.open then Set(s.(queued := s.queued + 1), i, Idle) else Set(s, i, SendFailed)
    case Rollback(i) => Set(s.(depth := s.depth - 1), i, Idle)
    case Dequeue => s.(queued := s.queued - 1, dequeued := true)
    case Release => s.(depth := s.depth - 1, dequeued := false)
    case Close => s.(open := false, abandoned := s.queued, queued := 0)
  }

  function Start(n: nat): State {
    State(0, 0, true, 0, seq(n, _ => Idle), None, false)
  }

  ghost predicate Possible(d: Discipline, cap: nat, s: State, moves: seq<Move>)
    decreases |moves|
  {
    moves == [] || (Enabled(d, cap, s, moves[0]) && Possible(d, cap, Step(d, cap, s, moves[0]), moves[1..]))
  }

  ghost function After(d: Discipline, cap: nat, s: State, moves: seq<Move>): State
    requires Possible(d, cap, s, moves)
    decreases |moves|
  {
    if moves == [] then s else After(d, cap, Step(d, cap, s, moves[0]), moves[1..])
  }

  // ----- the invariant -----

  predicate HoldsPlace(sender: Sender) {
    sender.Acquired? || sender.SendFailed?
  }

  function Places(senders: seq<Sender>): nat {
    if senders == [] then 0 else Places(senders[1..]) + if HoldsPlace(senders[0]) then 1 else 0
  }

  lemma {:induction false} PlacesUpdate(senders: seq<Sender>, i: nat, sender: Sender)
    requires i < |senders|
    ensures Places(senders[i := sender]) ==
            Places(senders) - (if HoldsPlace(senders[i]) then 1 else 0) + (if HoldsPlace(sender) then 1 else 0)
  {
    if i > 0 {
      PlacesUpdate(senders[1..], i - 1, sender);
      assert senders[i := sender][1..] == senders[1..][i - 1 := sender];
    } else {
      assert senders[i := sender][1..] == senders[1..];
    }
  }

  lemma {:induction false} NoPlaces(n: nat)
    ensures Places(seq(n, _ => Idle)) == 0
  {
    if n > 0 {
      NoPlaces(n - 1);
      assert seq(n, _ => Idle)[1..] == seq(n - 1, _ => Idle);
    }
  }

  /** Queued, abandoned in a closed mailbox, acquired but not sent, or dequeued but not released. */
  function Accounted(s: State): nat {
    s.queued + s.abandoned + Places(s.senders) + if s.dequeued then 1 else 0
  }

  ghost predicate SenderOk(d: Discipline, cap: nat, s: State, i: nat)
    requires i < |s.senders|
  {
    match s.senders[i]
    case Loaded(current) => d.CompareAndSwap? && current < cap
    case Locked => d.Mutex? && s.lock == Some(i)
    case LockedLoaded(current) => d.Mutex? && s.lock == Some(i) && s.depth <= current < cap
    case _ => true
  }

  ghost predicate Inv(d: Discipline, cap: nat, s: State) {
    && s.depth == Accounted(s)
    && s.depth <= cap
    && (s.open ==> s.abandoned == 0)
    && (!s.open ==> s.queued == 0)
    && forall i: nat :: i < |s.senders| ==> SenderOk(d, cap, s, i)
  }

  lemma StepKeepsInv(d: Discipline, cap: nat, s: State, m: Move)
    requires !d.NoLock? && Inv(d, cap, s) && Enabled(d, cap, s, m)
    ensures Inv(d, cap, Step(d, cap, s, m))
  {
    var s' := Step(d, cap, s, m);
    if !m.Dequeue? && !m.Release? && !m.Close? {
      assert SenderOk(d, cap, s, m.i);
      PlacesUpdate(s.senders, m.i, s'.senders[m.i]);
      assert s'.senders == s.senders[m.i := s'.senders[m.i]];
    }
    forall k: nat | k < |s'.senders| ensures SenderOk(d, cap, s', k) {
      assert SenderOk(d, cap, s, k);
    }
  }

  lemma {:induction false} RunKeepsInv(d: Discipline, cap: nat, s: State, moves: seq<Move>)
    requires !d.NoLock? && Inv(d, cap, s) && Possible(d, cap, s, moves)
    ensures Inv(d, cap, After(d, cap, s, moves))
    decreases |moves|
  {
    if moves != [] {
      StepKeepsInv(d, cap, s, moves[0]);
      RunKeepsInv(d, cap, Step(d, cap, s, moves[0]), moves[1..]);
    }
  }

  /**
   Every interleaving, either discipline: the counter equals what it stands for, stays
   between zero and the capacity, and is positive whenever somebody is about to decrement it.
   */
  lemma BoundedMailbox(d: Discipline, cap: nat, n: nat, moves: seq<Move>)
    requires !d.NoLock? && Possible(d, cap, Start(n), moves)
    ensures var s := After(d, cap, Start(n), moves);
            && s.depth == Accounted(s) && 0 <= s.depth <= cap
            && (s.dequeued ==> s.depth >= 1)
            && (forall i: nat :: i < |s.senders| && s.senders[i].SendFailed? ==> s.depth >= 1)
  {
    NoPlaces(n);
    RunKeepsInv(d, cap, Start(n), moves);
    var s := After(d, cap, Start(n), moves);
    forall i: nat | i < |s.senders| && s.senders[i].SendFailed? ensures s.depth >= 1 {
      PlacesUpdate(s.senders, i, Idle);
    }
  }

  /**
   Load-then-add is safe only under the lock: if the lock did not exclude, two senders could
   both see the last free place and both take it.
   */
  lemma UnlockedOverflows()
    ensures var moves := [TakeLock(0), TakeLock(1), Load(0), Load(1), Add(0), Add(1)];
            Possible(NoLock, 1, Start(2), moves) && After(NoLock, 1, Start(2), moves).depth == 2
  {
    var s0 := Start(2);
    var s2 := State(0, 0, true, 0, [Locked, Locked], Some(1), false);
    assert Step(NoLock, 1, Step(NoLock, 1, s0, TakeLock(0)), TakeLock(1)) == s2;
    BothAdd(s2);
    TwoMore(NoLock, 1, s0, TakeLock(0), TakeLock(1), [Load(0), Load(1), Add(0), Add(1)]);
  }

  lemma BothAdd(s: State)
    requires s == State(0, 0, true, 0, [Locked, Locked], Some(1), false)
    ensures var moves := [Load(0), Load(1), Add(0), Add(1)];
            Possible(NoLock, 1, s, moves) && After(NoLock, 1, s, moves).depth == 2
  {
    var loaded := s.(senders := [LockedLoaded(0), LockedLoaded(0)]);
    assert Step(NoLock, 1, Step(NoLock, 1, s, Load(0)), Load(1)) == loaded;
    var added := State(2, 0, true, 0, [Acquired, Acquired], None, false);
    assert Step(NoLock, 1, Step(NoLock, 1, loaded, Add(0)), Add(1)) == added;
    TwoMore(NoLock, 1, loaded, Add(0), Add(1), []);
    TwoMore(NoLock, 1, s, Load(0), Load(1), [Add(0), Add(1)]);
  }

  lemma TwoMore(d: Discipline, cap: nat, s: State, m: Move, m': Move, rest: seq<Move>)
    requires Enabled(d, cap, s, m) && Enabled(d, cap, Step(d, cap, s, m), m')
    requires Possible(d, cap, Step(d, cap, Step(d, cap, s, m), m'), rest)
    ensures Possible(d, cap, s, [m, m'] + rest)
    ensures After(d, cap, s, [m, m'] + rest) == After(d, cap, Step(d, cap, Step(d, cap, s, m), m'), rest)
  {
    var moves := [m, m'] + rest;
    assert moves[1..][1..] == rest && moves[1..][0] == m';
  }

  // ----- a free place is taken -----

  /** Without interference, a sender gets a place by compare-and-swap exactly if one is free. */
  lemma SwapTakesFreePlace(cap: nat, s: State, i: nat)
    requires Inv(CompareAndSwap, cap, s) && i < |s.senders| && s.senders[i].Idle?
    ensures var s1 := Step(CompareAndSwap, cap, s, Load(i));
            && (s1.senders[i].Loaded? <==> s.depth < cap)
            && (s.depth < cap ==>
                  Step(CompareAndSwap, cap, s1, Swap(i, false)) ==
                  s.(depth := s.depth + 1, senders := s.senders[i := Acquired]))
            && (s.depth >= cap ==> s1 == s)
  {
    if s.depth < cap {
      assert s.senders[i := Loaded(s.depth)][i := Acquired] == s.senders[i := Acquired];
    }
  }

  /** Under the mutex, a sender gets a place exactly if one is free, and lets go of the lock either way. */
  lemma LockTakesFreePlace(cap: nat, s: State, i: nat)
    requires Inv(Mutex, cap, s) && i < |s.senders| && s.senders[i].Idle? && s.lock.None?
    ensures var s1 := Step(Mutex, cap, s, TakeLock(i));
            && (s.depth < cap ==>
                  var s2 := Step(Mutex, cap, s1, Load(i));
                  && Enabled(Mutex, cap, s2, Add(i))
                  && Step(Mutex, cap, s2, Add(i)) ==
                       s.(depth := s.depth + 1, senders := s.senders[i := Acquired]))
            && (s.depth >= cap ==> Enabled(Mutex, cap, s1, Wait(i)) && Step(Mutex, cap, s1, Wait(i)) == s)
  {
    assert s.senders[i := Locked][i := Idle] == s.senders;
    assert s.senders[i := Locked][i := LockedLoaded(s.depth)][i := Acquired] == s.senders[i := Acquired];
  }

  /** A place is given back in full: sent, received and released, or refused by a closed mailbox. */
  lemma PlaceComesBack(d: Discipline, cap: nat, s: State, i: nat)
    requires !d.NoLock? && Inv(d, cap, s) && i < |s.senders| && s.senders[i].Acquired? && !s.dequeued
    ensures var sent := Step(d, cap, s, Send(i));
            if s.open
            then && Enabled(d, cap, sent, Dequeue)
                 && Step(d, cap, Step(d, cap, sent, Dequeue), Release) ==
                      s.(depth := s.depth - 1, senders := s.senders[i := Idle])
            else && Enabled(d, cap, sent, Rollback(i))
                 && Step(d, cap, sent, Rollback(i)) == s.(depth := s.depth - 1, senders := s.senders[i := Idle])
  {
    assert s.senders[i := SendFailed][i := Idle] == s.senders[i := Idle];
  }
}
