/**
 The restart limit of a supervisor: at most `maxRestarts` restarts within a sliding
 window (concurrency/src/supervisor/mod.rs:64-102). The tracker keeps a deque from which
 old timestamps are popped; the deque is shown to decide exactly as the full history of
 accepted restarts would, and no window of the configured length ever holds too many.
 */
module Intensity {

  /** `Instant::duration_since`, which is zero when the clock seems to run backwards. */
  function Age(now: nat, t: nat): nat {
    if now >= t then now - t else 0
  }

  /** How many of these restarts lie at most `within` before `now`. */
  function CountRecent(history: seq<nat>, now: nat, within: nat): nat {
    if history == [] then 0
    else CountRecent(history[..|history| - 1], now, within)
         + if Age(now, history[|history| - 1]) <= within then 1 else 0
  }

  /** The restarts at most `within` before `now`, as positions in the history. */
  function InWindow(history: seq<nat>, now: nat, within: nat): set<nat> {
    set i: nat | i < |history| && now - history[i] <= within
  }

  /** What is counted is exactly what lies in the window. */
  lemma {:induction false} CountIsWindow(history: seq<nat>, now: nat, within: nat)
    ensures CountRecent(history, now, within) == |InWindow(history, now, within)|
  {
    if history == [] {
      assert InWindow(history, now, within) == {};
    } else {
      var n := |history| - 1;
      var before := InWindow(history[..n], now, within);
      CountIsWindow(history[..n], now, within);
      assert InWindow(history, now, within) == before + if now - history[n] <= within then {n} else {};
      assert n !in before;
    }
  }

  ghost predicate Sorted(s: seq<nat>) {
    forall i, j :: 0 <= i < j < |s| ==> s[i] <= s[j]
  }

  /** If an old prefix is out of the window and the rest is in it, the rest is what counts. */
  lemma {:induction false} CountOfSplit(history: seq<nat>, cut: nat, now: nat, within: nat)
    requires cut <= |history|
    requires forall i :: 0 <= i < cut ==> Age(now, history[i]) > within
    requires forall i :: cut <= i < |history| ==> Age(now, history[i]) <= within
    ensures CountRecent(history, now, within) == |history| - cut
  {
    if history != [] {
      var prefix := history[..|history| - 1];
      CountOfSplit(prefix, if cut <= |prefix| then cut else |prefix|, now, within);
    }
  }

  class IntensityTracker {
    const maxRestarts: nat
    const within: nat
    var timestamps: seq<nat>
    /** Every restart accepted so far, how many of them were popped again, and the latest time seen. */
    ghost var accepted: seq<nat>
    ghost var popped: nat
    ghost var clock: nat

    ghost predicate Valid()
      reads this
    {
      && popped <= |accepted| && timestamps == accepted[popped..]
      && Admissible(accepted, maxRestarts, within)
      && (forall i :: 0 <= i < |accepted| ==> accepted[i] <= clock)
      && (forall i :: 0 <= i < popped ==> Age(clock, accepted[i]) > within)
    }

    constructor (maxRestarts: nat, within: nat)
      ensures Valid() && accepted == [] && clock == 0
      ensures this.maxRestarts == maxRestarts && this.within == within
    {
      this.maxRestarts, this.within := maxRestarts, within;
      timestamps, accepted, popped, clock := [], [], 0, 0;
    }

    /** Pop the timestamps that have left the window. */
    method Prune(now: nat)
      requires Valid() && clock <= now
      modifies this
      ensures Valid() && clock == now && accepted == old(accepted)
      ensures forall i :: popped <= i < |accepted| ==> Age(now, accepted[i]) <= within
    {
      var rest := timestamps;
      ghost var all: seq<nat>, cut: nat := accepted, popped;
      while rest != [] && Age(now, rest[0]) > within
        invariant unchanged(this) && all == accepted
        invariant cut <= |all| && rest == all[cut..]
        invariant forall i :: 0 <= i < cut ==> Age(now, all[i]) > within
        decreases |rest|
      {
        DropFirst(all, cut);
        rest := rest[1..];
        cut := cut + 1;
      }
      AllRecent(all, cut, now, within);
      timestamps, popped, clock := rest, cut, now;
    }

    /** Accepts exactly when fewer than `maxRestarts` of all accepted restarts lie within the window. */
    method RecordRestart(now: nat) returns (ok: bool)
      requires Valid() && clock <= now
      modifies this
      ensures Valid() && clock == now
      ensures ok <==> CountRecent(old(accepted), now, within) < maxRestarts
      ensures ok <==> |InWindow(old(accepted), now, within)| < maxRestarts
      ensures accepted == if ok then old(accepted) + [now] else old(accepted)
    {
      CountIsWindow(accepted, now, within);
      Prune(now);
      CountOfSplit(accepted, popped, now, within);
      if |timestamps| >= maxRestarts {
        return false;
      }
      AdmissibleExtend(accepted, now, maxRestarts, within);
      assert accepted[popped..] + [now] == (accepted + [now])[popped..];
      timestamps := timestamps + [now];
      accepted := accepted + [now];
      return true;
    }
  }

  /** Once the oldest remaining timestamp is in the window, so are all later ones. */
  lemma AllRecent(history: seq<nat>, cut: nat, now: nat, within: nat)
    requires Sorted(history) && cut <= |history|
    requires cut < |history| ==> Age(now, history[cut]) <= within
    ensures forall i :: cut <= i < |history| ==> Age(now, history[i]) <= within
  {
  }

  lemma DropFirst(s: seq<nat>, k: nat)
    requires k < |s|
    ensures s[k..][0] == s[k] && s[k..][1..] == s[k + 1..]
  {
  }

  // ----- what the limit means over a whole run -----

  /** A history each of whose restarts was accepted in turn. */
  ghost predicate Admissible(history: seq<nat>, maxRestarts: nat, within: nat) {
    && Sorted(history)
    && forall i :: 0 <= i < |history| ==> CountRecent(history[..i], history[i], within) < maxRestarts
  }

  lemma AdmissibleExtend(history: seq<nat>, now: nat, maxRestarts: nat, within: nat)
    requires Admissible(history, maxRestarts, within)
    requires forall i :: 0 <= i < |history| ==> history[i] <= now
    requires CountRecent(history, now, within) < maxRestarts
    ensures Admissible(history + [now], maxRestarts, within)
  {
    var longer := history + [now];
    forall i | 0 <= i < |longer| ensures CountRecent(longer[..i], longer[i], within) < maxRestarts {
      if i < |history| {
        assert longer[..i] == history[..i];
      } else {
        assert longer[..i] == history;
      }
    }
  }

  /** A consecutive stretch inside the window is counted in full. */
  lemma {:induction false} CountOfStretch(history: seq<nat>, from: nat, now: nat, within: nat)
    requires from <= |history|
    requires forall i :: from <= i < |history| ==> Age(now, history[i]) <= within
    ensures CountRecent(history, now, within) >= |history| - from
  {
    if from < |history| {
      CountOfStretch(history[..|history| - 1], from, now, within);
    }
  }

  /**
   No closed window of length `within` holds more than `maxRestarts` accepted restarts:
   whichever stretch of the history fits into such a window is at most that long.
   */
  lemma NoOverfullWindow(history: seq<nat>, maxRestarts: nat, within: nat, i: nat, j: nat)
    requires Admissible(history, maxRestarts, within)
    requires i <= j < |history| && history[j] - history[i] <= within
    ensures j - i + 1 <= maxRestarts
  {
    CountOfStretch(history[..j], i, history[j], within);
  }
}
