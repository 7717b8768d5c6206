/**
 Typed joins as they are made (concurrency/src/tasks/pg.rs:16-23): the join and the caching
 of the typed reference take the store lock one after the other, and anything may happen in
 between. Between its halves a pair is open. This file says exactly when the typed cache
 agrees with the members, over every run.
 */
module TypedJoins {
  import opened Reasons
  import opened ProcessGroups
  import opened ProcessGroupRuns

  /** `open` holds the typed joins that are between their halves. */
  datatype State = State(w: World, open: multiset<Pair>)

  datatype Move = FirstHalf(e: Pair) | SecondHalf(e: Pair) | Other(op: Operation)

  predicate Enabled(t: State, m: Move) {
    match m
    case FirstHalf(_) => true
    case SecondHalf(e) => e in t.open
    case Other(op) => !op.JoinOnly? && !op.CacheOnly? && !op.JoinTyped?
  }

  function Step(typeOf: ActorId -> TypeId, t: State, m: Move): State
    requires Enabled(t, m)
  {
    match m
    case FirstHalf(e) => State(Apply(typeOf, t.w, JoinOnly(e.k, e.id)), t.open + multiset{e})
    case SecondHalf(e) => State(Apply(typeOf, t.w, CacheOnly(e.k, e.id)), t.open - multiset{e})
    case Other(op) => t.(w := Apply(typeOf, t.w, op))
  }

  ghost predicate Possible(typeOf: ActorId -> TypeId, t: State, moves: seq<Move>)
    decreases |moves|
  {
    moves == [] || (Enabled(t, moves[0]) && Possible(typeOf, Step(typeOf, t, moves[0]), moves[1..]))
  }

  ghost function Reached(typeOf: ActorId -> TypeId, t: State, moves: seq<Move>): State
    requires Possible(typeOf, t, moves)
    decreases |moves|
  {
    if moves == [] then t else Reached(typeOf, Step(typeOf, t, moves[0]), moves[1..])
  }

  function Start(): State {
    State(World(Empty(), {}), multiset{})
  }

  // ----- agreement -----

  function Exempt(t: State, k: Key, a: Address): set<ActorId> {
    if Pair(k, a.id) in t.open then {a.id} else {}
  }

  /** The pair is cached under its own type only and, if it is alive and closed, exactly as a member. */
  ghost predicate PairOk(typeOf: ActorId -> TypeId, t: State, k: Key, a: Address) {
    CacheOk(t.w.store, typeOf, t.w.dead + Exempt(t, k, a), k, a)
  }

  ghost predicate Agreed(typeOf: ActorId -> TypeId, t: State) {
    forall k, a :: PairOk(typeOf, t, k, a)
  }

  ghost predicate AlwaysAgreed(typeOf: ActorId -> TypeId, t: State, moves: seq<Move>)
    requires Possible(typeOf, t, moves)
    decreases |moves|
  {
    Agreed(typeOf, t) && (moves != [] ==> AlwaysAgreed(typeOf, Step(typeOf, t, moves[0]), moves[1..]))
  }

  /** The second half that closes a pair which is alive but no member any more. */
  predicate Misplaced(t: State, m: Move) {
    m.SecondHalf? && t.open[m.e] == 1 && m.e.id !in t.w.dead && !IsMember(t.w, m.e)
  }

  ghost predicate NoneMisplaced(typeOf: ActorId -> TypeId, t: State, moves: seq<Move>)
    requires Possible(typeOf, t, moves)
    decreases |moves|
  {
    moves != [] ==> !Misplaced(t, moves[0]) && NoneMisplaced(typeOf, Step(typeOf, t, moves[0]), moves[1..])
  }

  lemma FirstHalfAgreed(typeOf: ActorId -> TypeId, t: State, e: Pair, k: Key, a: Address)
    requires Consistent(t.w.store) && PairOk(typeOf, t, k, a)
    ensures PairOk(typeOf, Step(typeOf, t, FirstHalf(e)), k, a)
  {
    var t' := Step(typeOf, t, FirstHalf(e));
    JoinKeeps(t.w.store, e.k, e.id);
    assert a in At(t'.w.store.groups, k) <==> a in At(t.w.store.groups, k) || (k == e.k && a == Local(e.id));
    assert forall ty :: Bucket(t'.w.store, TypedKey(k, ty)) == Bucket(t.w.store, TypedKey(k, ty));
  }

  lemma SecondHalfAgreed(typeOf: ActorId -> TypeId, t: State, e: Pair, k: Key, a: Address)
    requires Consistent(t.w.store) && PairOk(typeOf, t, k, a) && GroupOk(t.w.store, k)
    requires Enabled(t, SecondHalf(e)) && !Misplaced(t, SecondHalf(e))
    ensures PairOk(typeOf, Step(typeOf, t, SecondHalf(e)), k, a)
  {
  }

  lemma StepAgreed(typeOf: ActorId -> TypeId, t: State, m: Move)
    requires Consistent(t.w.store) && Agreed(typeOf, t) && Enabled(t, m) && !Misplaced(t, m)
    ensures Agreed(typeOf, Step(typeOf, t, m))
  {
    var t' := Step(typeOf, t, m);
    forall k, a ensures PairOk(typeOf, t', k, a) {
      assert PairOk(typeOf, t, k, a) && GroupOk(t.w.store, k);
      match m
      case FirstHalf(e) => FirstHalfAgreed(typeOf, t, e, k, a);
      case SecondHalf(e) => SecondHalfAgreed(typeOf, t, e, k, a);
      case Other(op) => ApplyCached(typeOf, t.w, op, Exempt(t, k, a), k, a);
    }
  }

  lemma MisplacedShows(typeOf: ActorId -> TypeId, t: State, m: Move)
    requires Enabled(t, m) && Misplaced(t, m)
    ensures !Agreed(typeOf, Step(typeOf, t, m))
  {
    var t' := Step(typeOf, t, m);
    assert m.e !in t'.open;
    assert !PairOk(typeOf, t', m.e.k, Local(m.e.id));
  }

  lemma StepConsistent(typeOf: ActorId -> TypeId, t: State, m: Move)
    requires Consistent(t.w.store) && Enabled(t, m)
    ensures Consistent(Step(typeOf, t, m).w.store)
  {
    match m
    case FirstHalf(e) => ApplyConsistent(typeOf, t.w, JoinOnly(e.k, e.id));
    case SecondHalf(e) => ApplyConsistent(typeOf, t.w, CacheOnly(e.k, e.id));
    case Other(op) => ApplyConsistent(typeOf, t.w, op);
  }

  /**
   Over every run: cache and membership agree about every live closed pair in every state,
   if and only if no second half closed a live pair that was no member any more.
   */
  lemma {:induction false} AgreementExactly(typeOf: ActorId -> TypeId, t: State, moves: seq<Move>)
    requires Consistent(t.w.store) && Agreed(typeOf, t) && Possible(typeOf, t, moves)
    ensures AlwaysAgreed(typeOf, t, moves) <==> NoneMisplaced(typeOf, t, moves)
    decreases |moves|
  {
    if moves != [] {
      var t' := Step(typeOf, t, moves[0]);
      if Misplaced(t, moves[0]) {
        MisplacedShows(typeOf, t, moves[0]);
        assert !AlwaysAgreed(typeOf, t', moves[1..]);
      } else {
        StepAgreed(typeOf, t, moves[0]);
        StepConsistent(typeOf, t, moves[0]);
        AgreementExactly(typeOf, t', moves[1..]);
      }
    }
  }

  lemma StartAgreed(typeOf: ActorId -> TypeId)
    ensures Consistent(Start().w.store) && Agreed(typeOf, Start())
  {
    forall k ensures GroupOk(Empty(), k) && RemoteOk(Empty(), k) {}
  }

  // ----- what makes a second half misplaced -----

  ghost predicate Lasts(typeOf: ActorId -> TypeId, t: State, moves: seq<Move>, e: Pair)
    requires Possible(typeOf, t, moves)
    decreases |moves|
  {
    moves != [] ==>
      && (moves[0].Other? ==> !Ends(t.w, moves[0].op, e))
      && Lasts(typeOf, Step(typeOf, t, moves[0]), moves[1..], e)
  }

  lemma StepLasts(typeOf: ActorId -> TypeId, t: State, m: Move, e: Pair)
    requires Consistent(t.w.store) && Enabled(t, m) && IsMember(t.w, e) && e.id !in t.w.dead
    requires m.Other? ==> !Ends(t.w, m.op, e)
    ensures IsMember(Step(typeOf, t, m).w, e)
  {
    match m
    case FirstHalf(e') => MembershipLasts(typeOf, t.w, JoinOnly(e'.k, e'.id), e);
    case SecondHalf(e') => MembershipLasts(typeOf, t.w, CacheOnly(e'.k, e'.id), e);
    case Other(op) => MembershipLasts(typeOf, t.w, op, e);
  }

  /** The dead stay dead. */
  lemma StepDead(typeOf: ActorId -> TypeId, t: State, m: Move)
    requires Enabled(t, m)
    ensures t.w.dead <= Step(typeOf, t, m).w.dead
  {
  }

  lemma {:induction false} RunDead(typeOf: ActorId -> TypeId, t: State, moves: seq<Move>)
    requires Possible(typeOf, t, moves)
    ensures t.w.dead <= Reached(typeOf, t, moves).w.dead
    decreases |moves|
  {
    if moves != [] {
      StepDead(typeOf, t, moves[0]);
      RunDead(typeOf, Step(typeOf, t, moves[0]), moves[1..]);
    }
  }

  /**
   A second half is misplaced only if the pair's last leave or the removal of its actor fell
   between the halves: without one, a live pair is still a member.
   */
  lemma {:induction false} UndisturbedHalves(typeOf: ActorId -> TypeId, t: State, moves: seq<Move>, e: Pair)
    requires Consistent(t.w.store) && IsMember(t.w, e)
    requires Possible(typeOf, t, moves) && Lasts(typeOf, t, moves, e)
    ensures var t' := Reached(typeOf, t, moves);
            (e.id !in t'.w.dead ==> IsMember(t'.w, e)) && !Misplaced(t', SecondHalf(e))
    decreases |moves|
  {
    RunDead(typeOf, t, moves);
    if moves != [] && e.id !in t.w.dead {
      StepLasts(typeOf, t, moves[0], e);
      StepConsistent(typeOf, t, moves[0]);
      UndisturbedHalves(typeOf, Step(typeOf, t, moves[0]), moves[1..], e);
    }
  }

  // ----- dispatch -----

  function LiveTyped(w: World, k: Key, ty: TypeId): set<Address> {
    set a | a in Bucket(w.store, TypedKey(k, ty)) && a.id !in w.dead
  }

  function LiveMembers(w: World, typeOf: ActorId -> TypeId, k: Key, ty: TypeId): set<Address> {
    set a | a in At(w.store.groups, k) && a.id !in w.dead && typeOf(a.id) == ty
  }

  function OpenIn(t: State, k: Key, among: set<Address>): set<Address> {
    set a | a in among && Pair(k, a.id) in t.open
  }

  /**
   Typed dispatch to a group reaches exactly the live members of its type, open pairs aside,
   in every state of every run without a misplaced second half.
   */
  lemma TypedMembersAreMembers(typeOf: ActorId -> TypeId, moves: seq<Move>, k: Key, ty: TypeId)
    requires Possible(typeOf, Start(), moves) && NoneMisplaced(typeOf, Start(), moves)
    ensures var t := Reached(typeOf, Start(), moves);
            var typed, members := LiveTyped(t.w, k, ty), LiveMembers(t.w, typeOf, k, ty);
            typed - OpenIn(t, k, typed) == members - OpenIn(t, k, members)
  {
    StartAgreed(typeOf);
    AgreementExactly(typeOf, Start(), moves);
    EndAgreed(typeOf, Start(), moves);
    var t := Reached(typeOf, Start(), moves);
    forall a: Address | Pair(k, a.id) !in t.open
      ensures a in LiveTyped(t.w, k, ty) <==> a in LiveMembers(t.w, typeOf, k, ty)
    {
      assert PairOk(typeOf, t, k, a);
    }
  }

  lemma {:induction false} EndAgreed(typeOf: ActorId -> TypeId, t: State, moves: seq<Move>)
    requires Possible(typeOf, t, moves) && AlwaysAgreed(typeOf, t, moves)
    ensures Agreed(typeOf, Reached(typeOf, t, moves))
    decreases |moves|
  {
    if moves != [] {
      EndAgreed(typeOf, Step(typeOf, t, moves[0]), moves[1..]);
    }
  }

  /** A leave between the halves: the second half caches an actor that is no member any more. */
  lemma LeaveBetweenHalves(typeOf: ActorId -> TypeId, e: Pair) returns (moves: seq<Move>)
    ensures Possible(typeOf, Start(), moves)
    ensures var t := Reached(typeOf, Start(), moves);
            && t.open == multiset{}
            && Local(e.id) in LiveTyped(t.w, e.k, typeOf(e.id))
            && Local(e.id) !in LiveMembers(t.w, typeOf, e.k, typeOf(e.id))
  {
    StartAgreed(typeOf);
    var t1 := Step(typeOf, Start(), FirstHalf(e));
    JoinKeeps(Empty(), e.k, e.id);
    assert Joins(t1.w.store.groups, e.k, Local(e.id)) == 1;
    var leave := Other(LeaveOnce(e.k, e.id));
    var t2 := Step(typeOf, t1, leave);
    ExpelKeeps(t1.w.store, e.k, Local(e.id));
    assert Local(e.id) !in At(t2.w.store.groups, e.k);
    var t3 := Step(typeOf, t2, SecondHalf(e));
    assert Possible(typeOf, t3, []) && Reached(typeOf, t3, []) == t3;
    Onward(typeOf, t2, SecondHalf(e), []);
    Onward(typeOf, t1, leave, [SecondHalf(e)] + []);
    Onward(typeOf, Start(), FirstHalf(e), [leave] + ([SecondHalf(e)] + []));
    moves := [FirstHalf(e)] + ([leave] + ([SecondHalf(e)] + []));
  }

  lemma Onward(typeOf: ActorId -> TypeId, t: State, m: Move, rest: seq<Move>)
    requires Enabled(t, m) && Possible(typeOf, Step(typeOf, t, m), rest)
    ensures Possible(typeOf, t, [m] + rest)
    ensures Reached(typeOf, t, [m] + rest) == Reached(typeOf, Step(typeOf, t, m), rest)
  {
    assert ([m] + rest)[1..] == rest;
  }
}
