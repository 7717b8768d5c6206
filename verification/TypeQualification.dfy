/**
 The rewriting of types that the protocol macro copies from a trait into a generated module
 (macros/src/lib.rs:121-291). Names are prefixed with `super::` so that they keep referring
 to the parent module although the generated module declares structs of its own.
 */
module TypeQualification {
  import opened Reasons

  datatype List<T> = Nil | Cons(head: T, tail: List<T>)

  /** `Verbatim` stands for the forms without a type inside, such as `!` and `_`. */
  datatype Type =
    | Path(qself: Option<Type>, leading: bool, segments: List<Segment>)
    | Reference(elem: Type)
    | Tuple(elems: List<Type>)
    | Array(elem: Type)
    | Slice(elem: Type)
    | Paren(elem: Type)
    | TraitObject(bounds: List<Bound>)
    | ImplTrait(bounds: List<Bound>)
    | BareFn(inputs: List<Type>, output: Option<Type>)
    | Ptr(elem: Type)
    | Group(elem: Type)
    | Verbatim(text: string)

  datatype Segment = Segment(ident: string, args: Arguments)

  datatype Arguments = NoArguments | Angle(args: List<Argument>) | Parens(inputs: List<Type>, output: Option<Type>)

  /** A type, an associated type such as `Item = T`, or a lifetime or constant. */
  datatype Argument = TypeArg(ty: Type) | AssocArg(name: string, ty: Type) | OtherArg(text: string)

  datatype Bound = TraitBound(leading: bool, path: List<Segment>) | OtherBound(text: string)

  // ----- the rewriting -----

  predicate IsPreludeOrPrimitive(name: string) {
    name in {
      "bool", "char", "str", "i8", "i16", "i32", "i64", "i128", "isize",
      "u8", "u16", "u32", "u64", "u128", "usize", "f32", "f64",
      "Box", "String", "Vec", "Option", "Some", "None", "Result", "Ok", "Err", "ToString", "ToOwned"}
  }

  predicate IsReserved(name: string) {
    name == "crate" || name == "super" || name == "self" || name == "std" || name == "core" || name == "alloc"
  }

  predicate LeftAsIs(t: Type)
    requires t.Path?
  {
    t.qself.Some? || t.leading || (t.segments.Cons? && IsReserved(t.segments.head.ident))
  }

  function Qualify(t: Type): Type {
    match t
    case Path(_, _, segments) =>
      if LeftAsIs(t) then t
      else if segments.Cons? && IsPreludeOrPrimitive(segments.head.ident)
      then Path(None, false, QualifySegments(segments, false))
      else Path(None, false, Cons(Segment("super", NoArguments), QualifySegments(segments, false)))
    case Reference(elem) => Reference(Qualify(elem))
    case Tuple(elems) => Tuple(QualifyTypes(elems))
    case Array(elem) => Array(Qualify(elem))
    case Slice(elem) => Slice(Qualify(elem))
    case Paren(elem) => Paren(Qualify(elem))
    case TraitObject(bounds) => TraitObject(QualifyBounds(bounds))
    case ImplTrait(bounds) => ImplTrait(QualifyBounds(bounds))
    case BareFn(inputs, output) => BareFn(QualifyTypes(inputs), QualifyOption(output))
    case Ptr(_) => t
    case Group(_) => t
    case Verbatim(_) => t
  }

  function QualifyTypes(ts: List<Type>): List<Type> {
    match ts
    case Nil => Nil
    case Cons(t, rest) => Cons(Qualify(t), QualifyTypes(rest))
  }

  function QualifyOption(o: Option<Type>): Option<Type> {
    match o
    case None => None
    case Some(t) => Some(Qualify(t))
  }

  /** `bound` tells a trait bound, where parenthesized arguments are rewritten too. */
  function QualifySegments(segments: List<Segment>, bound: bool): List<Segment> {
    match segments
    case Nil => Nil
    case Cons(Segment(ident, args), rest) =>
      Cons(Segment(ident, QualifyArguments(args, bound)), QualifySegments(rest, bound))
  }

  function QualifyArguments(args: Arguments, bound: bool): Arguments {
    match args
    case NoArguments => args
    case Angle(list) => Angle(QualifyArgs(list))
    case Parens(inputs, output) => if bound then Parens(QualifyTypes(inputs), QualifyOption(output)) else args
  }

  function QualifyArgs(list: List<Argument>): List<Argument> {
    match list
    case Nil => Nil
    case Cons(TypeArg(t), rest) => Cons(TypeArg(Qualify(t)), QualifyArgs(rest))
    case Cons(arg, rest) => Cons(arg, QualifyArgs(rest))
  }

  function QualifyBounds(bounds: List<Bound>): List<Bound> {
    match bounds
    case Nil => Nil
    case Cons(TraitBound(leading, path), rest) =>
      Cons(TraitBound(leading, QualifySegments(path, true)), QualifyBounds(rest))
    case Cons(other, rest) => Cons(other, QualifyBounds(rest))
  }

  // ----- rewriting twice is rewriting once -----

  lemma {:induction false} QualifyIdempotent(t: Type)
    ensures Qualify(Qualify(t)) == Qualify(t)
  {
    match t
    case Path(_, _, segments) => if !LeftAsIs(t) { SegmentsIdempotent(segments, false); }
    case Reference(elem) => QualifyIdempotent(elem);
    case Tuple(elems) => TypesIdempotent(elems);
    case Array(elem) => QualifyIdempotent(elem);
    case Slice(elem) => QualifyIdempotent(elem);
    case Paren(elem) => QualifyIdempotent(elem);
    case TraitObject(bounds) => BoundsIdempotent(bounds);
    case ImplTrait(bounds) => BoundsIdempotent(bounds);
    case BareFn(inputs, output) =>
      TypesIdempotent(inputs);
      OptionIdempotent(output);
    case _ =>
  }

  lemma {:induction false} TypesIdempotent(ts: List<Type>)
    ensures QualifyTypes(QualifyTypes(ts)) == QualifyTypes(ts)
  {
    if ts.Cons? {
      QualifyIdempotent(ts.head);
      TypesIdempotent(ts.tail);
    }
  }

  lemma {:induction false} OptionIdempotent(o: Option<Type>)
    ensures QualifyOption(QualifyOption(o)) == QualifyOption(o)
  {
    if o.Some? {
      QualifyIdempotent(o.value);
    }
  }

  lemma {:induction false} SegmentsIdempotent(segments: List<Segment>, bound: bool)
    ensures QualifySegments(QualifySegments(segments, bound), bound) == QualifySegments(segments, bound)
  {
    if segments.Cons? {
      ArgumentsIdempotent(segments.head.args, bound);
      SegmentsIdempotent(segments.tail, bound);
    }
  }

  lemma {:induction false} ArgumentsIdempotent(args: Arguments, bound: bool)
    ensures QualifyArguments(QualifyArguments(args, bound), bound) == QualifyArguments(args, bound)
  {
    match args
    case NoArguments =>
    case Angle(list) => ArgsIdempotent(list);
    case Parens(inputs, output) =>
      TypesIdempotent(inputs);
      OptionIdempotent(output);
  }

  lemma {:induction false} ArgsIdempotent(list: List<Argument>)
    ensures QualifyArgs(QualifyArgs(list)) == QualifyArgs(list)
  {
    if list.Cons? {
      if list.head.TypeArg? {
        QualifyIdempotent(list.head.ty);
      }
      ArgsIdempotent(list.tail);
    }
  }

  lemma {:induction false} BoundsIdempotent(bounds: List<Bound>)
    ensures QualifyBounds(QualifyBounds(bounds)) == QualifyBounds(bounds)
  {
    if bounds.Cons? {
      if bounds.head.TraitBound? {
        SegmentsIdempotent(bounds.head.path, true);
      }
      BoundsIdempotent(bounds.tail);
    }
  }
}
