/**
 What names mean in the generated module and in its parent, and when the rewriting of
 types (macros/src/lib.rs:121-291) keeps the meaning.

 Modules are numbered outwards: 0 is the generated module, 1 its parent, 2 the parent of
 that, and so on. The generated module declares some structs and glob-imports the parent
 (`use super::*`), so its own names hide the parent's. A plain name is looked up in the
 module, then among external crates, then in the prelude; a name after `self::` or
 `super::` in that module alone. `Self` is no name of a module: in the parent it is the
 implementor of the trait, in the generated module the struct being declared.
 */
module TypeResolution {
  import opened Reasons
  import opened TypeQualification

  datatype Env = Env(
    generated: set<string>, parent: set<string>, outer: seq<set<string>>,
    crates: set<string>, prelude: set<string>)

  datatype Entity =
    | Item(owner: nat, name: string)
    | SelfType(reader: nat)
    | Crate(name: string)
    | Builtin(name: string)
    | Unknown(name: string)
    | Module(number: nat)
    | CrateRoot
    | AnyCrate
    | Nowhere

  function Own(env: Env, m: nat): set<string> {
    if m == 0 then env.generated
    else if m == 1 then env.parent
    else if m - 2 < |env.outer| then env.outer[m - 2]
    else {}
  }

  function Named(env: Env, m: nat, name: string): Entity {
    if name == "Self" then Unknown(name)
    else if name in Own(env, m) then Item(m, name)
    else if m == 0 && name in env.parent then Item(1, name)
    else Unknown(name)
  }

  function Plain(env: Env, m: nat, name: string): Entity {
    if name == "Self" then SelfType(m)
    else if Named(env, m, name).Item? then Named(env, m, name)
    else if name in env.crates then Crate(name)
    else if name in env.prelude then Builtin(name)
    else Unknown(name)
  }

  /** The entity a path starts from, and the segments from the one that names it on. */
  datatype Located = Located(entity: Entity, rest: List<Segment>)

  function Walk(env: Env, m: nat, segments: List<Segment>): (r: Located)
    ensures r.rest == segments || r.rest < segments
    decreases segments
  {
    match segments
    case Nil => Located(Module(m), Nil)
    case Cons(first, rest) =>
      if first.ident == "self" then Walk(env, m, rest)
      else if first.ident == "super" then Walk(env, m + 1, rest)
      else Located(Named(env, m, first.ident), segments)
  }

  function Locate(env: Env, m: nat, leading: bool, segments: List<Segment>): (r: Located)
    ensures r.rest == segments || r.rest < segments
  {
    if leading then Located(AnyCrate, segments)
    else
      match segments
      case Nil => Located(Nowhere, Nil)
      case Cons(first, rest) =>
        if first.ident == "crate" then Located(CrateRoot, rest)
        else if first.ident == "self" || first.ident == "super" then Walk(env, m, segments)
        else Located(Plain(env, m, first.ident), segments)
  }

  // ----- equal meaning: `t` read in the parent, `u` in the generated module -----

  predicate Same(env: Env, t: Type, u: Type)
    decreases t, 0
  {
    match t
    case Path(qself, leading, segments) =>
      && u.Path? && SameOption(env, qself, u.qself)
      && SamePath(env, leading, segments, u.leading, u.segments)
    case Reference(elem) => u.Reference? && Same(env, elem, u.elem)
    case Tuple(elems) => u.Tuple? && SameTypes(env, elems, u.elems)
    case Array(elem) => u.Array? && Same(env, elem, u.elem)
    case Slice(elem) => u.Slice? && Same(env, elem, u.elem)
    case Paren(elem) => u.Paren? && Same(env, elem, u.elem)
    case TraitObject(bounds) => u.TraitObject? && SameBounds(env, bounds, u.bounds)
    case ImplTrait(bounds) => u.ImplTrait? && SameBounds(env, bounds, u.bounds)
    case BareFn(inputs, output) => u.BareFn? && SameTypes(env, inputs, u.inputs) && SameOption(env, output, u.output)
    case Ptr(elem) => u.Ptr? && Same(env, elem, u.elem)
    case Group(elem) => u.Group? && Same(env, elem, u.elem)
    case Verbatim(_) => t == u
  }

  predicate SamePath(env: Env, leading: bool, segments: List<Segment>, leading': bool, segments': List<Segment>)
    decreases segments, 1
  {
    var a, b := Locate(env, 1, leading, segments), Locate(env, 0, leading', segments');
    a.entity == b.entity && SameSegments(env, a.rest, b.rest)
  }

  predicate SameTypes(env: Env, ts: List<Type>, us: List<Type>)
    decreases ts, 0
  {
    match ts
    case Nil => us.Nil?
    case Cons(t, rest) => us.Cons? && Same(env, t, us.head) && SameTypes(env, rest, us.tail)
  }

  predicate SameOption(env: Env, o: Option<Type>, p: Option<Type>)
    decreases o, 0
  {
    match o
    case None => p.None?
    case Some(t) => p.Some? && Same(env, t, p.value)
  }

  predicate SameSegments(env: Env, s: List<Segment>, s': List<Segment>)
    decreases s, 0
  {
    match s
    case Nil => s'.Nil?
    case Cons(Segment(ident, args), rest) =>
      s'.Cons? && s'.head.ident == ident && SameArguments(env, args, s'.head.args) && SameSegments(env, rest, s'.tail)
  }

  predicate SameArguments(env: Env, args: Arguments, args': Arguments)
    decreases args, 0
  {
    match args
    case NoArguments => args'.NoArguments?
    case Angle(list) => args'.Angle? && SameArgs(env, list, args'.args)
    case Parens(inputs, output) =>
      args'.Parens? && SameTypes(env, inputs, args'.inputs) && SameOption(env, output, args'.output)
  }

  predicate SameArgs(env: Env, list: List<Argument>, list': List<Argument>)
    decreases list, 0
  {
    match list
    case Nil => list'.Nil?
    case Cons(arg, rest) => list'.Cons? && SameArg(env, arg, list'.head) && SameArgs(env, rest, list'.tail)
  }

  predicate SameArg(env: Env, arg: Argument, arg': Argument)
    decreases arg, 0
  {
    match arg
    case TypeArg(t) => arg'.TypeArg? && Same(env, t, arg'.ty)
    case AssocArg(name, t) => arg'.AssocArg? && arg'.name == name && Same(env, t, arg'.ty)
    case OtherArg(_) => arg == arg'
  }

  predicate SameBounds(env: Env, bounds: List<Bound>, bounds': List<Bound>)
    decreases bounds, 0
  {
    match bounds
    case Nil => bounds'.Nil?
    case Cons(bound, rest) =>
      bounds'.Cons? && SameBound(env, bound, bounds'.head) && SameBounds(env, rest, bounds'.tail)
  }

  predicate SameBound(env: Env, bound: Bound, bound': Bound)
    decreases bound, 0
  {
    match bound
    case TraitBound(leading, path) => bound'.TraitBound? && SamePath(env, leading, path, bound'.leading, bound'.path)
    case OtherBound(_) => bound == bound'
  }

  // ----- when a path starts at the same entity from both modules -----

  /** The segments after any leading `crate`, `self` and `super`. */
  function Body(leading: bool, segments: List<Segment>): (r: List<Segment>)
    ensures r == segments || r < segments
  {
    if leading || segments.Nil? then segments
    else if segments.head.ident == "crate" then segments.tail
    else Unclimbed(segments)
  }

  function Unclimbed(segments: List<Segment>): (r: List<Segment>)
    ensures r == segments || r < segments
  {
    if segments.Cons? && (segments.head.ident == "self" || segments.head.ident == "super")
    then Unclimbed(segments.tail) else segments
  }

  /** After `up` steps outwards: the name must mean the same one module further out. */
  predicate ClimbFixed(env: Env, up: nat, segments: List<Segment>)
    decreases segments
  {
    match segments
    case Nil => false
    case Cons(first, rest) =>
      if first.ident == "self" then ClimbFixed(env, up, rest)
      else if first.ident == "super" then ClimbFixed(env, up + 1, rest)
      else if first.ident == "Self" then true
      else if up == 0 then first.ident !in env.generated
      else first.ident !in Own(env, up) && first.ident !in Own(env, up + 1)
  }

  /** A condition on names alone: an absolute path, or one whose first name is not generated. */
  predicate HeadFixed(env: Env, leading: bool, segments: List<Segment>) {
    leading ||
    match segments
    case Nil => true
    case Cons(first, _) =>
      if first.ident == "crate" then true
      else if first.ident == "self" || first.ident == "super" then ClimbFixed(env, 0, segments)
      else first.ident != "Self" && first.ident !in env.generated
  }

  lemma {:induction false} WalkFixed(env: Env, up: nat, segments: List<Segment>)
    ensures Walk(env, up, segments).rest == Walk(env, up + 1, segments).rest == Unclimbed(segments)
    ensures Walk(env, up, segments).entity == Walk(env, up + 1, segments).entity <==> ClimbFixed(env, up, segments)
    decreases segments
  {
    if segments.Cons? {
      if segments.head.ident == "self" {
        WalkFixed(env, up, segments.tail);
      } else if segments.head.ident == "super" {
        WalkFixed(env, up + 1, segments.tail);
      }
    }
  }

  lemma LocateFixed(env: Env, leading: bool, segments: List<Segment>)
    ensures Locate(env, 0, leading, segments).rest == Locate(env, 1, leading, segments).rest == Body(leading, segments)
    ensures Locate(env, 0, leading, segments).entity == Locate(env, 1, leading, segments).entity <==>
            HeadFixed(env, leading, segments)
  {
    WalkFixed(env, 0, segments);
  }

  // ----- left as it is: the same text means the same in both modules -----

  predicate Stable(env: Env, t: Type)
    decreases t, 0
  {
    match t
    case Path(qself, leading, segments) => StableOption(env, qself) && StablePath(env, leading, segments)
    case Reference(elem) => Stable(env, elem)
    case Tuple(elems) => StableTypes(env, elems)
    case Array(elem) => Stable(env, elem)
    case Slice(elem) => Stable(env, elem)
    case Paren(elem) => Stable(env, elem)
    case TraitObject(bounds) => StableBounds(env, bounds)
    case ImplTrait(bounds) => StableBounds(env, bounds)
    case BareFn(inputs, output) => StableTypes(env, inputs) && StableOption(env, output)
    case Ptr(elem) => Stable(env, elem)
    case Group(elem) => Stable(env, elem)
    case Verbatim(_) => true
  }

  predicate StablePath(env: Env, leading: bool, segments: List<Segment>)
    decreases segments, 1
  {
    HeadFixed(env, leading, segments) && StableSegments(env, Body(leading, segments))
  }

  predicate StableTypes(env: Env, ts: List<Type>)
    decreases ts, 0
  {
    ts.Cons? ==> Stable(env, ts.head) && StableTypes(env, ts.tail)
  }

  predicate StableOption(env: Env, o: Option<Type>)
    decreases o, 0
  {
    o.Some? ==> Stable(env, o.value)
  }

  predicate StableSegments(env: Env, s: List<Segment>)
    decreases s, 0
  {
    s.Cons? ==> StableArguments(env, s.head.args) && StableSegments(env, s.tail)
  }

  predicate StableArguments(env: Env, args: Arguments)
    decreases args, 0
  {
    match args
    case NoArguments => true
    case Angle(list) => StableArgs(env, list)
    case Parens(inputs, output) => StableTypes(env, inputs) && StableOption(env, output)
  }

  predicate StableArgs(env: Env, list: List<Argument>)
    decreases list, 0
  {
    list.Cons? ==> (!list.head.OtherArg? ==> Stable(env, list.head.ty)) && StableArgs(env, list.tail)
  }

  predicate StableBounds(env: Env, bounds: List<Bound>)
    decreases bounds, 0
  {
    bounds.Cons? ==>
      && (bounds.head.TraitBound? ==> StablePath(env, bounds.head.leading, bounds.head.path))
      && StableBounds(env, bounds.tail)
  }

  lemma {:induction false} StableExactly(env: Env, t: Type)
    ensures Same(env, t, t) <==> Stable(env, t)
    decreases t, 0
  {
    match t
    case Path(qself, leading, segments) =>
      StableOptionExactly(env, qself);
      StablePathExactly(env, leading, segments);
    case Reference(elem) => StableExactly(env, elem);
    case Tuple(elems) => StableTypesExactly(env, elems);
    case Array(elem) => StableExactly(env, elem);
    case Slice(elem) => StableExactly(env, elem);
    case Paren(elem) => StableExactly(env, elem);
    case TraitObject(bounds) => StableBoundsExactly(env, bounds);
    case ImplTrait(bounds) => StableBoundsExactly(env, bounds);
    case BareFn(inputs, output) =>
      StableTypesExactly(env, inputs);
      StableOptionExactly(env, output);
    case Ptr(elem) => StableExactly(env, elem);
    case Group(elem) => StableExactly(env, elem);
    case Verbatim(_) =>
  }

  lemma {:induction false} StablePathExactly(env: Env, leading: bool, segments: List<Segment>)
    ensures SamePath(env, leading, segments, leading, segments) <==> StablePath(env, leading, segments)
    decreases segments, 1
  {
    LocateFixed(env, leading, segments);
    StableSegmentsExactly(env, Body(leading, segments));
  }

  lemma {:induction false} StableTypesExactly(env: Env, ts: List<Type>)
    ensures SameTypes(env, ts, ts) <==> StableTypes(env, ts)
    decreases ts, 0
  {
    if ts.Cons? {
      StableExactly(env, ts.head);
      StableTypesExactly(env, ts.tail);
    }
  }

  lemma {:induction false} StableOptionExactly(env: Env, o: Option<Type>)
    ensures SameOption(env, o, o) <==> StableOption(env, o)
    decreases o, 0
  {
    if o.Some? {
      StableExactly(env, o.value);
    }
  }

  lemma {:induction false} StableSegmentsExactly(env: Env, s: List<Segment>)
    ensures SameSegments(env, s, s) <==> StableSegments(env, s)
    decreases s, 0
  {
    if s.Cons? {
      StableArgumentsExactly(env, s.head.args);
      StableSegmentsExactly(env, s.tail);
    }
  }

  lemma {:induction false} StableArgumentsExactly(env: Env, args: Arguments)
    ensures SameArguments(env, args, args) <==> StableArguments(env, args)
    decreases args, 0
  {
    match args
    case NoArguments =>
    case Angle(list) => StableArgsExactly(env, list);
    case Parens(inputs, output) =>
      StableTypesExactly(env, inputs);
      StableOptionExactly(env, output);
  }

  lemma {:induction false} StableArgsExactly(env: Env, list: List<Argument>)
    ensures SameArgs(env, list, list) <==> StableArgs(env, list)
    decreases list, 0
  {
    if list.Cons? {
      if !list.head.OtherArg? {
        StableExactly(env, list.head.ty);
      }
      StableArgsExactly(env, list.tail);
    }
  }

  lemma {:induction false} StableBoundsExactly(env: Env, bounds: List<Bound>)
    ensures SameBounds(env, bounds, bounds) <==> StableBounds(env, bounds)
    decreases bounds, 0
  {
    if bounds.Cons? {
      if bounds.head.TraitBound? {
        StablePathExactly(env, bounds.head.leading, bounds.head.path);
      }
      StableBoundsExactly(env, bounds.tail);
    }
  }

  // ----- rewritten: when the result means in the generated module what the original means in the parent -----

  /** The first name of a path that is rewritten. */
  predicate NameSafe(env: Env, name: string) {
    if IsPreludeOrPrimitive(name) then name !in env.generated
    else name != "Self" && (name in env.parent || (name !in env.crates && name !in env.prelude))
  }

  predicate Safe(env: Env, t: Type)
    decreases t, 0
  {
    match t
    case Path(_, _, segments) =>
      if LeftAsIs(t) then Stable(env, t)
      else segments.Cons? && NameSafe(env, segments.head.ident) && SafeSegments(env, segments, false)
    case Reference(elem) => Safe(env, elem)
    case Tuple(elems) => SafeTypes(env, elems)
    case Array(elem) => Safe(env, elem)
    case Slice(elem) => Safe(env, elem)
    case Paren(elem) => Safe(env, elem)
    case TraitObject(bounds) => SafeBounds(env, bounds)
    case ImplTrait(bounds) => SafeBounds(env, bounds)
    case BareFn(inputs, output) => SafeTypes(env, inputs) && SafeOption(env, output)
    case Ptr(elem) => Stable(env, elem)
    case Group(elem) => Stable(env, elem)
    case Verbatim(_) => true
  }

  predicate SafeTypes(env: Env, ts: List<Type>)
    decreases ts, 0
  {
    ts.Cons? ==> Safe(env, ts.head) && SafeTypes(env, ts.tail)
  }

  predicate SafeOption(env: Env, o: Option<Type>)
    decreases o, 0
  {
    o.Some? ==> Safe(env, o.value)
  }

  predicate SafeSegments(env: Env, s: List<Segment>, bound: bool)
    decreases s, 0
  {
    s.Cons? ==> SafeArguments(env, s.head.args, bound) && SafeSegments(env, s.tail, bound)
  }

  predicate SafeArguments(env: Env, args: Arguments, bound: bool)
    decreases args, 0
  {
    match args
    case NoArguments => true
    case Angle(list) => SafeArgs(env, list)
    case Parens(inputs, output) =>
      if bound then SafeTypes(env, inputs) && SafeOption(env, output)
      else StableTypes(env, inputs) && StableOption(env, output)
  }

  predicate SafeArgs(env: Env, list: List<Argument>)
    decreases list, 0
  {
    list.Cons? ==>
      && (list.head.TypeArg? ==> Safe(env, list.head.ty))
      && (list.head.AssocArg? ==> Stable(env, list.head.ty))
      && SafeArgs(env, list.tail)
  }

  predicate SafeBounds(env: Env, bounds: List<Bound>)
    decreases bounds, 0
  {
    bounds.Cons? ==>
      && (bounds.head.TraitBound? ==>
            && HeadFixed(env, bounds.head.leading, bounds.head.path)
            && SafeSegments(env, Body(bounds.head.leading, bounds.head.path), true))
      && SafeBounds(env, bounds.tail)
  }

  lemma {:induction false} BodyQualified(env: Env, m: nat, leading: bool, s: List<Segment>)
    ensures Locate(env, m, leading, QualifySegments(s, true)).entity == Locate(env, m, leading, s).entity
    ensures Locate(env, m, leading, QualifySegments(s, true)).rest ==
            QualifySegments(Locate(env, m, leading, s).rest, true)
  {
    WalkQualified(env, m, s);
  }

  lemma {:induction false} WalkQualified(env: Env, m: nat, s: List<Segment>)
    ensures Walk(env, m, QualifySegments(s, true)).entity == Walk(env, m, s).entity
    ensures Walk(env, m, QualifySegments(s, true)).rest == QualifySegments(Walk(env, m, s).rest, true)
    decreases s
  {
    if s.Cons? {
      if s.head.ident == "self" {
        WalkQualified(env, m, s.tail);
      } else if s.head.ident == "super" {
        WalkQualified(env, m + 1, s.tail);
      }
    }
  }

  lemma {:induction false} QualifiedPath(env: Env, segments: List<Segment>)
    requires segments.Cons? && !IsReserved(segments.head.ident)
    ensures var t := Path(None, false, segments);
            SamePath(env, false, segments, false, Qualify(t).segments) <==>
            NameSafe(env, segments.head.ident) && SameSegments(env, segments, QualifySegments(segments, false))
  {
    var name := segments.head.ident;
    var qualified := QualifySegments(segments, false);
    if !IsPreludeOrPrimitive(name) {
      var u := Cons(Segment("super", NoArguments), qualified);
      assert Locate(env, 0, false, u) == Walk(env, 1, qualified);
    }
  }

  /**
   For every type and every environment: the rewritten type means in the generated module
   what the original means in the parent, if and only if the names in it are safe.
   */
  lemma {:induction false} QualifyPreservesMeaning(env: Env, t: Type)
    ensures Same(env, t, Qualify(t)) <==> Safe(env, t)
    decreases t, 0
  {
    match t
    case Path(qself, leading, segments) =>
      if LeftAsIs(t) {
        StableExactly(env, t);
      } else if segments.Cons? {
        QualifiedPath(env, segments);
        SegmentsPreserve(env, segments, false);
      }
    case Reference(elem) => QualifyPreservesMeaning(env, elem);
    case Tuple(elems) => TypesPreserve(env, elems);
    case Array(elem) => QualifyPreservesMeaning(env, elem);
    case Slice(elem) => QualifyPreservesMeaning(env, elem);
    case Paren(elem) => QualifyPreservesMeaning(env, elem);
    case TraitObject(bounds) => BoundsPreserve(env, bounds);
    case ImplTrait(bounds) => BoundsPreserve(env, bounds);
    case BareFn(inputs, output) =>
      TypesPreserve(env, inputs);
      OptionPreserve(env, output);
    case Ptr(elem) => StableExactly(env, elem);
    case Group(elem) => StableExactly(env, elem);
    case Verbatim(_) =>
  }

  lemma {:induction false} TypesPreserve(env: Env, ts: List<Type>)
    ensures SameTypes(env, ts, QualifyTypes(ts)) <==> SafeTypes(env, ts)
    decreases ts, 0
  {
    if ts.Cons? {
      QualifyPreservesMeaning(env, ts.head);
      TypesPreserve(env, ts.tail);
    }
  }

  lemma {:induction false} OptionPreserve(env: Env, o: Option<Type>)
    ensures SameOption(env, o, QualifyOption(o)) <==> SafeOption(env, o)
    decreases o, 0
  {
    if o.Some? {
      QualifyPreservesMeaning(env, o.value);
    }
  }

  lemma {:induction false} SegmentsPreserve(env: Env, s: List<Segment>, bound: bool)
    ensures SameSegments(env, s, QualifySegments(s, bound)) <==> SafeSegments(env, s, bound)
    decreases s, 0
  {
    if s.Cons? {
      ArgumentsPreserve(env, s.head.args, bound);
      SegmentsPreserve(env, s.tail, bound);
    }
  }

  lemma {:induction false} ArgumentsPreserve(env: Env, args: Arguments, bound: bool)
    ensures SameArguments(env, args, QualifyArguments(args, bound)) <==> SafeArguments(env, args, bound)
    decreases args, 0
  {
    match args
    case NoArguments =>
    case Angle(list) => ArgsPreserve(env, list);
    case Parens(inputs, output) =>
      if bound {
        TypesPreserve(env, inputs);
        OptionPreserve(env, output);
      } else {
        StableTypesExactly(env, inputs);
        StableOptionExactly(env, output);
      }
  }

  lemma {:induction false} ArgsPreserve(env: Env, list: List<Argument>)
    ensures SameArgs(env, list, QualifyArgs(list)) <==> SafeArgs(env, list)
    decreases list, 0
  {
    if list.Cons? {
      if list.head.TypeArg? {
        QualifyPreservesMeaning(env, list.head.ty);
      } else if list.head.AssocArg? {
        StableExactly(env, list.head.ty);
      }
      ArgsPreserve(env, list.tail);
    }
  }

  lemma {:induction false} BoundsPreserve(env: Env, bounds: List<Bound>)
    ensures SameBounds(env, bounds, QualifyBounds(bounds)) <==> SafeBounds(env, bounds)
    decreases bounds, 0
  {
    if bounds.Cons? {
      var b := bounds.head;
      if b.TraitBound? {
        LocateFixed(env, b.leading, b.path);
        BodyQualified(env, 0, b.leading, b.path);
        SegmentsPreserve(env, Body(b.leading, b.path), true);
        assert SameBound(env, b, QualifyBounds(bounds).head) <==>
               HeadFixed(env, b.leading, b.path) && SafeSegments(env, Body(b.leading, b.path), true);
      }
      BoundsPreserve(env, bounds.tail);
    }
  }

  // ----- ways to lose the meaning -----

  function OneName(name: string): Type {
    Path(None, false, Cons(Segment(name, NoArguments), Nil))
  }

  function DynWithItem(head: string, item: Type): Type {
    TraitObject(Cons(TraitBound(false, Cons(Segment(head, Angle(Cons(AssocArg("Item", item), Nil))), Nil)), Nil))
  }

  /** A path into an external crate: `serde::Value` becomes `super::serde::Value`, which names nothing. */
  lemma CratePathIsLost(env: Env, name: string, rest: List<Segment>)
    requires name in env.crates && name !in env.parent && !IsReserved(name) && !IsPreludeOrPrimitive(name)
    ensures var t := Path(None, false, Cons(Segment(name, NoArguments), rest)); !Same(env, t, Qualify(t))
  {
    QualifyPreservesMeaning(env, Path(None, false, Cons(Segment(name, NoArguments), rest)));
  }

  /** `Self` becomes `super::Self`, which names nothing, in every environment. */
  lemma SelfIsLost(env: Env, rest: List<Segment>)
    ensures var t := Path(None, false, Cons(Segment("Self", NoArguments), rest)); !Same(env, t, Qualify(t))
  {
    QualifyPreservesMeaning(env, Path(None, false, Cons(Segment("Self", NoArguments), rest)));
  }

  /**
   Associated types are not rewritten: alone, the name of a generated struct would be
   rewritten safely, but in `dyn Iterator<Item = Event>` the generated `Event` captures it.
   */
  lemma AssociatedTypeIsCaptured(env: Env, head: string, name: string)
    requires name in env.generated && name in env.parent && name != "Self"
    requires !IsReserved(name) && !IsPreludeOrPrimitive(name)
    requires !IsReserved(head)
    ensures Same(env, OneName(name), Qualify(OneName(name)))
    ensures !Same(env, DynWithItem(head, OneName(name)), Qualify(DynWithItem(head, OneName(name))))
  {
    QualifyPreservesMeaning(env, OneName(name));
    QualifyPreservesMeaning(env, DynWithItem(head, OneName(name)));
    assert SafeSegments(env, Cons(Segment(name, NoArguments), Nil), false) by {
      assert SafeSegments(env, Nil, false);
    }
    assert !Stable(env, OneName(name));
    var path := Cons(Segment(head, Angle(Cons(AssocArg("Item", OneName(name)), Nil))), Nil);
    assert !SafeArguments(env, path.head.args, true);
    assert Body(false, path) == path;
    assert !SafeBounds(env, Cons(TraitBound(false, path), Nil));
  }
}
