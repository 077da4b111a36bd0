/**
  IDL types as the code generator sees them, and the C++ objects the generated code works on.
 */
module Idl {
  import opened Wrappers
  import opened Wire
  import opened Unions

  // ----- types -----

  type Name = nat

  datatype NumKind =
    | Integer
    | Boolean
    | Enumeration(values: seq<nat>, dflt: Option<nat>)

  /** A base type or an enum, with the size it has on the stream. */
  datatype NumType = NumType(width: Width, kind: NumKind)

  /** A bound of 0 means that there is none. */
  datatype Type =
    | Num(num: NumType)
    | Str(bound: nat)
    | Sequence(elem: Type, bound: nat)
    | Named(name: Name)

  /** Whether a member is always there, may be missing, or is held through a pointer. */
  datatype Presence = Required | Optional | External

  /** `slot` is the place of the member in the C++ object and stands for its name. */
  datatype Declarator = Declarator(id: nat, slot: nat, dims: seq<nat>, presence: Presence)

  datatype Member = Member(ty: Type, decls: seq<Declarator>)

  /** `keyed` says that the discriminator of the union is a key. */
  datatype Case = Case(labels: Arm, ty: Type, dims: seq<nat>, keyed: bool)

  datatype Base = NoBase | Inherits(def: Def)

  /**
    Every declarator of a typedef is a definition of its own, with its own dimensions `dims`;
    `first` has those of the first declarator.
   */
  datatype Def =
    | Struct(base: Base, members: seq<Member>)
    | Union(disc: NumType, cases: seq<Case>, dflt: nat, implicit: bool)
    | Typedef(ty: Type, dims: seq<nat>, first: seq<nat>)

  /** Every named type of the translation unit; a named type may be recursive through its members. */
  type Env = map<Name, Def>

  /** One declarator of one member. */
  datatype Field = Field(decl: Declarator, ty: Type)

  function MemberFields(m: Member): (r: seq<Field>)
    ensures |r| == |m.decls|
  {
    seq(|m.decls|, k requires 0 <= k < |m.decls| => Field(m.decls[k], m.ty))
  }

  function FieldsOf(members: seq<Member>): seq<Field> {
    if members == [] then [] else MemberFields(members[0]) + FieldsOf(members[1..])
  }

  /** All fields of a struct, those of its bases first. */
  function Fields(def: Def): seq<Field> {
    match def
    case Struct(Inherits(base), members) => Fields(base) + FieldsOf(members)
    case Struct(NoBase, members) => FieldsOf(members)
    case _ => []
  }

  function ShapeOf(def: Def): (u: Shape)
    requires def.Union?
    ensures |u.arms| == |def.cases|
  {
    Shape(seq(|def.cases|, i requires 0 <= i < |def.cases| => def.cases[i].labels), def.dflt, def.implicit)
  }

  predicate HasNum(num: NumType, n: nat) {
    && n < Range(num.width)
    && match num.kind
       case Integer => true
       case Boolean => n < 2
       case Enumeration(values, _) => n in values
  }

  predicate Numbered(fs: seq<Field>) {
    forall k :: 0 <= k < |fs| ==> fs[k].decl.slot == k
  }

  predicate DistinctIds(fs: seq<Field>) {
    forall j, k :: 0 <= j < k < |fs| ==> fs[j].decl.id != fs[k].decl.id
  }

  predicate AllRequired(fs: seq<Field>) {
    forall k :: 0 <= k < |fs| ==> fs[k].decl.presence.Required?
  }

  /** What the IDL parser guarantees of a definition. The objects below have required members only. */
  ghost predicate WellFormedDef(def: Def) {
    match def
    case Struct(_, _) =>
      Numbered(Fields(def)) && DistinctIds(Fields(def)) && AllRequired(Fields(def))
    case Union(disc, cases, dflt, implicit) =>
      && WellFormed(ShapeOf(def))
      && HasNum(disc, dflt)
      && (forall i, k | 0 <= i < |cases| && 0 <= k < |cases[i].labels| :: HasNum(disc, cases[i].labels[k].value))
      && (forall d | HasNum(disc, d) :: Legal(ShapeOf(def), d))
    case Typedef(_, _, _) => true
  }

  ghost predicate WellFormedEnv(env: Env) {
    forall n :: n in env ==> WellFormedDef(env[n])
  }

  // ----- typedefs -----

  /** Looks through typedefs that add no dimensions. A typedef precedes its uses, hence the order. */
  function Strip(env: Env, ty: Type): (r: Type)
    decreases if ty.Named? then ty.name + 1 else 0
  {
    if ty.Named? && ty.name in env && env[ty.name].Typedef? && env[ty.name].dims == [] &&
       (env[ty.name].ty.Named? ==> env[ty.name].ty.name < ty.name)
    then Strip(env, env[ty.name].ty)
    else ty
  }

  /** A typedef without dimensions, which precedes its uses. */
  predicate IsAlias(env: Env, ty: Type) {
    ty.Named? && ty.name in env && env[ty.name].Typedef? && env[ty.name].dims == [] &&
    (env[ty.name].ty.Named? ==> env[ty.name].ty.name < ty.name)
  }

  /** `n` typedefs further on. */
  function AliasedBy(env: Env, ty: Type, n: nat): Type
    decreases n
  {
    if n > 0 && IsAlias(env, ty) then AliasedBy(env, env[ty.name].ty, n - 1) else ty
  }

  /** Stripping follows typedefs without dimensions, and stops only where there is none. */
  lemma {:induction false} StripMeans(env: Env, ty: Type) returns (n: nat)
    ensures Strip(env, ty) == AliasedBy(env, ty, n) && !IsAlias(env, Strip(env, ty))
    decreases if ty.Named? then ty.name + 1 else 0
  {
    n := 0;
    if IsAlias(env, ty) {
      n := StripMeans(env, env[ty.name].ty);
      n := n + 1;
    }
  }

  predicate IsBaseType(ty: Type) { ty.Num? && !ty.num.kind.Enumeration? }

  predicate IsBoolean(ty: Type) { ty.Num? && ty.num.kind.Boolean? }

  /** Typedefs of base types and strings that are streamed as these: the first declarator decides. */
  predicate IsBareTypedef(env: Env, n: Name) {
    n in env && env[n].Typedef? && env[n].first == [] && (IsBaseType(env[n].ty) || env[n].ty.Str?)
  }

  /**
    What it takes for that to be right: an alias of a base type or string that is an array
    comes from a typedef whose first declarator is an array as well.
   */
  predicate AliasAgrees(def: Def) {
    def.Typedef? && (IsBaseType(def.ty) || def.ty.Str?) ==> def.dims == [] || def.first != []
  }

  /** All aliases that the type comes to agree, with named types followed `fuel` deep. */
  ghost predicate Streamable(env: Env, fuel: nat, ty: Type)
    decreases fuel, 0, ty
  {
    match ty
    case Sequence(elem, _) => Streamable(env, fuel, elem)
    case Named(n) => fuel > 0 && n in env ==> AliasAgrees(env[n]) && StreamableDef(env, fuel - 1, env[n])
    case _ => true
  }

  ghost predicate StreamableDef(env: Env, fuel: nat, def: Def)
    decreases fuel, 1
  {
    match def
    case Struct(_, _) => forall k :: 0 <= k < |Fields(def)| ==> Streamable(env, fuel, Fields(def)[k].ty)
    case Union(_, cases, _, _) => forall i :: 0 <= i < |cases| ==> Streamable(env, fuel, cases[i].ty)
    case Typedef(ty, _, _) => Streamable(env, fuel, ty)
  }

  // ----- objects -----

  /**
    A C++ object. Structs, arrays and vectors are nodes. A union holds its discriminator and
    the alternative of the branch the discriminator selects; what its variant holds while no
    branch is selected cannot be observed and is left out.
   */
  datatype Val =
    | VNum(n: nat)
    | VText(s: seq<byte>)
    | VNode(kids: seq<Val>)
    | VUnion(d: nat, payload: Option<Val>)

  const UINT32_LIMIT := 0x1_0000_0000

  /** `v` is a value of the type within its bounds, with named types nested at most `fuel` deep. */
  ghost predicate HasType(env: Env, fuel: nat, ty: Type, v: Val)
    decreases fuel, 0, ty, 0, 0
  {
    match ty
    case Num(num) => v.VNum? && HasNum(num, v.n)
    case Str(bound) => v.VText? && (bound > 0 ==> |v.s| <= bound) && |v.s| + 1 < UINT32_LIMIT
    case Sequence(elem, bound) =>
      && v.VNode? && (bound > 0 ==> |v.kids| <= bound) && |v.kids| < UINT32_LIMIT
      && HasTypeAll(env, fuel, [], elem, v.kids)
    case Named(name) => fuel > 0 && name in env && HasDef(env, fuel - 1, env[name], v)
  }

  ghost predicate HasArray(env: Env, fuel: nat, dims: seq<nat>, ty: Type, v: Val)
    decreases fuel, 0, ty, |dims|, 1
  {
    if dims == [] then HasType(env, fuel, ty, v)
    else v.VNode? && |v.kids| == dims[0] > 0 && HasTypeAll(env, fuel, dims[1..], ty, v.kids)
  }

  ghost predicate HasTypeAll(env: Env, fuel: nat, dims: seq<nat>, ty: Type, kids: seq<Val>)
    decreases fuel, 0, ty, |dims|, 2
  {
    forall k {:trigger HasArray(env, fuel, dims, ty, kids[k])} :: 0 <= k < |kids| ==>
      HasArray(env, fuel, dims, ty, kids[k])
  }

  ghost predicate HasDef(env: Env, fuel: nat, def: Def, v: Val)
    decreases fuel, 1
  {
    match def
    case Struct(_, _) => v.VNode? && HasFields(env, fuel, Fields(def), v.kids)
    case Union(disc, cases, _, implicit) =>
      && v.VUnion? && HasNum(disc, v.d)
      && (match ArmOf(ShapeOf(def), v.d)
          case Some(i) => v.payload.Some? && HasArray(env, fuel, cases[i].dims, cases[i].ty, v.payload.value)
          case None => v.payload.None?)
    case Typedef(ty, dims, _) => HasArray(env, fuel, dims, ty, v)
  }

  ghost predicate HasFields(env: Env, fuel: nat, fields: seq<Field>, kids: seq<Val>)
    decreases fuel, 0
  {
    |kids| == |fields| &&
    forall k :: 0 <= k < |kids| ==> HasArray(env, fuel, fields[k].decl.dims, fields[k].ty, kids[k])
  }

  // ----- default-constructed objects -----

  function Copies(n: nat, v: Val): (r: seq<Val>)
    ensures |r| == n
  {
    seq(n, _ => v)
  }

  /** The default-constructed object of a type (types that hold themselves by value have none). */
  function Default(env: Env, fuel: nat, ty: Type): Val
    decreases fuel, 0, 0
  {
    match ty
    case Num(_) => VNum(0)
    case Str(_) => VText([])
    case Sequence(_, _) => VNode([])
    case Named(name) => if fuel > 0 && name in env then DefaultDef(env, fuel - 1, env[name]) else VNode([])
  }

  function DefaultArray(env: Env, fuel: nat, dims: seq<nat>, ty: Type): Val
    decreases fuel, 0, 1 + |dims|
  {
    if dims == [] then Default(env, fuel, ty)
    else VNode(Copies(dims[0], DefaultArray(env, fuel, dims[1..], ty)))
  }

  function DefaultDef(env: Env, fuel: nat, def: Def): Val
    decreases fuel, 1
  {
    match def
    case Struct(_, _) =>
      var fs := Fields(def);
      VNode(seq(|fs|, k requires 0 <= k < |fs| => DefaultArray(env, fuel, fs[k].decl.dims, fs[k].ty)))
    case Union(_, _, dflt, _) => VUnion(dflt, None)
    case Typedef(ty, dims, _) => DefaultArray(env, fuel, dims, ty)
  }

  /**
    An object a sample can be read into: vectors are no longer than their bounds, and their elements
    can be read into as well. A union with an implicit default has no active branch. Numbers and
    strings may be any.
   */
  ghost predicate Receptive(env: Env, fuel: nat, ty: Type, v: Val)
    decreases fuel, 0, ty, 0, 0
  {
    match ty
    case Num(_) => !v.VNode?
    case Str(_) => !v.VNode?
    case Sequence(elem, bound) =>
      v.VNode? && (bound > 0 ==> |v.kids| % UINT32_LIMIT <= bound) && AllReceptive(env, fuel, [], elem, v.kids, 0)
    case Named(name) => fuel > 0 && name in env && ReceptiveDef(env, fuel - 1, env[name], v)
  }

  /** The objects from number `from` on can be read into. */
  ghost predicate AllReceptive(env: Env, fuel: nat, dims: seq<nat>, ty: Type, cur: seq<Val>, from: nat)
    decreases fuel, 0, ty, |dims|, 2
  {
    forall k {:trigger ReceptiveArray(env, fuel, dims, ty, cur[k])} :: from <= k < |cur| ==>
      ReceptiveArray(env, fuel, dims, ty, cur[k])
  }

  ghost predicate ReceptiveArray(env: Env, fuel: nat, dims: seq<nat>, ty: Type, v: Val)
    decreases fuel, 0, ty, |dims|, 1
  {
    if dims == [] then Receptive(env, fuel, ty, v)
    else v.VNode? && |v.kids| == dims[0] && AllReceptive(env, fuel, dims[1..], ty, v.kids, 0)
  }

  ghost predicate ReceptiveDef(env: Env, fuel: nat, def: Def, v: Val)
    decreases fuel, 1
  {
    match def
    case Struct(_, _) =>
      var fs := Fields(def);
      v.VNode? && |v.kids| == |fs| &&
      forall k :: 0 <= k < |fs| ==> ReceptiveArray(env, fuel, fs[k].decl.dims, fs[k].ty, v.kids[k])
    case Union(_, _, dflt, implicit) => v.VUnion? && (v.d == dflt || !implicit || ArmOf(ShapeOf(def), v.d).None?)
    case Typedef(ty, dims, _) => ReceptiveArray(env, fuel, dims, ty, v)
  }

  /** A type that has a value is default-constructed into an object a sample can be read into. */
  lemma {:induction false} DefaultIsReceptive(env: Env, fuel: nat, dims: seq<nat>, ty: Type, v: Val)
    requires HasArray(env, fuel, dims, ty, v)
    ensures ReceptiveArray(env, fuel, dims, ty, DefaultArray(env, fuel, dims, ty))
    decreases fuel, 0, |dims|
  {
    if dims != [] {
      DefaultIsReceptive(env, fuel, dims[1..], ty, v.kids[0]);
    } else if ty.Named? {
      DefaultDefIsReceptive(env, fuel - 1, env[ty.name], v);
    }
  }

  lemma {:induction false} DefaultDefIsReceptive(env: Env, fuel: nat, def: Def, v: Val)
    requires HasDef(env, fuel, def, v)
    ensures ReceptiveDef(env, fuel, def, DefaultDef(env, fuel, def))
    decreases fuel, 1
  {
    match def
    case Struct(_, _) =>
      var fs := Fields(def);
      forall k | 0 <= k < |fs|
        ensures ReceptiveArray(env, fuel, fs[k].decl.dims, fs[k].ty, DefaultArray(env, fuel, fs[k].decl.dims, fs[k].ty))
      {
        DefaultIsReceptive(env, fuel, fs[k].decl.dims, fs[k].ty, v.kids[k]);
      }
    case Union(_, _, _, _) =>
    case Typedef(ty, dims, _) => DefaultIsReceptive(env, fuel, dims, ty, v);
  }
}
