/**
  Types that count as self-contained have their serialized size measured once, for the first
  sample. This shows for which of them that size is the size of every sample: those of which all
  values end in the same place, which the type alone determines.
 */
module FixedSize {
  import opened Wrappers
  import opened Wire
  import opened Unions
  import opened Idl
  import opened Encoding
  import opened Programs
  import opened Emitter
  import opened Machine
  import opened WriteMove
  import MaxTight

  /**
    No strings and no sequences, through typedefs, members, bases and branches. For types without
    optional and external members that is what makes them count as self-contained.
   */
  predicate Vectorless(env: Env, fuel: nat, ty: Type)
    decreases fuel, 0
  {
    match ty
    case Num(_) => true
    case Str(_) => false
    case Sequence(_, _) => false
    case Named(n) => fuel > 0 && n in env && VectorlessDef(env, fuel - 1, env[n])
  }

  predicate VectorlessDef(env: Env, fuel: nat, def: Def)
    decreases fuel, 1
  {
    match def
    case Struct(_, _) => forall k :: 0 <= k < |Fields(def)| ==> Vectorless(env, fuel, Fields(def)[k].ty)
    case Union(_, cases, _, _) => forall i :: 0 <= i < |cases| ==> Vectorless(env, fuel, cases[i].ty)
    case Typedef(ty, _, _) => Vectorless(env, fuel, ty)
  }

  /** No unions on the way either. */
  predicate UnionFree(env: Env, fuel: nat, ty: Type)
    decreases fuel, 0
  {
    ty.Named? && fuel > 0 && ty.name in env ==> UnionFreeDef(env, fuel - 1, env[ty.name])
  }

  predicate UnionFreeDef(env: Env, fuel: nat, def: Def)
    decreases fuel, 1
  {
    match def
    case Struct(_, _) => forall k :: 0 <= k < |Fields(def)| ==> UnionFree(env, fuel, Fields(def)[k].ty)
    case Union(_, _, _, _) => false
    case Typedef(ty, _, _) => UnionFree(env, fuel, ty)
  }

  // ----- where values of a type can end -----

  /** All positions that the encoding of a value can end at when it starts at `pos`. */
  function Ends(env: Env, ma: MaxAlign, fuel: nat, ty: Type, pos: nat): set<nat>
    decreases fuel, 0, 0, 0
  {
    match ty
    case Num(num) => {pos + Padding(pos, num.width, ma) + num.width}
    case Named(n) => if fuel > 0 && n in env then EndsOfDef(env, ma, fuel - 1, env[n], pos) else {}
    case _ => {}
  }

  function EndsOfArray(env: Env, ma: MaxAlign, fuel: nat, dims: seq<nat>, ty: Type, pos: nat): set<nat>
    decreases fuel, 0, |dims|, 1
  {
    if dims == [] then Ends(env, ma, fuel, ty, pos)
    else EndsOfCopies(env, ma, fuel, dims[0], dims[1..], ty, {pos})
  }

  /** The same for several starts. */
  function EndsFrom(env: Env, ma: MaxAlign, fuel: nat, dims: seq<nat>, ty: Type, starts: set<nat>): set<nat>
    decreases fuel, 0, |dims|, 2
  {
    set p, e | p in starts && e in EndsOfArray(env, ma, fuel, dims, ty, p) :: e
  }

  function EndsOfCopies(env: Env, ma: MaxAlign, fuel: nat, count: nat, dims: seq<nat>, ty: Type, starts: set<nat>)
    : set<nat>
    decreases fuel, 0, |dims|, 3 + count
  {
    if count == 0 then starts
    else EndsOfCopies(env, ma, fuel, count - 1, dims, ty, EndsFrom(env, ma, fuel, dims, ty, starts))
  }

  function EndsOfFields(env: Env, ma: MaxAlign, fuel: nat, fs: seq<Field>, starts: set<nat>): set<nat>
    decreases fuel, 1, |fs|, 0
  {
    if fs == [] then starts
    else EndsOfFields(env, ma, fuel, fs[1..], EndsFrom(env, ma, fuel, fs[0].decl.dims, fs[0].ty, starts))
  }

  /** A union ends where one of its branches can end, or after the discriminator of its implicit default. */
  function EndsOfDef(env: Env, ma: MaxAlign, fuel: nat, def: Def, pos: nat): set<nat>
    decreases fuel, 2, 0, 0
  {
    match def
    case Struct(_, _) => EndsOfFields(env, ma, fuel, Fields(def), {pos})
    case Typedef(ty, dims, _) => EndsOfArray(env, ma, fuel, dims, ty, pos)
    case Union(disc, cases, _, implicit) =>
      var start := pos + Padding(pos, disc.width, ma) + disc.width;
      (set i, e | 0 <= i < |cases| && e in EndsOfArray(env, ma, fuel, cases[i].dims, cases[i].ty, start) :: e)
      + (if implicit then {start} else {})
  }

  // ----- every value ends there -----

  lemma {:induction false} ValueEnds(env: Env, ma: MaxAlign, fuel: nat, ty: Type, v: Val, pos: nat)
    requires WellFormedEnv(env) && Vectorless(env, fuel, ty) && HasType(env, fuel, ty, v)
    ensures pos + |Enc(env, ma, fuel, ty, v, pos)| in Ends(env, ma, fuel, ty, pos)
    decreases fuel, 0, 0, 0
  {
    hide EncDef; hide HasDef; hide EndsOfDef; hide WellFormedDef; hide VectorlessDef; hide Padding; hide Bytes;
    if ty.Named? { ValueOfDefEnds(env, ma, fuel - 1, env[ty.name], v, pos); }
  }

  lemma {:induction false} ValueOfArrayEnds(env: Env, ma: MaxAlign, fuel: nat, dims: seq<nat>, ty: Type, v: Val,
                                            pos: nat)
    requires WellFormedEnv(env) && Vectorless(env, fuel, ty) && HasArray(env, fuel, dims, ty, v)
    ensures pos + |EncArray(env, ma, fuel, dims, ty, v, pos)| in EndsOfArray(env, ma, fuel, dims, ty, pos)
    decreases fuel, 0, |dims|, 1
  {
    hide WellFormedEnv; hide Enc; hide EncAll; hide Ends; hide EndsOfCopies; hide HasType; hide HasTypeAll;
    hide Vectorless;
    if dims == [] {
      ValueEnds(env, ma, fuel, ty, v, pos);
    } else {
      CopiesEnd(env, ma, fuel, dims[1..], ty, v.kids, {pos}, pos);
    }
  }

  lemma InFrom(env: Env, ma: MaxAlign, fuel: nat, dims: seq<nat>, ty: Type, starts: set<nat>, p: nat, e: nat)
    requires p in starts && e in EndsOfArray(env, ma, fuel, dims, ty, p)
    ensures e in EndsFrom(env, ma, fuel, dims, ty, starts)
  {
    hide EndsOfArray;
  }

  lemma InUnion(env: Env, ma: MaxAlign, fuel: nat, def: Def, pos: nat, i: nat, e: nat)
    requires def.Union? && i < |def.cases|
    requires e in EndsOfArray(env, ma, fuel, def.cases[i].dims, def.cases[i].ty,
                              pos + Padding(pos, def.disc.width, ma) + def.disc.width)
    ensures e in EndsOfDef(env, ma, fuel, def, pos)
  {
    hide EndsOfArray; hide Padding;
  }

  lemma {:induction false} CopiesEnd(env: Env, ma: MaxAlign, fuel: nat, dims: seq<nat>, ty: Type, kids: seq<Val>,
                                     starts: set<nat>, pos: nat)
    requires WellFormedEnv(env) && Vectorless(env, fuel, ty) && HasTypeAll(env, fuel, dims, ty, kids) && pos in starts
    ensures pos + |EncAll(env, ma, fuel, dims, ty, kids, pos)| in EndsOfCopies(env, ma, fuel, |kids|, dims, ty, starts)
    decreases fuel, 0, |dims|, 3 + |kids|
  {
    hide WellFormedEnv; hide EncArray; hide EndsOfArray; hide HasArray; hide Vectorless; hide EndsFrom;
    if kids != [] {
      HasTypeTail(env, fuel, dims, ty, kids);
      hide HasTypeAll;
      ValueOfArrayEnds(env, ma, fuel, dims, ty, kids[0], pos);
      var next := pos + |EncArray(env, ma, fuel, dims, ty, kids[0], pos)|;
      InFrom(env, ma, fuel, dims, ty, starts, pos, next);
      CopiesEnd(env, ma, fuel, dims, ty, kids[1..], EndsFrom(env, ma, fuel, dims, ty, starts), next);
    }
  }

  lemma {:induction false} FieldsEnd(env: Env, ma: MaxAlign, fuel: nat, fs: seq<Field>, kids: seq<Val>,
                                     starts: set<nat>, pos: nat)
    requires WellFormedEnv(env) && HasFields(env, fuel, fs, kids) && pos in starts
    requires forall k :: 0 <= k < |fs| ==> Vectorless(env, fuel, fs[k].ty)
    ensures pos + |EncFields(env, ma, fuel, fs, kids, pos)| in EndsOfFields(env, ma, fuel, fs, starts)
    decreases fuel, 1, |fs|, 0
  {
    hide WellFormedEnv; hide EncArray; hide EndsOfArray; hide HasArray; hide Vectorless; hide EndsFrom;
    if fs != [] {
      FieldsTail(env, fuel, fs, kids);
      ValueOfArrayEnds(env, ma, fuel, fs[0].decl.dims, fs[0].ty, kids[0], pos);
      var next := pos + |EncArray(env, ma, fuel, fs[0].decl.dims, fs[0].ty, kids[0], pos)|;
      InFrom(env, ma, fuel, fs[0].decl.dims, fs[0].ty, starts, pos, next);
      FieldsEnd(env, ma, fuel, fs[1..], kids[1..], EndsFrom(env, ma, fuel, fs[0].decl.dims, fs[0].ty, starts), next);
    }
  }

  lemma FieldsTail(env: Env, fuel: nat, fs: seq<Field>, kids: seq<Val>)
    requires HasFields(env, fuel, fs, kids) && fs != []
    ensures kids != [] && HasArray(env, fuel, fs[0].decl.dims, fs[0].ty, kids[0])
    ensures HasFields(env, fuel, fs[1..], kids[1..])
  {
    hide HasArray;
    assert forall k :: 0 <= k < |fs| - 1 ==> fs[1..][k] == fs[k + 1] && kids[1..][k] == kids[k + 1];
  }

  /** The encoding of every value of a self-contained type ends at one of the positions found for the type. */
  lemma {:induction false} ValueOfDefEnds(env: Env, ma: MaxAlign, fuel: nat, def: Def, v: Val, pos: nat)
    requires WellFormedEnv(env) && WellFormedDef(def) && VectorlessDef(env, fuel, def) && HasDef(env, fuel, def, v)
    ensures pos + |EncDef(env, ma, fuel, def, v, pos)| in EndsOfDef(env, ma, fuel, def, pos)
    decreases fuel, 2, 0, 0
  {
    hide WellFormedEnv; hide EncArray; hide EndsOfArray; hide HasArray; hide EncFields; hide EndsOfFields;
    hide HasFields; hide ArmOf; hide Padding; hide Bytes; hide Vectorless;
    match def
    case Struct(_, _) => FieldsEnd(env, ma, fuel, Fields(def), v.kids, {pos}, pos);
    case Typedef(ty, dims, _) => ValueOfArrayEnds(env, ma, fuel, dims, ty, v, pos);
    case Union(disc, cases, _, implicit) =>
      var start := pos + Padding(pos, disc.width, ma) + disc.width;
      UnionParts(env, ma, fuel, def, v, pos);
      assert |EncNum(ma, disc, v.d, pos)| == start - pos;
      hide EncNum; hide HasDef; hide EncDef;
      match ArmOf(ShapeOf(def), v.d)
      case Some(i) =>
        ValueOfArrayEnds(env, ma, fuel, cases[i].dims, cases[i].ty, v.payload.value, start);
        InUnion(env, ma, fuel, def, pos, i, pos + |EncDef(env, ma, fuel, def, v, pos)|);
      case None => assert Legal(ShapeOf(def), v.d);
  }

  // ----- some value ends at each -----

  ghost predicate Populated(env: Env) {
    forall n {:trigger env[n]} :: n in env ==> WellFormedDef(env[n]) && MaxTight.InhabitedDef(env[n])
  }

  lemma {:induction false} EndReached(env: Env, ma: MaxAlign, fuel: nat, ty: Type, pos: nat, e: nat) returns (v: Val)
    requires Populated(env) && MaxTight.Inhabited(ty) && e in Ends(env, ma, fuel, ty, pos)
    ensures HasType(env, fuel, ty, v) && pos + |Enc(env, ma, fuel, ty, v, pos)| == e
    decreases fuel, 0, 0, 0
  {
    hide EncDef; hide HasDef; hide EndsOfDef; hide WellFormedDef; hide MaxTight.InhabitedDef; hide Padding; hide Bytes;
    match ty
    case Num(num) => v := VNum(MaxTight.SampleNumber(num));
    case Named(n) => v := EndOfDefReached(env, ma, fuel - 1, env[n], pos, e);
  }

  lemma {:induction false} EndOfArrayReached(env: Env, ma: MaxAlign, fuel: nat, dims: seq<nat>, ty: Type, pos: nat,
                                             e: nat) returns (v: Val)
    requires Populated(env) && MaxTight.InhabitedArray(dims, ty) && e in EndsOfArray(env, ma, fuel, dims, ty, pos)
    ensures HasArray(env, fuel, dims, ty, v) && pos + |EncArray(env, ma, fuel, dims, ty, v, pos)| == e
    decreases fuel, 0, |dims|, 1
  {
    hide Populated; hide Enc; hide EncAll; hide Ends; hide EndsOfCopies; hide HasType; hide HasTypeAll;
    hide MaxTight.Inhabited;
    if dims == [] {
      v := EndReached(env, ma, fuel, ty, pos, e);
    } else {
      var p, kids := EndOfCopiesReached(env, ma, fuel, dims[0], dims[1..], ty, {pos}, e);
      v := VNode(kids);
    }
  }

  lemma {:induction false} EndFromReached(env: Env, ma: MaxAlign, fuel: nat, dims: seq<nat>, ty: Type,
                                          starts: set<nat>, e: nat) returns (p: nat, v: Val)
    requires Populated(env) && MaxTight.InhabitedArray(dims, ty) && e in EndsFrom(env, ma, fuel, dims, ty, starts)
    ensures p in starts && HasArray(env, fuel, dims, ty, v) && p + |EncArray(env, ma, fuel, dims, ty, v, p)| == e
    decreases fuel, 0, |dims|, 2
  {
    hide Populated; hide EndsOfArray; hide HasArray; hide EncArray; hide MaxTight.InhabitedArray;
    p :| p in starts && e in EndsOfArray(env, ma, fuel, dims, ty, p);
    v := EndOfArrayReached(env, ma, fuel, dims, ty, p, e);
  }

  lemma {:induction false} EndOfCopiesReached(env: Env, ma: MaxAlign, fuel: nat, count: nat, dims: seq<nat>, ty: Type,
                                              starts: set<nat>, e: nat) returns (p: nat, kids: seq<Val>)
    requires Populated(env) && MaxTight.InhabitedArray(dims, ty)
    requires e in EndsOfCopies(env, ma, fuel, count, dims, ty, starts)
    ensures p in starts && |kids| == count && HasTypeAll(env, fuel, dims, ty, kids)
    ensures p + |EncAll(env, ma, fuel, dims, ty, kids, p)| == e
    decreases fuel, 0, |dims|, 3 + count
  {
    hide Populated; hide EndsFrom; hide HasArray; hide EncArray; hide MaxTight.InhabitedArray;
    if count == 0 {
      p, kids := e, [];
    } else {
      hide HasTypeAll; hide EncAll;
      var q, rest := EndOfCopiesReached(env, ma, fuel, count - 1, dims, ty, EndsFrom(env, ma, fuel, dims, ty, starts),
                                        e);
      var v;
      p, v := EndFromReached(env, ma, fuel, dims, ty, starts, q);
      kids := [v] + rest;
      MaxTight.ConsAll(env, ma, fuel, dims, ty, v, rest, p);
    }
  }

  lemma {:induction false} EndOfFieldsReached(env: Env, ma: MaxAlign, fuel: nat, fs: seq<Field>, k: nat,
                                              starts: set<nat>, e: nat) returns (p: nat, kids: seq<Val>)
    requires Populated(env) && k <= |fs| && e in EndsOfFields(env, ma, fuel, fs[k..], starts)
    requires forall i :: 0 <= i < |fs| ==> MaxTight.InhabitedArray(fs[i].decl.dims, fs[i].ty)
    ensures p in starts && HasFields(env, fuel, fs[k..], kids)
    ensures p + |EncFields(env, ma, fuel, fs[k..], kids, p)| == e
    decreases fuel, 1, |fs| - k, 0
  {
    hide Populated; hide EndsFrom; hide HasArray; hide EncArray; hide MaxTight.InhabitedArray;
    if k == |fs| {
      p, kids := e, [];
    } else {
      hide HasFields; hide EncFields;
      var f := fs[k];
      assert fs[k..][0] == f && fs[k..][1..] == fs[k + 1..];
      var q, rest := EndOfFieldsReached(env, ma, fuel, fs, k + 1,
                                        EndsFrom(env, ma, fuel, f.decl.dims, f.ty, starts), e);
      var v;
      p, v := EndFromReached(env, ma, fuel, f.decl.dims, f.ty, starts, q);
      kids := [v] + rest;
      MaxTight.ConsFields(env, ma, fuel, fs, k, v, rest, p);
    }
  }

  /** And every position found is the end of some value, when all types have values. */
  lemma {:induction false} EndOfDefReached(env: Env, ma: MaxAlign, fuel: nat, def: Def, pos: nat, e: nat)
    returns (v: Val)
    requires Populated(env) && WellFormedDef(def) && MaxTight.InhabitedDef(def)
    requires e in EndsOfDef(env, ma, fuel, def, pos)
    ensures HasDef(env, fuel, def, v) && pos + |EncDef(env, ma, fuel, def, v, pos)| == e
    decreases fuel, 2, 0, 0
  {
    hide Populated; hide EndsOfArray; hide HasArray; hide EncArray; hide MaxTight.InhabitedArray; hide EndsOfFields;
    hide HasFields; hide EncFields; hide Padding; hide Bytes; hide ArmOf;
    match def
    case Struct(_, _) =>
      var fs := Fields(def);
      assert fs[0..] == fs;
      var p, kids := EndOfFieldsReached(env, ma, fuel, fs, 0, {pos}, e);
      v := VNode(kids);
    case Typedef(ty, dims, _) => v := EndOfArrayReached(env, ma, fuel, dims, ty, pos, e);
    case Union(_, _, _, _) => v := EndOfUnionReached(env, ma, fuel, def, pos, e);
  }

  lemma {:induction false} EndOfUnionReached(env: Env, ma: MaxAlign, fuel: nat, def: Def, pos: nat, e: nat)
    returns (v: Val)
    requires Populated(env) && def.Union? && WellFormedDef(def) && MaxTight.InhabitedDef(def)
    requires e in EndsOfDef(env, ma, fuel, def, pos)
    ensures HasDef(env, fuel, def, v) && pos + |EncDef(env, ma, fuel, def, v, pos)| == e
    decreases fuel, 1, 0, 0
  {
    hide Populated; hide EndsOfArray; hide HasArray; hide EncArray; hide HasDef; hide EncDef; hide Padding; hide Bytes;
    hide WellFormedDef; hide MaxTight.InhabitedArray;
    var start := pos + Padding(pos, def.disc.width, ma) + def.disc.width;
    if exists i :: 0 <= i < |def.cases| && e in EndsOfArray(env, ma, fuel, def.cases[i].dims, def.cases[i].ty, start) {
      var i :| 0 <= i < |def.cases| && e in EndsOfArray(env, ma, fuel, def.cases[i].dims, def.cases[i].ty, start);
      var x := EndOfArrayReached(env, ma, fuel, def.cases[i].dims, def.cases[i].ty, start, e);
      MaxTight.UnionBuilt(env, ma, fuel, def, i, x, pos);
      v := VUnion(def.cases[i].labels[0].value, Some(x));
    } else {
      DefaultValue(env, ma, fuel, def, pos);
      v := VUnion(def.dflt, None);
    }
  }

  lemma DefaultValue(env: Env, ma: MaxAlign, fuel: nat, def: Def, pos: nat)
    requires WellFormedDef(def) && def.Union? && def.implicit
    ensures HasDef(env, fuel, def, VUnion(def.dflt, None))
    ensures |EncDef(env, ma, fuel, def, VUnion(def.dflt, None), pos)| ==
            Padding(pos, def.disc.width, ma) + def.disc.width
  {
    DefaultDiscriminator(ShapeOf(def));
    hide Padding; hide ArmOf; hide Bytes;
  }

  // ----- the size of one sample and of every other -----

  /** The size that moving over one sample yields. */
  function Measured(env: Env, ma: MaxAlign, fuel: nat, def: Def, v: Val): Option<Cursor> {
    RunProg(Context(Move, env, Linked(env, Move), ma, 0), fuel, ProgOf(env, Move, def), Live(v), START)
  }

  lemma MeasuredIs(env: Env, ma: MaxAlign, fuel: nat, def: Def, v: Val)
    requires WellFormedEnv(env) && WellFormedDef(def) && StreamableDef(env, fuel, def) && HasDef(env, fuel, def, v)
    ensures var r := Measured(env, ma, fuel, def, v);
            r.Some? && r.value.pos == At(|EncDef(env, ma, fuel, def, v, 0)|)
  {
    RunDefinition(Context(Move, env, Linked(env, Move), ma, 0), fuel, def, v, START);
  }

  predicate OneAtMost(s: set<nat>) {
    forall d, e :: d in s && e in s ==> d == e
  }

  ghost predicate SameSize(env: Env, ma: MaxAlign, fuel: nat, def: Def, v: Val, w: Val) {
    && Measured(env, ma, fuel, def, v).Some? && Measured(env, ma, fuel, def, w).Some?
    && Measured(env, ma, fuel, def, v).value.pos == Measured(env, ma, fuel, def, w).value.pos
  }

  /**
    For every self-contained type: the size measured for one sample is that of every other if and
    only if there is one position at most where its values can end.
   */
  lemma SizeIsFixed(env: Env, ma: MaxAlign, fuel: nat, def: Def)
    requires WellFormedEnv(env) && WellFormedDef(def) && StreamableDef(env, fuel, def) && VectorlessDef(env, fuel, def)
    requires Populated(env) && MaxTight.InhabitedDef(def)
    ensures (forall v, w | HasDef(env, fuel, def, v) && HasDef(env, fuel, def, w) ::
               SameSize(env, ma, fuel, def, v, w)) <==>
            OneAtMost(EndsOfDef(env, ma, fuel, def, 0))
  {
    hide Measured; hide EncDef; hide HasDef; hide WellFormedDef; hide WellFormedEnv; hide EndsOfDef; hide VectorlessDef;
    hide Populated; hide StreamableDef; hide MaxTight.InhabitedDef;
    forall v | HasDef(env, fuel, def, v)
      ensures var r := Measured(env, ma, fuel, def, v); r.Some? && r.value.pos == At(|EncDef(env, ma, fuel, def, v, 0)|)
      ensures |EncDef(env, ma, fuel, def, v, 0)| in EndsOfDef(env, ma, fuel, def, 0)
    {
      MeasuredIs(env, ma, fuel, def, v);
      ValueOfDefEnds(env, ma, fuel, def, v, 0);
    }
    forall d, e | d in EndsOfDef(env, ma, fuel, def, 0) && e in EndsOfDef(env, ma, fuel, def, 0)
      ensures exists v, w :: HasDef(env, fuel, def, v) && HasDef(env, fuel, def, w) &&
                (SameSize(env, ma, fuel, def, v, w) ==> d == e)
    {
      var v := EndOfDefReached(env, ma, fuel, def, 0, d);
      var w := EndOfDefReached(env, ma, fuel, def, 0, e);
      assert HasDef(env, fuel, def, v) && HasDef(env, fuel, def, w);
    }
  }

  // ----- types without unions -----

  /** From one start they only have one end. */
  lemma {:induction false} OneEnd(env: Env, ma: MaxAlign, fuel: nat, ty: Type, pos: nat)
    requires UnionFree(env, fuel, ty)
    ensures OneAtMost(Ends(env, ma, fuel, ty, pos))
    decreases fuel, 0, 0, 0
  {
    hide EndsOfDef; hide UnionFreeDef;
    if ty.Named? && fuel > 0 && ty.name in env { OneEndOfDef(env, ma, fuel - 1, env[ty.name], pos); }
  }

  lemma {:induction false} OneEndOfArray(env: Env, ma: MaxAlign, fuel: nat, dims: seq<nat>, ty: Type, pos: nat)
    requires UnionFree(env, fuel, ty)
    ensures OneAtMost(EndsOfArray(env, ma, fuel, dims, ty, pos))
    decreases fuel, 0, |dims|, 1
  {
    hide Ends; hide EndsOfCopies; hide UnionFree;
    if dims == [] {
      OneEnd(env, ma, fuel, ty, pos);
    } else {
      OneEndOfCopies(env, ma, fuel, dims[0], dims[1..], ty, {pos});
    }
  }

  lemma {:induction false} OneEndFrom(env: Env, ma: MaxAlign, fuel: nat, dims: seq<nat>, ty: Type, starts: set<nat>)
    requires UnionFree(env, fuel, ty) && OneAtMost(starts)
    ensures OneAtMost(EndsFrom(env, ma, fuel, dims, ty, starts))
    decreases fuel, 0, |dims|, 2
  {
    hide EndsOfArray; hide UnionFree;
    forall p | p in starts ensures OneAtMost(EndsOfArray(env, ma, fuel, dims, ty, p)) {
      OneEndOfArray(env, ma, fuel, dims, ty, p);
    }
  }

  lemma {:induction false} OneEndOfCopies(env: Env, ma: MaxAlign, fuel: nat, count: nat, dims: seq<nat>, ty: Type,
                                          starts: set<nat>)
    requires UnionFree(env, fuel, ty) && OneAtMost(starts)
    ensures OneAtMost(EndsOfCopies(env, ma, fuel, count, dims, ty, starts))
    decreases fuel, 0, |dims|, 3 + count
  {
    hide EndsFrom; hide OneAtMost; hide UnionFree;
    if count > 0 {
      OneEndFrom(env, ma, fuel, dims, ty, starts);
      OneEndOfCopies(env, ma, fuel, count - 1, dims, ty, EndsFrom(env, ma, fuel, dims, ty, starts));
    }
  }

  lemma {:induction false} OneEndOfFields(env: Env, ma: MaxAlign, fuel: nat, fs: seq<Field>, starts: set<nat>)
    requires OneAtMost(starts) && forall k :: 0 <= k < |fs| ==> UnionFree(env, fuel, fs[k].ty)
    ensures OneAtMost(EndsOfFields(env, ma, fuel, fs, starts))
    decreases fuel, 1, |fs|, 0
  {
    hide EndsFrom; hide OneAtMost; hide UnionFree;
    if fs != [] {
      OneEndFrom(env, ma, fuel, fs[0].decl.dims, fs[0].ty, starts);
      OneEndOfFields(env, ma, fuel, fs[1..], EndsFrom(env, ma, fuel, fs[0].decl.dims, fs[0].ty, starts));
    }
  }

  lemma {:induction false} OneEndOfDef(env: Env, ma: MaxAlign, fuel: nat, def: Def, pos: nat)
    requires UnionFreeDef(env, fuel, def)
    ensures OneAtMost(EndsOfDef(env, ma, fuel, def, pos))
    decreases fuel, 2, 0, 0
  {
    hide EndsOfArray; hide EndsOfFields; hide UnionFree;
    match def
    case Struct(_, _) => OneEndOfFields(env, ma, fuel, Fields(def), {pos});
    case Typedef(ty, dims, _) => OneEndOfArray(env, ma, fuel, dims, ty, pos);
  }

  /** Where no union can be reached, the size measured for the first sample is that of every other. */
  lemma SelfContainedSizeIsFixed(env: Env, ma: MaxAlign, fuel: nat, def: Def, v: Val, w: Val)
    requires WellFormedEnv(env) && WellFormedDef(def) && StreamableDef(env, fuel, def)
    requires HasDef(env, fuel, def, v) && HasDef(env, fuel, def, w)
    requires VectorlessDef(env, fuel, def) && UnionFreeDef(env, fuel, def)
    ensures SameSize(env, ma, fuel, def, v, w)
  {
    hide EncDef; hide HasDef; hide EndsOfDef; hide WellFormedDef; hide WellFormedEnv; hide Measured; hide VectorlessDef;
    hide UnionFreeDef;
    OneEndOfDef(env, ma, fuel, def, 0);
    MeasuredIs(env, ma, fuel, def, v);
    MeasuredIs(env, ma, fuel, def, w);
    ValueOfDefEnds(env, ma, fuel, def, v, 0);
    ValueOfDefEnds(env, ma, fuel, def, w, 0);
  }

  // ----- a union that does no harm -----

  // union U switch (octet) { case 0: octet a; case 1: short b; };
  const OCTET := NumType(1, Integer)
  const SHORT := Num(NumType(2, Integer))
  const CHOICE := Def.Union(OCTET, [Case([Label(0, false)], Num(OCTET), [], false),
                                    Case([Label(1, false)], SHORT, [], false)], 0, false)

  // struct S { U u; long l; };
  const HOLDER := [Field(Declarator(0, 0, [], Required), Named(0)),
                   Field(Declarator(1, 1, [], Required), Num(NumType(4, Integer)))]

  lemma NumberEnds(env: Env, ma: MaxAlign, fuel: nat, num: NumType, pos: nat)
    ensures EndsOfArray(env, ma, fuel, [], Num(num), pos) == {pos + Padding(pos, num.width, ma) + num.width}
  {
    hide Padding;
    assert Ends(env, ma, fuel, Num(num), pos) == {pos + Padding(pos, num.width, ma) + num.width};
  }

  lemma NamedEnds(env: Env, ma: MaxAlign, fuel: nat, n: Name, pos: nat)
    requires fuel > 0 && n in env
    ensures EndsOfArray(env, ma, fuel, [], Named(n), pos) == EndsOfDef(env, ma, fuel - 1, env[n], pos)
  {
    hide EndsOfDef;
    assert Ends(env, ma, fuel, Named(n), pos) == EndsOfDef(env, ma, fuel - 1, env[n], pos);
  }

  lemma TwoFieldsEnd(env: Env, ma: MaxAlign, fuel: nat, fs: seq<Field>, starts: set<nat>)
    requires |fs| == 2
    ensures EndsOfFields(env, ma, fuel, fs, starts) ==
            EndsFrom(env, ma, fuel, fs[1].decl.dims, fs[1].ty,
                     EndsFrom(env, ma, fuel, fs[0].decl.dims, fs[0].ty, starts))
  {
    hide EndsFrom;
    var first := EndsFrom(env, ma, fuel, fs[0].decl.dims, fs[0].ty, starts);
    var both := EndsFrom(env, ma, fuel, fs[1].decl.dims, fs[1].ty, first);
    assert fs[1..][0] == fs[1] && fs[1..][1..] == [];
    assert EndsOfFields(env, ma, fuel, [], both) == both;
    assert EndsOfFields(env, ma, fuel, fs[1..], first) == both;
  }

  lemma FromStarts(env: Env, ma: MaxAlign, fuel: nat, ty: Type, starts: set<nat>, ends: set<nat>)
    requires starts != {} && forall p :: p in starts ==> EndsOfArray(env, ma, fuel, [], ty, p) == ends
    ensures EndsFrom(env, ma, fuel, [], ty, starts) == ends
  {
    hide EndsOfArray;
    var p :| p in starts;
    assert forall e :: e in ends ==> e in EndsOfArray(env, ma, fuel, [], ty, p);
  }

  lemma HolderParts()
    ensures |HOLDER| == 2 && HOLDER[0].decl.dims == HOLDER[1].decl.dims == []
    ensures HOLDER[0].ty == Named(0) && HOLDER[1].ty == Num(NumType(4, Integer))
  {
  }

  lemma HolderEnds(env: Env, ma: MaxAlign, fuel: nat)
    requires EndsOfArray(env, ma, fuel, [], Named(0), 0) == {2, 4}
    ensures EndsOfFields(env, ma, fuel, HOLDER, {0}) == {8}
  {
    var long := NumType(4, Integer);
    assert Padding(2, 4, ma) == 2 && Padding(4, 4, ma) == 0;
    hide *;
    HolderParts();
    NumberEnds(env, ma, fuel, long, 2);
    NumberEnds(env, ma, fuel, long, 4);
    TwoFieldsEnd(env, ma, fuel, HOLDER, {0});
    FromStarts(env, ma, fuel, Named(0), {0}, {2, 4});
    FromStarts(env, ma, fuel, Num(long), {2, 4}, {8});
  }

  /** A union of branches with different sizes, and a struct that holds it and has one size: padding makes up. */
  lemma PaddingAbsorbs(ma: MaxAlign, fuel: nat)
    requires fuel > 0
    ensures EndsOfDef(map[0 := CHOICE], ma, fuel - 1, CHOICE, 0) == {2, 4}
    ensures EndsOfFields(map[0 := CHOICE], ma, fuel, HOLDER, {0}) == {8}
  {
    var env: Env := map[0 := CHOICE];
    assert Padding(1, 1, ma) == 0 && Padding(1, 2, ma) == 1;
    hide EndsOfArray; hide EndsOfFields; hide EndsOfDef; hide Padding; hide CHOICE; hide HOLDER;
    NumberEnds(env, ma, fuel - 1, OCTET, 1);
    NumberEnds(env, ma, fuel - 1, SHORT.num, 1);
    ChoiceEnds(env, ma, fuel - 1);
    NamedEnds(env, ma, fuel, 0, 0);
    HolderEnds(env, ma, fuel);
  }

  lemma ChoiceEnds(env: Env, ma: MaxAlign, fuel: nat)
    requires EndsOfArray(env, ma, fuel, [], Num(OCTET), 1) == {2} && EndsOfArray(env, ma, fuel, [], SHORT, 1) == {4}
    ensures EndsOfDef(env, ma, fuel, CHOICE, 0) == {2, 4}
  {
    hide EndsOfArray;
    assert Padding(0, 1, ma) == 0;
    var ends := EndsOfDef(env, ma, fuel, CHOICE, 0);
    assert CHOICE.cases[0].ty == Num(OCTET) && CHOICE.cases[1].ty == SHORT;
    InUnion(env, ma, fuel, CHOICE, 0, 0, 2);
    InUnion(env, ma, fuel, CHOICE, 0, 1, 4);
  }
}
