/** What the accessors of the max code lead to, step by step, and the objects that fill their bounds. */
module Targets {
  import opened Wrappers
  import opened Idl
  import opened Programs
  import opened Objects
  import opened Machine

  /** Part number `j`; beyond the parts an object has, its accessors lead outside. */
  function Child(t: Target, j: nat): Target {
    match t
    case Live(v) => if v.VNode? && j < |v.kids| then Live(v.kids[j]) else Outside
    case _ => t
  }

  /** Element number `j` of a vector; where there is no vector, nothing leads to its elements. */
  function ElementAt(t: Target, j: nat): Target {
    if t.Outside? then Nowhere else Child(t, j)
  }

  /** The accessor only mentions variables that are declared. */
  predicate Bound(acc: Accessor, depth: nat, scope: Scope) {
    Below(acc, depth) && Eval(acc, scope).Some?
  }

  lemma {:induction false} GetNothing(v: Val, p: Path, j: nat)
    requires Get(v, p).None?
    ensures Get(v, p + [j]).None?
    decreases |p|
  {
    assert (p + [j])[0] == p[0] && (p + [j])[1..] == p[1..] + [j];
    if v.VNode? && p[0] < |v.kids| { GetNothing(v.kids[p[0]], p[1..], j); }
  }

  lemma FetchChild(root: Target, p: Path, j: nat)
    ensures root.Live? ==> match Get(root.v, p)
                           case Some(x) => Get(root.v, p + [j]) == if x.VNode? &&
                             j < |x.kids| then Some(x.kids[j]) else None
                           case None => Get(root.v, p + [j]) == None
  {
    if root.Live? {
      if Get(root.v, p).Some? { GetChild(root.v, p, j); } else { GetNothing(root.v, p, j); }
    }
  }

  /** Inside a loop over a vector. */
  lemma ElementChild(acc: Accessor, scope: Scope, depth: nat, root: Target, j: nat)
    requires Bound(acc, depth, scope)
    ensures Bound(Element(acc, depth), depth + 1, Bind(scope, OverIndex(depth), j))
    ensures Fetch(root, Element(acc, depth), Bind(scope, OverIndex(depth), j)) == ElementAt(Fetch(root, acc, scope), j)
  {
    NoCapture(acc, scope, depth, j, 0);
    BelowDeeper(acc, depth, depth + 1);
    FetchChild(root, Eval(acc, scope).value, j);
  }

  /** Inside a loop over an array. */
  lemma ItemChild(acc: Accessor, scope: Scope, n: nat, root: Target, j: nat)
    requires Eval(acc, scope).Some? && !acc.Element?
    ensures Bound(ArrayVar(n), 1, Bind(scope, OverArray(n, Eval(acc, scope).value), j))
    ensures Fetch(root, ArrayVar(n), Bind(scope, OverArray(n, Eval(acc, scope).value), j)) ==
            Child(Fetch(root, acc, scope), j)
  {
    FetchChild(root, Eval(acc, scope).value, j);
  }

  lemma LengthKeeps(acc: Accessor, scope: Scope, depth: nat, root: Target, n: nat)
    requires Bound(acc, depth, scope)
    ensures Bound(acc, depth, WithLength(scope, depth, n))
    ensures Fetch(root, acc, WithLength(scope, depth, n)) == Fetch(root, acc, scope)
  {
    NoCapture(acc, scope, depth, 0, n);
  }

  lemma RootFetched(root: Target, acc: Accessor, depth: nat)
    requires acc.Instance? || acc.Branch? || acc.Member?
    ensures Bound(acc, depth, EMPTY_SCOPE)
    ensures Fetch(root, acc, EMPTY_SCOPE) == if acc.Member? then Child(root, acc.slot) else root
  {
    if acc.Member? {
      assert [acc.slot][1..] == [];
      if root.Live? && root.v.VNode? && acc.slot < |root.v.kids| { assert Get(root.v.kids[acc.slot], []).Some?; }
    }
  }

  // ----- full objects -----

  /**
    Every string with a bound that the max code looks at is as long as its bound. Named types
    are followed as deep as the code calls.
   */
  ghost predicate Full(cx: Context, fuel: nat, ty: Type, t: Target)
    decreases fuel, 0, ty, 0, 0
  {
    match ty
    case Num(_) => true
    case Str(bound) => FullText(bound, t)
    case Sequence(elem, bound) =>
      forall j: nat {:trigger ElementAt(t, j)} :: j < bound ==> Full(cx, fuel, elem, ElementAt(t, j))
    case Named(n) =>
      if IsBareTypedef(cx.env, n) then cx.env[n].ty.Str? ==> FullText(cx.env[n].ty.bound, t)
      else fuel > 0 && n in cx.env ==> FullDef(cx, fuel - 1, cx.env[n], t)
  }

  predicate FullText(bound: nat, t: Target) {
    bound > 0 && t.Live? && t.v.VText? ==> |t.v.s| >= bound
  }

  ghost predicate FullArray(cx: Context, fuel: nat, dims: seq<nat>, ty: Type, t: Target)
    decreases fuel, 0, ty, |dims|, 1
  {
    if dims == [] then Full(cx, fuel, ty, t)
    else forall j: nat {:trigger Child(t, j)} :: j < dims[0] ==> FullArray(cx, fuel, dims[1..], ty, Child(t, j))
  }

  ghost predicate FullDef(cx: Context, fuel: nat, def: Def, t: Target)
    decreases fuel, 1
  {
    match def
    case Struct(_, _) =>
      forall k: nat {:trigger Child(t, k)} :: k < |Fields(def)| ==>
        FullArray(cx, fuel, Fields(def)[k].decl.dims, Fields(def)[k].ty, Child(t, k))
    case Union(_, cases, _, _) =>
      t.Live? && t.v.VUnion? ==>
        forall i: nat {:trigger cases[i]} :: i < |cases| ==>
          FullArray(cx, fuel, cases[i].dims, cases[i].ty,
                    BranchRef(cx, fuel, cases[i].dims, cases[i].ty, ShapeOf(def), t.v.d, t.v.payload, i))
    case Typedef(ty, dims, _) => FullArray(cx, fuel, dims, ty, t)
  }

  // ----- types without bounded strings -----

  /** No string within the type has a bound. */
  predicate FreeText(ty: Type) {
    match ty
    case Str(bound) => bound == 0
    case Sequence(elem, _) => FreeText(elem)
    case _ => true
  }

  ghost predicate FreeTextDef(def: Def) {
    match def
    case Struct(_, _) => forall k :: 0 <= k < |Fields(def)| ==> FreeText(Fields(def)[k].ty)
    case Union(_, cases, _, _) => forall i :: 0 <= i < |cases| ==> FreeText(cases[i].ty)
    case Typedef(ty, _, _) => FreeText(ty)
  }

  function NameIn(ty: Type): Option<Name> {
    match ty
    case Sequence(elem, _) => NameIn(elem)
    case Named(n) => Some(n)
    case _ => None
  }

  ghost predicate Mentions(def: Def, n: Name) {
    match def
    case Struct(_, _) => exists k :: 0 <= k < |Fields(def)| && NameIn(Fields(def)[k].ty) == Some(n)
    case Union(_, cases, _, _) => exists i :: 0 <= i < |cases| && NameIn(cases[i].ty) == Some(n)
    case Typedef(ty, _, _) => NameIn(ty) == Some(n)
  }

  /** The names include all that the definition mentions, and all that these mention in turn. */
  ghost predicate ClosedUnder(env: Env, names: set<Name>, def: Def) {
    && (forall n :: n in env && Mentions(def, n) ==> n in names)
    && (forall m, n :: m in names && m in env && n in env && Mentions(env[m], n) ==> n in names)
  }

  ghost predicate FreeNames(env: Env, names: set<Name>) {
    forall n :: n in names && n in env ==> FreeTextDef(env[n])
  }

  /** Where no bounded string can be reached from the type, every object is full. */
  lemma {:induction false} FreeTextIsFull(cx: Context, fuel: nat, names: set<Name>, ty: Type, t: Target)
    requires FreeText(ty) && FreeNames(cx.env, names) &&
             (forall m, n :: m in names && m in cx.env && n in cx.env && Mentions(cx.env[m], n) ==> n in names)
    requires NameIn(ty).Some? && NameIn(ty).value in cx.env ==> NameIn(ty).value in names
    ensures Full(cx, fuel, ty, t)
    decreases fuel, 0, ty, 0, 0
  {
    hide FullDef; hide FreeTextDef; hide Mentions;
    match ty
    case Sequence(elem, bound) =>
      forall j: nat | j < bound ensures Full(cx, fuel, elem, ElementAt(t, j)) {
        FreeTextIsFull(cx, fuel, names, elem, ElementAt(t, j));
      }
    case Named(n) =>
      if n in cx.env {
        if IsBareTypedef(cx.env, n) {
          FreeBare(cx.env, n);
        } else if fuel > 0 {
          FreeDefIsFull(cx, fuel - 1, names, cx.env[n], t);
        }
      }
    case _ =>
  }

  lemma FreeBare(env: Env, n: Name)
    requires IsBareTypedef(env, n) && FreeTextDef(env[n])
    ensures FreeText(env[n].ty)
  {
  }

  lemma {:induction false} FreeArrayIsFull(cx: Context, fuel: nat, names: set<Name>, dims: seq<nat>, ty: Type,
                                           t: Target)
    requires FreeText(ty) && FreeNames(cx.env, names) &&
             (forall m, n :: m in names && m in cx.env && n in cx.env && Mentions(cx.env[m], n) ==> n in names)
    requires NameIn(ty).Some? && NameIn(ty).value in cx.env ==> NameIn(ty).value in names
    ensures FullArray(cx, fuel, dims, ty, t)
    decreases fuel, 0, ty, |dims|, 1
  {
    if dims == [] {
      FreeTextIsFull(cx, fuel, names, ty, t);
    } else {
      forall j: nat | j < dims[0] ensures FullArray(cx, fuel, dims[1..], ty, Child(t, j)) {
        FreeArrayIsFull(cx, fuel, names, dims[1..], ty, Child(t, j));
      }
    }
  }

  lemma {:induction false} FreeDefIsFull(cx: Context, fuel: nat, names: set<Name>, def: Def, t: Target)
    requires FreeTextDef(def) && FreeNames(cx.env, names) && ClosedUnder(cx.env, names, def)
    ensures FullDef(cx, fuel, def, t)
    decreases fuel, 1
  {
    hide FullArray; hide FreeText; hide NameIn;
    match def
    case Struct(_, _) =>
      forall k: nat | k < |Fields(def)|
        ensures FullArray(cx, fuel, Fields(def)[k].decl.dims, Fields(def)[k].ty, Child(t, k))
      {
        FreeArrayIsFull(cx, fuel, names, Fields(def)[k].decl.dims, Fields(def)[k].ty, Child(t, k));
      }
    case Union(_, cases, _, _) =>
      if t.Live? && t.v.VUnion? {
        forall i: nat | i < |cases|
          ensures FullArray(cx, fuel, cases[i].dims, cases[i].ty,
                            BranchRef(cx, fuel, cases[i].dims, cases[i].ty, ShapeOf(def), t.v.d, t.v.payload, i))
        {
          FreeArrayIsFull(cx, fuel, names, cases[i].dims, cases[i].ty,
                          BranchRef(cx, fuel, cases[i].dims, cases[i].ty, ShapeOf(def), t.v.d, t.v.payload, i));
        }
      }
    case Typedef(ty, dims, _) => FreeArrayIsFull(cx, fuel, names, dims, ty, t);
  }
}
