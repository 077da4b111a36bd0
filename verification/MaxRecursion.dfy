/**
  Whether the max program comes to an end for recursive types: it does not where its calls can
  only lead on to calls, and elsewhere the depth it is run to makes no difference.
 */
module MaxRecursion {
  import opened Wrappers
  import opened Wire
  import opened Idl
  import opened Programs
  import opened Emitter
  import opened Machine
  import opened Targets
  import opened MaxCompletes

  // ----- the calls that max code makes whatever it measures -----

  /** The type that the max code of a type calls the function of: sequences only count with a bound. */
  function TypeCalls(env: Env, ty: Type): Option<Name> {
    match ty
    case Sequence(elem, bound) => if bound == 0 || Contiguous(elem) then None else TypeCalls(env, elem)
    case Named(n) => if IsBareTypedef(env, n) then None else Some(n)
    case _ => None
  }

  function ArrayCalls(env: Env, dims: seq<nat>, ty: Type): Option<Name> {
    if dims == [] then TypeCalls(env, ty)
    else if dims[0] == 0 || (|dims| == 1 && Strip(env, ty).Num?) then None
    else ArrayCalls(env, dims[1..], ty)
  }

  ghost predicate DefCalls(env: Env, def: Def, n: Name) {
    match def
    case Struct(_, _) => exists k ::
            0 <= k < |Fields(def)| &&
            ArrayCalls(env, Fields(def)[k].decl.dims, Fields(def)[k].ty) == Some(n)
    case Union(_, cases, _, _) => exists i :: 0 <= i < |cases| && ArrayCalls(env, cases[i].dims, cases[i].ty) == Some(n)
    case Typedef(ty, dims, _) => ArrayCalls(env, dims, ty) == Some(n)
  }

  /** Some names, all of which stand for definitions that call names among them. */
  ghost predicate CallClosed(env: Env, names: set<Name>, def: Def) {
    && (forall n :: n in names ==> n in env)
    && (forall n :: DefCalls(env, def, n) ==> n in names)
    && (forall m, n :: m in names && m in env && DefCalls(env, env[m], n) ==> n in names)
  }

  /** Every one of them certainly calls another one. */
  ghost predicate Endless(env: Env, names: set<Name>) {
    forall n :: n in names && n in env ==> exists m :: m in names && DefCalls(env, env[n], m)
  }

  // ----- calls without end -----

  lemma {:induction false} TypeCalled(cx: Context, fuel: nat, ty: Type, t: Target, inVector: bool, n: Name)
    returns (u: Target)
    requires TypeCalls(cx.env, ty) == Some(n) && Measurable(cx, fuel, ty, t, inVector)
    ensures fuel > 0 && n in cx.env && MeasurableDef(cx, fuel - 1, cx.env[n], u)
    decreases ty
  {
    hide MeasurableDef;
    match ty
    case Sequence(elem, bound) => u := TypeCalled(cx, fuel, elem, ElementAt(t, 0), true, n);
    case Named(_) => u := t;
  }

  lemma {:induction false} ArrayCalled(cx: Context, fuel: nat, dims: seq<nat>, ty: Type, t: Target, n: Name)
    returns (u: Target)
    requires ArrayCalls(cx.env, dims, ty) == Some(n) && MeasurableArray(cx, fuel, dims, ty, t)
    ensures fuel > 0 && n in cx.env && MeasurableDef(cx, fuel - 1, cx.env[n], u)
    decreases |dims|
  {
    hide MeasurableDef; hide Measurable; hide Strip;
    if dims == [] {
      u := TypeCalled(cx, fuel, ty, t, false, n);
    } else {
      u := ArrayCalled(cx, fuel, dims[1..], ty, Child(t, 0), n);
    }
  }

  lemma DefCalled(cx: Context, fuel: nat, def: Def, t: Target, n: Name) returns (u: Target)
    requires DefCalls(cx.env, def, n) && MeasurableDef(cx, fuel, def, t)
    ensures fuel > 0 && n in cx.env && MeasurableDef(cx, fuel - 1, cx.env[n], u)
  {
    hide MeasurableArray; hide ArrayCalls; hide CaseTarget;
    match def
    case Struct(_, _) =>
      var k :| 0 <= k < |Fields(def)| && ArrayCalls(cx.env, Fields(def)[k].decl.dims, Fields(def)[k].ty) == Some(n);
      assert MeasurableArray(cx, fuel, Fields(def)[k].decl.dims, Fields(def)[k].ty, Child(t, k));
      u := ArrayCalled(cx, fuel, Fields(def)[k].decl.dims, Fields(def)[k].ty, Child(t, k), n);
    case Union(_, cases, _, _) =>
      var i :| 0 <= i < |cases| && ArrayCalls(cx.env, cases[i].dims, cases[i].ty) == Some(n);
      assert MeasurableArray(cx, fuel, cases[i].dims, cases[i].ty, CaseTarget(cx, fuel, def, t.v, i));
      u := ArrayCalled(cx, fuel, cases[i].dims, cases[i].ty, CaseTarget(cx, fuel, def, t.v, i), n);
    case Typedef(ty, dims, _) => u := ArrayCalled(cx, fuel, dims, ty, t, n);
  }

  /** Where calls can only lead on to calls, nothing is measurable at any depth. */
  lemma {:induction false} EndlessNeverEnds(cx: Context, fuel: nat, names: set<Name>, def: Def, n: Name, t: Target)
    requires Endless(cx.env, names) && n in names && DefCalls(cx.env, def, n)
    ensures !MeasurableDef(cx, fuel, def, t)
    decreases fuel
  {
    hide MeasurableDef; hide DefCalls;
    if MeasurableDef(cx, fuel, def, t) {
      var u := DefCalled(cx, fuel, def, t, n);
      var m :| m in names && DefCalls(cx.env, cx.env[n], m);
      EndlessNeverEnds(cx, fuel - 1, names, cx.env[n], m, u);
    }
  }

  // ----- calls that come to an end -----

  /** Calls lead to names of lower rank. */
  ghost predicate Ranked(env: Env, rank: map<Name, nat>) {
    forall n, m :: n in rank && n in env && DefCalls(env, env[n], m) ==> m in env && m in rank && rank[m] < rank[n]
  }

  ghost predicate CallsBelow(env: Env, rank: map<Name, nat>, called: Option<Name>, r: nat) {
    called.Some? ==> called.value in env && called.value in rank && rank[called.value] < r
  }

  lemma {:induction false} TypeSettles(cx: Context, f: nat, g: nat, rank: map<Name, nat>, r: nat, ty: Type, t: Target,
                                       inVector: bool)
    requires cx.checked && Ranked(cx.env, rank) && r <= f && r <= g &&
             CallsBelow(cx.env, rank, TypeCalls(cx.env, ty), r)
    ensures Measurable(cx, f, ty, t, inVector) <==> Measurable(cx, g, ty, t, inVector)
    decreases r, 0, ty, 0
  {
    hide MeasurableDef; hide DefCalls; hide MeasurableBare; hide ElementAt;
    match ty
    case Sequence(elem, bound) =>
      if bound > 0 && !Contiguous(elem) {
        forall j: nat | j < bound
          ensures Measurable(cx, f, elem, ElementAt(t, j), true) <==> Measurable(cx, g, elem, ElementAt(t, j), true)
        {
          TypeSettles(cx, f, g, rank, r, elem, ElementAt(t, j), true);
        }
      }
    case Named(n) =>
      if !IsBareTypedef(cx.env, n) {
        DefCallsBelow(cx.env, rank, n);
        DefSettles(cx, f - 1, g - 1, rank, r - 1, cx.env[n], t);
      }
    case _ =>
  }

  lemma DefCallsBelow(env: Env, rank: map<Name, nat>, n: Name)
    requires Ranked(env, rank) && n in env && n in rank
    ensures forall m :: DefCalls(env, env[n], m) ==> m in env && m in rank && rank[m] < rank[n]
  {
    hide DefCalls;
  }

  lemma {:induction false} ArraySettles(cx: Context, f: nat, g: nat, rank: map<Name, nat>, r: nat, dims: seq<nat>,
                                        ty: Type, t: Target)
    requires cx.checked && Ranked(cx.env, rank) && r <= f && r <= g &&
             CallsBelow(cx.env, rank, ArrayCalls(cx.env, dims, ty), r)
    ensures MeasurableArray(cx, f, dims, ty, t) <==> MeasurableArray(cx, g, dims, ty, t)
    decreases r, 0, ty, |dims| + 1
  {
    hide Measurable; hide Child; hide Strip; hide Ranked; hide TypeCalls;
    if dims == [] {
      TypeSettles(cx, f, g, rank, r, ty, t, false);
    } else if !(|dims| == 1 && Strip(cx.env, ty).Num?) {
      forall j: nat | j < dims[0]
        ensures MeasurableArray(cx, f, dims[1..], ty, Child(t, j)) <==>
                  MeasurableArray(cx, g, dims[1..], ty, Child(t, j))
      {
        ArraySettles(cx, f, g, rank, r, dims[1..], ty, Child(t, j));
      }
    }
  }

  lemma {:induction false} DefSettles(cx: Context, f: nat, g: nat, rank: map<Name, nat>, r: nat, def: Def, t: Target)
    requires cx.checked && Ranked(cx.env, rank) && r <= f && r <= g
    requires forall m :: DefCalls(cx.env, def, m) ==> m in cx.env && m in rank && rank[m] < r
    ensures MeasurableDef(cx, f, def, t) <==> MeasurableDef(cx, g, def, t)
    decreases r, 1
  {
    hide MeasurableArray; hide Child; hide Ranked; hide Copied; hide ArrayCalls; hide BranchTarget; hide DefaultArray;
    match def
    case Struct(_, _) =>
      forall k: nat | k < |Fields(def)|
        ensures MeasurableArray(cx, f, Fields(def)[k].decl.dims, Fields(def)[k].ty, Child(t, k)) <==>
                MeasurableArray(cx, g, Fields(def)[k].decl.dims, Fields(def)[k].ty, Child(t, k))
      {
        var called := ArrayCalls(cx.env, Fields(def)[k].decl.dims, Fields(def)[k].ty);
        assert called.Some? ==> DefCalls(cx.env, def, called.value);
        ArraySettles(cx, f, g, rank, r, Fields(def)[k].decl.dims, Fields(def)[k].ty, Child(t, k));
      }
    case Union(_, cases, _, _) =>
      if t.Live? && t.v.VUnion? {
        forall i: nat | i < |cases|
          ensures MeasurableArray(cx, f, cases[i].dims, cases[i].ty, CaseTarget(cx, f, def, t.v, i)) <==>
                  MeasurableArray(cx, g, cases[i].dims, cases[i].ty, CaseTarget(cx, g, def, t.v, i))
        {
          var called := ArrayCalls(cx.env, cases[i].dims, cases[i].ty);
          assert called.Some? ==> DefCalls(cx.env, def, called.value);
          ArraySettles(cx, f, g, rank, r, cases[i].dims, cases[i].ty, CaseTarget(cx, f, def, t.v, i));
        }
      }
    case Typedef(ty, dims, _) =>
      var called := ArrayCalls(cx.env, dims, ty);
      assert called.Some? ==> DefCalls(cx.env, def, called.value);
      ArraySettles(cx, f, g, rank, r, dims, ty, t);
  }

  // ----- one or the other -----

  /** No name left is called, so that the name can be ranked above all that are. */
  ghost predicate Removable(env: Env, left: set<Name>, n: Name) {
    n in left && n in env && forall m :: m in left ==> !DefCalls(env, env[n], m)
  }

  /** All that ranked names call is ranked below them, and the others are left. */
  ghost predicate Sorted(env: Env, names: set<Name>, left: set<Name>, rank: map<Name, nat>) {
    && left <= names && rank.Keys == names - left && Ranked(env, rank)
    && forall n :: n in rank ==> rank[n] < |rank.Keys|
  }

  lemma RankAbove(env: Env, names: set<Name>, left: set<Name>, rank: map<Name, nat>, n: Name)
    requires Sorted(env, names, left, rank) && Removable(env, left, n)
    requires forall m :: m in names ==> m in env
    requires forall a, b :: a in names && a in env && DefCalls(env, env[a], b) ==> b in names
    ensures Sorted(env, names, left - {n}, rank[n := |rank.Keys|])
  {
    hide DefCalls; hide Ranked;
    OneMore(rank, n, rank[n := |rank.Keys|]);
    RankedAbove(env, names, left, rank, n, |rank.Keys|);
  }

  lemma OneMore(rank: map<Name, nat>, n: Name, above: map<Name, nat>)
    requires n !in rank && above == rank[n := |rank.Keys|] && forall m :: m in rank ==> rank[m] < |rank.Keys|
    ensures above.Keys == rank.Keys + {n} && |above.Keys| == |rank.Keys| + 1
    ensures forall m :: m in above ==> above[m] < |above.Keys|
  {
  }

  lemma RankedAbove(env: Env, names: set<Name>, left: set<Name>, rank: map<Name, nat>, n: Name, top: nat)
    requires Ranked(env, rank) && rank.Keys == names - left && n in names && n !in rank
    requires forall m :: m in rank ==> rank[m] < top
    requires forall m :: m in names ==> m in env
    requires n in env && forall b :: DefCalls(env, env[n], b) ==> b in names && b !in left
    ensures Ranked(env, rank[n := top])
  {
    hide DefCalls;
  }

  /** Taking away names that call no name left, one by one, leaves the endless ones. */
  lemma EndlessOrRanked(env: Env, names: set<Name>) returns (endless: set<Name>, rank: map<Name, nat>)
    requires forall n :: n in names ==> n in env
    requires forall m, n :: m in names && m in env && DefCalls(env, env[m], n) ==> n in names
    ensures Endless(env, endless) && Sorted(env, names, endless, rank)
  {
    hide DefCalls;
    endless, rank := names, map[];
    assert names - names == {};
    while exists n :: Removable(env, endless, n)
      invariant Sorted(env, names, endless, rank)
      decreases |endless|
    {
      var n :| Removable(env, endless, n);
      RankAbove(env, names, endless, rank, n);
      assert |endless - {n}| < |endless|;
      endless, rank := endless - {n}, rank[n := |rank.Keys|];
    }
    forall n | n in endless && n in env ensures exists m :: m in endless && DefCalls(env, env[n], m) {
      assert !Removable(env, endless, n);
    }
  }

  lemma NeverCompletes(env: Env, ma: MaxAlign, capacity: nat, endless: set<Name>, n: Name, fm: nat, fv: nat, def: Def,
                       x: Val, c: Cursor)
    requires WellFormedEnv(env) && WellFormedDef(def) && StreamableDef(env, fv, def) && HasDef(env, fv, def, x)
    requires Endless(env, endless) && n in endless && DefCalls(env, def, n)
    ensures RunProg(Context(Max, env, Linked(env, Max), ma, capacity), fm, ProgOf(env, Max, def), Live(x), c).None?
  {
    hide *;
    EndlessNeverEnds(Context(Max, env, Linked(env, Max), ma, capacity), fm, endless, def, n, Live(x));
    CompletesExactly(env, ma, capacity, fm, fv, def, x, c);
  }

  lemma DepthsAgree(env: Env, ma: MaxAlign, capacity: nat, names: set<Name>, endless: set<Name>, rank: map<Name, nat>,
                    fm: nat, gm: nat, fv: nat, def: Def, x: Val, c: Cursor)
    requires WellFormedEnv(env) && WellFormedDef(def) && StreamableDef(env, fv, def) && HasDef(env, fv, def, x) &&
             fm >= |names| && gm >= |names|
    requires CallClosed(env, names, def) && Sorted(env, names, endless, rank)
    requires forall n :: n in endless ==> !DefCalls(env, def, n)
    ensures var cx := Context(Max, env, Linked(env, Max), ma, capacity);
            RunProg(cx, fm, ProgOf(env, Max, def), Live(x), c).Some? <==>
              RunProg(cx, gm, ProgOf(env, Max, def), Live(x), c).Some?
  {
    var cx := Context(Max, env, Linked(env, Max), ma, capacity);
    AllRanked(env, names, endless, rank, def);
    hide *;
    DefSettles(cx, fm, gm, rank, |names|, def, Live(x));
    CompletesExactly(env, ma, capacity, fm, fv, def, x, c);
    CompletesExactly(env, ma, capacity, gm, fv, def, x, c);
  }

  lemma AllRanked(env: Env, names: set<Name>, endless: set<Name>, rank: map<Name, nat>, def: Def)
    requires CallClosed(env, names, def) && Sorted(env, names, endless, rank)
    requires forall n :: n in endless ==> !DefCalls(env, def, n)
    ensures Ranked(env, rank)
    ensures forall m :: DefCalls(env, def, m) ==> m in env && m in rank && rank[m] < |names|
  {
    hide DefCalls;
    assert names == (names - endless) + endless;
  }

  /**
    For every type: either its max program ends on no object at any depth of calls, and then it
    calls types that can only call each other on and on; or depths beyond the number of
    types it calls make no difference to whether it completes.
   */
  lemma MaxEndsOrNot(env: Env, ma: MaxAlign, capacity: nat, names: set<Name>, def: Def) returns (endless: set<Name>)
    requires WellFormedEnv(env) && WellFormedDef(def) && CallClosed(env, names, def)
    requires forall depth: nat :: StreamableDef(env, depth, def)
    ensures endless <= names && Endless(env, endless)
    ensures var cx := Context(Max, env, Linked(env, Max), ma, capacity);
            if exists n :: n in endless && DefCalls(env, def, n)
            then forall fm: nat, fv: nat, x, c | HasDef(env, fv, def,
                                                        x) :: RunProg(cx, fm, ProgOf(env, Max, def), Live(x), c).None?
            else forall fm: nat, gm: nat, fv: nat, x, c | fm >= |names| && gm >= |names| && HasDef(env, fv, def, x) ::
              RunProg(cx, fm, ProgOf(env, Max, def), Live(x), c).Some? <==>
                RunProg(cx, gm, ProgOf(env, Max, def), Live(x), c).Some?
  {
    hide DefCalls; hide RunProg; hide ProgOf; hide HasDef; hide WellFormedDef; hide Linked; hide WellFormedEnv;
    hide Endless;
    var cx := Context(Max, env, Linked(env, Max), ma, capacity);
    var rank: map<Name, nat>;
    endless, rank := EndlessOrRanked(env, names);
    if exists n :: n in endless && DefCalls(env, def, n) {
      var n :| n in endless && DefCalls(env, def, n);
      forall fm: nat, fv: nat, x, c | HasDef(env, fv, def, x)
        ensures RunProg(cx, fm, ProgOf(env, Max, def), Live(x), c).None?
      {
        NeverCompletes(env, ma, capacity, endless, n, fm, fv, def, x, c);
      }
    } else {
      forall fm: nat, gm: nat, fv: nat, x, c | fm >= |names| && gm >= |names| && HasDef(env, fv, def, x)
        ensures RunProg(cx, fm, ProgOf(env, Max, def), Live(x), c).Some? <==>
                  RunProg(cx, gm, ProgOf(env, Max, def), Live(x), c).Some?
      {
        DepthsAgree(env, ma, capacity, names, endless, rank, fm, gm, fv, def, x, c);
      }
    }
  }

  // ----- a type that holds a bounded sequence of itself -----

  /**
    The max code of a bounded sequence goes down into its elements whether there are any or
    not, so for a struct that holds one of itself, among other members, it never returns.
   */
  lemma BoundedRecursionNeverEnds(env: Env, ma: MaxAlign, capacity: nat, fm: nat, fv: nat, name: Name, k: nat,
                                  bound: nat, x: Val, c: Cursor)
    requires WellFormedEnv(env) && name in env && env[name].Struct? && StreamableDef(env, fv, env[name]) &&
             HasDef(env, fv, env[name], x)
    requires k < |Fields(env[name])| && bound > 0
    requires Fields(env[name])[k].ty == Sequence(Named(name), bound) && Fields(env[name])[k].decl.dims == []
    ensures RunProg(Context(Max, env, Linked(env, Max), ma, capacity), fm, ProgOf(env, Max, env[name]), Live(x),
                    c).None?
  {
    hide MeasurableDef; hide RunProg; hide ProgOf; hide HasDef; hide WellFormedDef; hide Linked;
    var f := Fields(env[name])[k];
    assert TypeCalls(env, Named(name)) == Some(name);
    assert ArrayCalls(env, f.decl.dims, f.ty) == TypeCalls(env, f.ty) == Some(name);
    assert DefCalls(env, env[name], name);
    EndlessNeverEnds(Context(Max, env, Linked(env, Max), ma, capacity), fm, {name}, env[name], name, Live(x));
    CompletesExactly(env, ma, capacity, fm, fv, env[name], x, c);
  }
}
