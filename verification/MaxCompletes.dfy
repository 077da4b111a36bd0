/**
  When the max program completes: the condition on a type and the object measured, that it is
  exact, and what it means for unions, vectors of booleans and recursive types.
 */
module MaxCompletes {
  import opened Wrappers
  import opened Wire
  import opened Unions
  import opened Idl
  import opened Programs
  import opened Emitter
  import opened Objects
  import opened Machine
  import opened WriteMove
  import opened MaxBound
  import opened Targets

  // ----- what the max code needs to find -----

  /** An element of a vector of booleans is looked at; to other numbers there must only be a way. */
  predicate MeasurableBare(ty: Type, t: Target, inVector: bool) {
    match ty
    case Num(num) => if inVector && num.kind.Boolean? then t.Live? && t.v.VNum? else !t.Nowhere?
    case Str(bound) => !t.Nowhere? && (bound > 0 ==> t.Live? && t.v.VText?)
    case _ => false
  }

  /**
    Everything the max code of the type looks at in order to go on is there. The elements of a
    sequence are all those up to its bound, whether the vector has as many or not.
   */
  ghost predicate Measurable(cx: Context, fuel: nat, ty: Type, t: Target, inVector: bool)
    decreases fuel, 0, ty, 0, 0
  {
    match ty
    case Sequence(elem, bound) => bound == 0 || Contiguous(elem) || MeasurableElements(cx, fuel, elem, t, 0, bound)
    case Named(n) =>
      if IsBareTypedef(cx.env, n) then MeasurableBare(cx.env[n].ty, t, inVector)
      else
        && !t.Nowhere? && (t.Outside? && inVector ==> !IsBoolean(Strip(cx.env, ty)))
        && fuel > 0 && n in cx.env && MeasurableDef(cx, fuel - 1, cx.env[n], t)
    case _ => MeasurableBare(ty, t, inVector)
  }

  ghost predicate MeasurableElements(cx: Context, fuel: nat, elem: Type, t: Target, from: nat, n: nat)
    decreases fuel, 0, elem, 0, 1
  {
    forall j: nat {:trigger ElementAt(t, j)} :: from <= j < n ==> Measurable(cx, fuel, elem, ElementAt(t, j), true)
  }

  ghost predicate MeasurableArray(cx: Context, fuel: nat, dims: seq<nat>, ty: Type, t: Target)
    decreases fuel, 0, ty, |dims|, 1
  {
    if dims == [] then Measurable(cx, fuel, ty, t, false)
    else !t.Nowhere? && ((|dims| == 1 && Strip(cx.env, ty).Num?) ||
         MeasurableItems(cx, fuel, dims[1..], ty, t, 0, dims[0]))
  }

  ghost predicate MeasurableItems(cx: Context, fuel: nat, dims: seq<nat>, ty: Type, t: Target, from: nat, n: nat)
    decreases fuel, 0, ty, |dims|, 2
  {
    forall j: nat {:trigger Child(t, j)} :: from <= j < n ==> MeasurableArray(cx, fuel, dims, ty, Child(t, j))
  }

  ghost predicate MeasurableDef(cx: Context, fuel: nat, def: Def, t: Target)
    decreases fuel, 2
  {
    match def
    case Struct(_, _) => MeasurableFields(cx, fuel, Fields(def), t, 0)
    case Union(_, _, _, _) => t.Live? && t.v.VUnion? && MeasurableCases(cx, fuel, def, t.v, 0)
    case Typedef(ty, dims, _) => MeasurableArray(cx, fuel, dims, ty, t)
  }

  /** Members that are numbers are copied by their getters, for which there must be an object. */
  ghost predicate MeasurableFields(cx: Context, fuel: nat, fs: seq<Field>, t: Target, from: nat)
    decreases fuel, 1
  {
    forall k: nat {:trigger Child(t, k)} :: from <= k < |fs| ==>
      MeasurableArray(cx, fuel, fs[k].decl.dims, fs[k].ty, Child(t, k)) && (t.Outside? ==> !Copied(cx.env, fs[k]))
  }

  /** What the max code of a branch looks at. */
  function CaseTarget(cx: Context, fuel: nat, def: Def, v: Val, i: nat): Target
    requires def.Union? && v.VUnion? && i < |def.cases|
  {
    BranchRef(cx, fuel, def.cases[i].dims, def.cases[i].ty, ShapeOf(def), v.d, v.payload, i)
  }

  /** All branches are measured, the inactive ones too. */
  ghost predicate MeasurableCases(cx: Context, fuel: nat, def: Def, v: Val, from: nat)
    requires def.Union? && v.VUnion?
    decreases fuel, 1
  {
    forall i: nat {:trigger def.cases[i]} :: from <= i < |def.cases| ==>
      MeasurableArray(cx, fuel, def.cases[i].dims, def.cases[i].ty, CaseTarget(cx, fuel, def, v, i))
  }

  // ----- the condition is exact -----

  ghost predicate Checking(cx: Context) {
    cx.mode == Max && cx.checked && Sound(cx)
  }

  /** What is there is a value of a streamable type. */
  ghost predicate Holds(env: Env, fuel: nat, ty: Type, t: Target) {
    t.Live? ==> HasType(env, fuel, ty, t.v) && Streamable(env, fuel, ty)
  }

  ghost predicate HoldsArray(env: Env, fuel: nat, dims: seq<nat>, ty: Type, t: Target) {
    t.Live? ==> HasArray(env, fuel, dims, ty, t.v) && Streamable(env, fuel, ty)
  }

  ghost predicate HoldsDef(env: Env, fuel: nat, def: Def, t: Target) {
    t.Live? ==> HasDef(env, fuel, def, t.v) && StreamableDef(env, fuel, def)
  }

  lemma AdvanceCompletes(cx: Context, c: Cursor, w: Width, data: seq<byte>)
    requires cx.mode == Max
    ensures Advance(cx, c, w, data).Some?
  {
  }

  lemma TextCompletes(cx: Context, c: Cursor, bound: nat, s: seq<byte>)
    requires cx.mode == Max && (bound > 0 ==> |s| <= bound)
    ensures AdvanceText(cx, c, bound, s).Some?
  {
  }

  lemma BareCompletes(cx: Context, fm: nat, fv: nat, ty: Type, acc: Accessor, inVector: bool, scope: Scope,
                      root: Target, c: Cursor)
    requires cx.mode == Max && (ty.Num? || ty.Str?) && Holds(cx.env, fv, ty, Fetch(root, acc, scope))
    ensures RunOps(cx, fm, StreamOps(cx.env, ty, acc, inVector), scope, root, c).Some? <==>
            MeasurableBare(ty, Fetch(root, acc, scope), inVector)
  {
    var op := StreamOps(cx.env, ty, acc, inVector)[0];
    var t := Fetch(root, acc, scope);
    RunSingle(cx, fm, op, scope, root, c);
    hide RunOps; hide Fetch; hide Advance; hide AdvanceText;
    match ty
    case Num(num) =>
      AdvanceCompletes(cx, c, num.width, Zeros(num.width));
      if t.Live? && t.v.VNum? { AdvanceCompletes(cx, c, num.width, Bytes(t.v.n, num.width)); }
    case Str(bound) =>
      if t.Live? { TextCompletes(cx, c, bound, t.v.s); }
  }

  lemma {:induction false} TypeCompletes(cx: Context, fm: nat, fv: nat, ty: Type, acc: Accessor, depth: nat,
                                         inVector: bool,
                                         scope: Scope, root: Target, c: Cursor)
    requires Checking(cx) && Bound(acc, depth, scope) && Holds(cx.env, fv, ty, Fetch(root, acc, scope))
    requires inVector == acc.Element?
    ensures RunOps(cx, fm, TypeOps(cx.env, Max, ty, acc, depth, inVector), scope, root, c).Some? <==>
            Measurable(cx, fm, ty, Fetch(root, acc, scope), inVector)
    decreases fm, 0, ty, 0, 0, 0
  {
    hide RunOps; hide RunOp; hide RunProg; hide ProgOf; hide VectorOps; hide WellFormedDef; hide Sound; hide Fetch;
    hide HasTypeAll; hide HasDef; hide MeasurableDef; hide MeasurableElements; hide Linked; hide Bound;
    hide MeasurableBare; hide StreamableDef;
    var t := Fetch(root, acc, scope);
    if ty.Sequence? {
      VectorCompletes(cx, fm, fv, ty.elem, ty.bound, acc, depth, scope, root, c);
    } else if ty.Named? && !IsBareTypedef(cx.env, ty.name) {
      CallCompletes(cx, fm, ty.name, acc, scope, root, c);
      if !t.Nowhere? && fm > 0 && ty.name in cx.env {
        DefinitionCompletes(cx, fm - 1, if fv > 0 then fv - 1 else 0, cx.env[ty.name], t, c);
      }
    } else {
      BareHolds(cx.env, fv, ty, t);
      BareCompletes(cx, fm, fv, Bare(cx.env, ty), acc, inVector, scope, root, c);
    }
  }

  lemma BareHolds(env: Env, fuel: nat, ty: Type, t: Target)
    requires Holds(env, fuel, ty, t) && !ty.Sequence? &&
             (ty.Named? ==> IsBareTypedef(env, ty.name))
    ensures Holds(env, fuel, Bare(env, ty), t) && (Bare(env, ty).Num? || Bare(env, ty).Str?)
  {
    if t.Live? { BareKeepsMeaning(env, 8, fuel, ty, t.v, 0); }
  }

  /** A call completes if there is something to call and it completes there. */
  lemma CallCompletes(cx: Context, fuel: nat, n: Name, acc: Accessor, scope: Scope, root: Target, c: Cursor)
    requires Checking(cx)
    ensures n in cx.env ==> WellFormedDef(cx.env[n])
    ensures RunOps(cx, fuel, [Call(n, acc)], scope, root, c).Some? <==>
            && !Fetch(root, acc, scope).Nowhere? && !(Fetch(root, acc, scope).Outside? && IsBit(cx.env, acc, n))
            && fuel > 0 && n in cx.env
            && RunProg(cx, fuel - 1, ProgOf(cx.env, Max, cx.env[n]), Fetch(root, acc, scope), c).Some?
  {
    hide RunProg; hide ProgOf; hide WellFormedDef;
    RunSingle(cx, fuel, Call(n, acc), scope, root, c);
    hide RunOps;
  }

  lemma {:induction false} VectorCompletes(cx: Context, fm: nat, fv: nat, elem: Type, bound: nat, acc: Accessor,
                                           depth: nat,
                                           scope: Scope, root: Target, c: Cursor)
    requires Checking(cx) && Bound(acc, depth, scope) &&
             Holds(cx.env, fv, Sequence(elem, bound), Fetch(root, acc, scope))
    ensures RunOps(cx, fm, VectorOps(cx.env, Max, elem, bound, depth, acc), scope, root, c).Some? <==>
            Measurable(cx, fm, Sequence(elem, bound), Fetch(root, acc, scope), false)
    decreases fm, 0, elem, 0, 4, 0
  {
    hide RunOps; hide VectorOps; hide RunOp; hide MeasurableElements; hide Fetch; hide Bound; hide ElementOps;
    hide Advance;
    hide Sound; hide HasTypeAll; hide WithLength;
    if bound == 0 {
      UnboundedCompletes(cx, fm, elem, acc, depth, scope, root, c);
    } else {
      var first := Advance(cx, c, 4, Bytes(bound, 4));
      AdvanceCompletes(cx, c, 4, Bytes(bound, 4));
      VectorMeasured(cx, fm, elem, bound, acc, depth, scope, root, c);
      LengthKeeps(acc, scope, depth, root, bound);
      ElementsComplete(cx, fm, fv, elem, bound, acc, depth, WithLength(scope, depth, bound), root, first.value);
    }
  }

  /** Without a bound no element is looked at. */
  lemma UnboundedCompletes(cx: Context, fuel: nat, elem: Type, acc: Accessor, depth: nat, scope: Scope, root: Target,
                           c: Cursor)
    requires cx.mode == Max
    ensures RunOps(cx, fuel, VectorOps(cx.env, Max, elem, 0, depth, acc), scope, root, c).Some?
  {
    var ops := VectorOps(cx.env, Max, elem, 0, depth, acc);
    var body := ElementOps(cx.env, Max, elem, depth, acc);
    var counted := ops[0].body[0];
    var first := Advance(cx, c, 4, Bytes(0, 4));
    AdvanceCompletes(cx, c, 4, Bytes(0, 4));
    NoElementsComplete(cx, fuel, elem, acc, depth, WithLength(scope, depth, 0), root, first.value);
    RunSingle(cx, fuel, body[0], WithLength(scope, depth, 0), root, first.value);
    assert ops[1..] == [Unbounded] && counted.body == body == [body[0]];
    hide ElementOps; hide VectorOps; hide Advance;
    BoundedUnfold(cx, fuel, counted, scope, root, c);
    ConsecutiveUnfold(cx, fuel, false, ops[0].primitive, [counted], scope, root, c);
    hide RunOp;
    RunSingle(cx, fuel, counted, scope, root, c);
    var r := RunOp(cx, fuel, ops[0], scope, root, c);
    RunSingle(cx, fuel, Unbounded, scope, root, r.value);
    UnboundedOp(cx, fuel, scope, root, r.value);
  }

  lemma NoElementsComplete(cx: Context, fuel: nat, elem: Type, acc: Accessor, depth: nat, scope: Scope, root: Target,
                           c: Cursor)
    requires depth in scope.length && scope.length[depth] == 0
    ensures RunOp(cx, fuel, ElementOps(cx.env, Max, elem, depth, acc)[0], scope, root, c).Some?
  {
    hide RunOps; hide TypeOps;
  }

  lemma {:induction false} ElementsComplete(cx: Context, fm: nat, fv: nat, elem: Type, n: nat, acc: Accessor,
                                            depth: nat,
                                            scope: Scope, root: Target, c: Cursor)
    requires Checking(cx) && Bound(acc, depth, scope) && Holds(cx.env, fv, Sequence(elem, n), Fetch(root, acc, scope))
    requires depth in scope.length && scope.length[depth] == n > 0
    ensures RunOp(cx, fm, ElementOps(cx.env, Max, elem, depth, acc)[0], scope, root, c).Some? <==>
            Measurable(cx, fm, Sequence(elem, n), Fetch(root, acc, scope), false)
    decreases fm, 0, elem, 0, 3, 1
  {
    hide Sound; hide RunOps; hide TypeOps; hide Fetch; hide RunFor; hide Advance; hide MeasurableElements; hide Bound;
    hide Holds;
    if Contiguous(elem) {
      AdvanceCompletes(cx, c, elem.num.width, Zeros(elem.num.width * n));
    } else {
      VectorLoopCompletes(cx, fm, fv, elem, acc, depth, scope, root, c, 0, n);
    }
  }

  lemma {:induction false} VectorLoopCompletes(cx: Context, fm: nat, fv: nat, elem: Type, acc: Accessor, depth: nat,
                                               scope: Scope, root: Target, c: Cursor, j: nat, n: nat)
    requires Checking(cx) && Bound(acc, depth, scope) &&
             Holds(cx.env, fv, Sequence(elem, n), Fetch(root, acc, scope)) && j <= n
    ensures RunFor(cx, fm, OverIndex(depth), TypeOps(cx.env, Max, elem, Element(acc, depth), depth + 1, true), j, n,
                   scope, root, c).Some?
            <==> MeasurableElements(cx, fm, elem, Fetch(root, acc, scope), j, n)
    decreases fm, 0, elem, 0, 2, n - j
  {
    hide *;
    var loop := OverIndex(depth);
    var body := TypeOps(cx.env, Max, elem, Element(acc, depth), depth + 1, true);
    var t := Fetch(root, acc, scope);
    if j == n {
      LoopEnds(cx, fm, loop, body, j, n, scope, root, c);
      NoElements(cx, fm, elem, t, j, n);
    } else {
      var inner := Bind(scope, loop, j);
      ForUnfold(cx, fm, loop, body, j, n, scope, root, c);
      ElementChild(acc, scope, depth, root, j);
      ElementHolds(cx.env, fv, elem, n, t, j);
      TypeCompletes(cx, fm, fv, elem, Element(acc, depth), depth + 1, true, inner, root, c);
      NextElement(cx, fm, elem, t, j, n);
      var first := RunOps(cx, fm, body, inner, root, c);
      if first.Some? {
        VectorLoopCompletes(cx, fm, fv, elem, acc, depth, scope, root, first.value, j + 1, n);
      }
    }
  }

  lemma LoopEnds(cx: Context, fm: nat, loop: Loop, body: seq<Op>, j: nat, n: nat, scope: Scope, root: Target, c: Cursor)
    requires j >= n
    ensures RunFor(cx, fm, loop, body, j, n, scope, root, c) == Some(c)
  {
  }

  lemma NoElements(cx: Context, fm: nat, elem: Type, t: Target, j: nat, n: nat)
    requires j >= n
    ensures MeasurableElements(cx, fm, elem, t, j, n)
  {
  }

  lemma NextElement(cx: Context, fm: nat, elem: Type, t: Target, j: nat, n: nat)
    requires j < n
    ensures MeasurableElements(cx, fm, elem, t, j, n) <==>
            Measurable(cx, fm, elem, ElementAt(t, j), true) && MeasurableElements(cx, fm, elem, t, j + 1, n)
  {
    hide Measurable; hide ElementAt;
    if Measurable(cx, fm, elem, ElementAt(t, j), true) && MeasurableElements(cx, fm, elem, t, j + 1, n) {
      forall i: nat | j <= i < n ensures Measurable(cx, fm, elem, ElementAt(t, i), true) {
        if i != j { assert j + 1 <= i < n;
        }
      }
    }
  }

  lemma ElementHolds(env: Env, fuel: nat, elem: Type, n: nat, t: Target, j: nat)
    requires Holds(env, fuel, Sequence(elem, n), t)
    ensures Holds(env, fuel, elem, ElementAt(t, j))
  {
    if ElementAt(t, j).Live? {
      ElementOfAll(env, 8, fuel, elem, t.v.kids, j, 0);
    }
  }

  lemma {:induction false} ArrayCompletes(cx: Context, fm: nat, fv: nat, dims: seq<nat>, ty: Type, n: nat,
                                          acc: Accessor,
                                          scope: Scope, root: Target, c: Cursor)
    requires Checking(cx) && Bound(acc, 1, scope) && HoldsArray(cx.env, fv, dims, ty, Fetch(root, acc, scope))
    requires !acc.Element?
    ensures RunOps(cx, fm, ArrayOps(cx.env, Max, dims, ty, n, acc), scope, root, c).Some? <==>
            MeasurableArray(cx, fm, dims, ty, Fetch(root, acc, scope))
    decreases fm, 0, ty, |dims|, 1, 0
  {
    hide Sound; hide RunOps; hide HasTypeAll; hide TypeOps; hide RunFor; hide Strip; hide HasType; hide Fetch;
    hide MeasurableItems; hide Measurable; hide Bound;
    var t := Fetch(root, acc, scope);
    if dims == [] {
      TypeCompletes(cx, fm, fv, ty, acc, 1, false, scope, root, c);
    } else if |dims| == 1 && Strip(cx.env, ty).Num? {
      assert dims == [dims[0]];
      BulkCompletes(cx, fm, fv, dims[0], ty, acc, scope, root, c);
    } else {
      BoundEval(acc, 1, scope);
      LoopMeasured(cx, fm, dims, ty, n, acc, scope, root, c);
      hide ArrayOps;
      if !t.Nowhere? {
        ArrayLoopCompletes(cx, fm, fv, dims, ty, n, acc, scope, root, c, 0);
      }
    }
  }

  lemma BulkCompletes(cx: Context, fm: nat, fv: nat, dim: nat, ty: Type, acc: Accessor, scope: Scope, root: Target,
                      c: Cursor)
    requires cx.mode == Max && Strip(cx.env, ty).Num?
    requires HoldsArray(cx.env, fv, [dim], ty, Fetch(root, acc, scope))
    ensures RunOps(cx, fm, [BulkArray(acc, Strip(cx.env, ty).num, dim)], scope, root, c).Some? <==>
              !Fetch(root, acc, scope).Nowhere?
  {
    var num := Strip(cx.env, ty).num;
    var w := num.width;
    var t := Fetch(root, acc, scope);
    assert [dim][1..] == [];
    if t.Live? { NumsOfType(cx.env, cx.ma, fv, ty, t.v.kids); }
    hide Strip; hide Fetch; hide HasTypeAll; hide Advance;
    RunSingle(cx, fm, BulkArray(acc, num, dim), scope, root, c);
    hide RunOps;
    AdvanceCompletes(cx, c, w, Zeros(w * dim));
    if t.Live? { AdvanceCompletes(cx, c, w, BulkBytes(t.v.kids, w)); }
  }

  lemma LoopMeasured(cx: Context, fuel: nat, dims: seq<nat>, ty: Type, n: nat, acc: Accessor, scope: Scope,
                     root: Target, c: Cursor)
    requires dims != [] && !(|dims| == 1 && Strip(cx.env, ty).Num?) && Eval(acc, scope).Some?
    ensures RunOps(cx, fuel, ArrayOps(cx.env, Max, dims, ty, n, acc), scope, root, c) ==
            if Fetch(root, acc, scope).Nowhere? then None
            else RunFor(cx, fuel, OverArray(n + 1, Eval(acc, scope).value),
                        ArrayOps(cx.env, Max, dims[1..], ty, n + 1, ArrayVar(n + 1)), 0, dims[0], scope, root, c)
  {
    var body := ArrayOps(cx.env, Max, dims[1..], ty, n + 1, ArrayVar(n + 1));
    hide RunFor;
    RunSingle(cx, fuel, ForArray(n + 1, acc, dims[0], body), scope, root, c);
    hide RunOps;
  }

  lemma {:induction false} ArrayLoopCompletes(cx: Context, fm: nat, fv: nat, dims: seq<nat>, ty: Type, n: nat,
                                              acc: Accessor,
                                              scope: Scope, root: Target, c: Cursor, j: nat)
    requires Checking(cx) && dims != [] && j <= dims[0]
    requires Bound(acc, 1, scope) && HoldsArray(cx.env, fv, dims, ty, Fetch(root, acc, scope)) && !acc.Element?
    ensures Eval(acc, scope).Some?
    ensures RunFor(cx, fm, OverArray(n + 1, Eval(acc, scope).value),
                   ArrayOps(cx.env, Max, dims[1..], ty, n + 1, ArrayVar(n + 1)),
                   j, dims[0], scope, root, c).Some? <==>
            MeasurableItems(cx, fm, dims[1..], ty, Fetch(root, acc, scope), j, dims[0])
    decreases fm, 0, ty, |dims| - 1, 2, dims[0] - j
  {
    hide *;
    BoundEval(acc, 1, scope);
    var loop := OverArray(n + 1, Eval(acc, scope).value);
    var body := ArrayOps(cx.env, Max, dims[1..], ty, n + 1, ArrayVar(n + 1));
    var t := Fetch(root, acc, scope);
    if j == dims[0] {
      LoopEnds(cx, fm, loop, body, j, dims[0], scope, root, c);
      NoItems(cx, fm, dims[1..], ty, t, j, dims[0]);
    } else {
      var inner := Bind(scope, loop, j);
      ForUnfold(cx, fm, loop, body, j, dims[0], scope, root, c);
      ItemChild(acc, scope, n + 1, root, j);
      ItemHolds(cx.env, fv, dims, ty, t, j);
      ArrayCompletes(cx, fm, fv, dims[1..], ty, n + 1, ArrayVar(n + 1), inner, root, c);
      NextItem(cx, fm, dims[1..], ty, t, j, dims[0]);
      var first := RunOps(cx, fm, body, inner, root, c);
      if first.Some? {
        ArrayLoopCompletes(cx, fm, fv, dims, ty, n, acc, scope, root, first.value, j + 1);
      }
    }
  }

  lemma BoundEval(acc: Accessor, depth: nat, scope: Scope)
    requires Bound(acc, depth, scope)
    ensures Eval(acc, scope).Some?
  {
  }

  lemma NoItems(cx: Context, fm: nat, dims: seq<nat>, ty: Type, t: Target, j: nat, n: nat)
    requires j >= n
    ensures MeasurableItems(cx, fm, dims, ty, t, j, n)
  {
  }

  lemma NextItem(cx: Context, fm: nat, dims: seq<nat>, ty: Type, t: Target, j: nat, n: nat)
    requires j < n
    ensures MeasurableItems(cx, fm, dims, ty, t, j, n) <==>
            MeasurableArray(cx, fm, dims, ty, Child(t, j)) && MeasurableItems(cx, fm, dims, ty, t, j + 1, n)
  {
    hide MeasurableArray; hide Child;
    if MeasurableArray(cx, fm, dims, ty, Child(t, j)) && MeasurableItems(cx, fm, dims, ty, t, j + 1, n) {
      forall i: nat | j <= i < n ensures MeasurableArray(cx, fm, dims, ty, Child(t, i)) {
        if i != j { assert j + 1 <= i < n;
        }
      }
    }
  }

  lemma ItemHolds(env: Env, fuel: nat, dims: seq<nat>, ty: Type, t: Target, j: nat)
    requires dims != [] && HoldsArray(env, fuel, dims, ty, t)
    ensures HoldsArray(env, fuel, dims[1..], ty, Child(t, j))
  {
    hide HasTypeAll;
    if Child(t, j).Live? {
      ItemOfAll(env, fuel, dims[1..], ty, t.v.kids, j);
    }
  }

  lemma {:induction false} EntityCompletes(cx: Context, fm: nat, fv: nat, dims: seq<nat>, ty: Type, acc: Accessor,
                                           root: Target, c: Cursor)
    requires Checking(cx) && Bound(acc, 1, EMPTY_SCOPE) && !acc.Element? &&
             HoldsArray(cx.env, fv, dims, ty, Fetch(root, acc, EMPTY_SCOPE))
    ensures RunOps(cx, fm, EntityOps(cx.env, Max, dims, ty, acc), EMPTY_SCOPE, root, c).Some? <==>
            MeasurableArray(cx, fm, dims, ty, Fetch(root, acc, EMPTY_SCOPE))
    decreases fm, 0, ty, |dims|, 3, 0
  {
    hide Checking; hide RunOps; hide HasArray; hide TypeOps; hide Fetch; hide MeasurableArray; hide Bound;
    ArrayCompletes(cx, fm, fv, dims, ty, 0, acc, EMPTY_SCOPE, root, c);
    if dims != [] {
      var op := EntityOps(cx.env, Max, dims, ty, acc)[0];
      RunSingle(cx, fm, op, EMPTY_SCOPE, root, c);
      ConsecutiveUnfold(cx, fm, true, op.primitive, op.body, EMPTY_SCOPE, root, c);
    }
  }

  lemma {:induction false} DefinitionCompletes(cx: Context, fm: nat, fv: nat, def: Def, root: Target, c: Cursor)
    requires Checking(cx) && WellFormedDef(def) && HoldsDef(cx.env, fv, def, root)
    ensures RunProg(cx, fm, ProgOf(cx.env, Max, def), root, c).Some? <==> MeasurableDef(cx, fm, def, root)
    decreases fm, 2
  {
    hide Checking; hide RunOps; hide HasArray; hide EntityOps; hide MeasurableArray; hide MeasurableCases;
    hide MeasurableFields;
    hide RunBranches; hide Advance; hide Fetch; hide Bound; hide RunEntities; hide Entries; hide Fields; hide HasFields;
    hide Streamable;
    match def
    case Struct(_, _) =>
      var fs := Fields(def);
      assert Ids(fs)[0..] == Ids(fs);
      FieldsComplete(cx, fm, fv, def, root, c, 0);
    case Typedef(ty, dims, _) =>
      RootFetched(root, Instance, 1);
      EntityCompletes(cx, fm, fv, dims, ty, Instance, root, c);
    case Union(disc, _, _, _) =>
      assert cx.mode == Max by { CheckingMax(cx); }
      if root.Live? && root.v.VUnion? {
        AdvanceCompletes(cx, c, disc.width, Bytes(root.v.d, disc.width));
        var start := Advance(cx, c, disc.width, Bytes(root.v.d, disc.width)).value;
        CasesComplete(cx, fm, fv, def, root.v, start, start, 0);
      }
  }

  lemma CheckingMax(cx: Context)
    requires Checking(cx)
    ensures cx.mode == Max && cx.checked
  {
  }

  lemma {:induction false} FieldsComplete(cx: Context, fm: nat, fv: nat, def: Def, root: Target, c: Cursor, k: nat)
    requires Checking(cx) && def.Struct? && WellFormedDef(def) && HoldsDef(cx.env, fv, def, root) && k <= |Fields(def)|
    ensures RunEntities(cx, fm, Ids(Fields(def))[k..], Entries(cx.env, Max, Fields(def)), root, c).Some? <==>
            MeasurableFields(cx, fm, Fields(def), root, k)
    decreases fm, 1, |Fields(def)| - k
  {
    hide *;
    CheckingMax(cx);
    var fs := Fields(def);
    if k == |fs| {
      AllFieldsComplete(cx, fm, fs, root, c);
    } else {
      var f := fs[k];
      FieldHolds(cx.env, fv, def, root, k);
      EntitiesMeasured(cx, fm, fs, k, root, c);
      EntryBody(cx.env, f, k);
      RootFetched(root, Programs.Accessor.Member(k), 1);
      EntityCompletes(cx, fm, fv, f.decl.dims, f.ty, Programs.Accessor.Member(k), root, c);
      NextField(cx, fm, fs, root, k);
      var first := RunOps(cx, fm, EntryOf(cx.env, Max, f).body, EMPTY_SCOPE, root, c);
      if first.Some? && !(Copied(cx.env, f) && root.Outside?) {
        FieldsComplete(cx, fm, fv, def, root, first.value, k + 1);
      }
    }
  }

  lemma EntryBody(env: Env, f: Field, k: nat)
    requires f.decl.slot == k
    ensures EntryOf(env, Max, f).body == EntityOps(env, Max, f.decl.dims, f.ty, Programs.Accessor.Member(k))
  {
  }

  lemma FieldHolds(env: Env, fuel: nat, def: Def, root: Target, k: nat)
    requires def.Struct? && WellFormedDef(def) && HoldsDef(env, fuel, def, root) && k < |Fields(def)|
    ensures DistinctIds(Fields(def)) && Fields(def)[k].decl.slot == k
    ensures HoldsArray(env, fuel, Fields(def)[k].decl.dims, Fields(def)[k].ty, Child(root, k))
  {
    hide HasArray; hide Fields;
    if root.Live? { assert HasFields(env, fuel, Fields(def), root.v.kids); }
  }

  lemma AllFieldsComplete(cx: Context, fm: nat, fs: seq<Field>, root: Target, c: Cursor)
    ensures RunEntities(cx, fm, Ids(fs)[|fs|..], Entries(cx.env, Max, fs), root, c) == Some(c)
    ensures MeasurableFields(cx, fm, fs, root, |fs|)
  {
    assert Ids(fs)[|fs|..] == [];
  }

  lemma NextField(cx: Context, fm: nat, fs: seq<Field>, t: Target, k: nat)
    requires k < |fs|
    ensures MeasurableFields(cx, fm, fs, t, k) <==>
            MeasurableArray(cx, fm, fs[k].decl.dims, fs[k].ty, Child(t, k)) &&
            (t.Outside? ==> !Copied(cx.env, fs[k])) && MeasurableFields(cx, fm, fs, t, k + 1)
  {
    hide MeasurableArray; hide Child; hide Copied;
    if MeasurableArray(cx, fm, fs[k].decl.dims, fs[k].ty, Child(t, k)) &&
      (t.Outside? ==> !Copied(cx.env, fs[k])) && MeasurableFields(cx, fm, fs, t, k + 1) {
      forall i: nat | k <= i < |fs|
        ensures MeasurableArray(cx, fm, fs[i].decl.dims, fs[i].ty, Child(t, i)) &&
                (t.Outside? ==> !Copied(cx.env, fs[i]))
      {
        if i != k { assert k + 1 <= i < |fs|; }
      }
    }
  }

  lemma {:induction false} CasesComplete(cx: Context, fm: nat, fv: nat, def: Def, v: Val, start: Cursor, best: Cursor,
                                         i: nat)
    requires Checking(cx) && def.Union? && WellFormedDef(def) && v.VUnion? && HoldsDef(cx.env, fv, def, Live(v)) &&
             i <= |def.cases|
    ensures RunBranches(cx, fm, Branchings(cx.env, Max, def.cases), i, ShapeOf(def), v.d, v.payload, start,
                        best).Some? <==>
            MeasurableCases(cx, fm, def, v, i)
    decreases fm, 1, |def.cases| - i
  {
    hide *;
    CheckingMax(cx);
    if i == |def.cases| {
      AllCasesComplete(cx, fm, def, v, start, best);
    } else {
      var b := def.cases[i];
      var t := CaseTarget(cx, fm, def, v, i);
      CaseHolds(cx, fm, fv, def, v, i);
      RootFetched(t, Branch(i), 1);
      EntityCompletes(cx, fm, fv, b.dims, b.ty, Branch(i), t, start);
      NextCase(cx, fm, def, v, i);
      BranchStep(cx, fm, def, v, start, best, i);
      var end := RunOps(cx, fm, EntityOps(cx.env, Max, b.dims, b.ty, Branch(i)), EMPTY_SCOPE, t, start);
      if end.Some? {
        CasesComplete(cx, fm, fv, def, v, start, if Before(best.pos, end.value.pos) then end.value else best, i + 1);
      }
    }
  }

  lemma AllCasesComplete(cx: Context, fm: nat, def: Def, v: Val, start: Cursor, best: Cursor)
    requires def.Union? && v.VUnion?
    ensures RunBranches(cx, fm, Branchings(cx.env, Max, def.cases), |def.cases|, ShapeOf(def), v.d, v.payload, start,
                        best) == Some(best)
    ensures MeasurableCases(cx, fm, def, v, |def.cases|)
  {
  }

  /** The getter of a branch yields the value of the active branch, or nothing. */
  lemma CaseHolds(cx: Context, fm: nat, fv: nat, def: Def, v: Val, i: nat)
    requires cx.checked && def.Union? && WellFormedDef(def) && v.VUnion? && i < |def.cases| &&
             HoldsDef(cx.env, fv, def, Live(v))
    ensures CaseTarget(cx, fm, def, v, i) ==
            if ArmOf(ShapeOf(def), v.d) == Some(i) && v.payload.Some? then Live(v.payload.value) else Nowhere
    ensures ArmOf(ShapeOf(def), v.d) == Some(i) ==> v.payload.Some?
    ensures HoldsArray(cx.env, fv, def.cases[i].dims, def.cases[i].ty, CaseTarget(cx, fm, def, v, i))
  {
    var u := ShapeOf(def);
    LabelSelectsArm(u, i, 0);
    CompatibleIsSameBranch(u, v.d, u.arms[i][0].value);
    hide HasArray; hide ArmOf; hide Compatible; hide WellFormed;
  }

  lemma NextCase(cx: Context, fm: nat, def: Def, v: Val, i: nat)
    requires def.Union? && v.VUnion? && i < |def.cases|
    ensures MeasurableCases(cx, fm, def, v, i) <==>
            MeasurableArray(cx, fm, def.cases[i].dims, def.cases[i].ty, CaseTarget(cx, fm, def, v, i)) &&
              MeasurableCases(cx, fm, def, v, i + 1)
  {
    hide MeasurableArray; hide CaseTarget;
    if MeasurableArray(cx, fm, def.cases[i].dims, def.cases[i].ty, CaseTarget(cx, fm, def, v, i)) &&
      MeasurableCases(cx, fm, def, v, i + 1) {
      forall k: nat | i <= k < |def.cases|
        ensures MeasurableArray(cx, fm, def.cases[k].dims, def.cases[k].ty, CaseTarget(cx, fm, def, v, k))
      {
        if k != i { assert i + 1 <= k < |def.cases|; }
      }
    }
  }

  lemma BranchStep(cx: Context, fm: nat, def: Def, v: Val, start: Cursor, best: Cursor, i: nat)
    requires def.Union? && v.VUnion? && i < |def.cases|
    ensures RunBranches(cx, fm, Branchings(cx.env, Max, def.cases), i, ShapeOf(def), v.d, v.payload, start, best) ==
            match RunOps(cx, fm, EntityOps(cx.env, Max, def.cases[i].dims, def.cases[i].ty, Branch(i)), EMPTY_SCOPE,
                         CaseTarget(cx, fm, def, v, i), start)
            case None => None
            case Some(end) =>
              RunBranches(cx, fm, Branchings(cx.env, Max, def.cases), i + 1, ShapeOf(def), v.d, v.payload, start,
                          if Before(best.pos, end.pos) then end else best)
  {
    hide RunOps; hide BranchRef; hide EntityOps;
    assert Branchings(cx.env, Max, def.cases)[i] == BranchingOf(cx.env, Max, def.cases[i], i);
  }

  /**
    The max program of a type completes on a value, from any position, if and only if the value
    is measurable: all the code looks at is there.
   */
  lemma CompletesExactly(env: Env, ma: MaxAlign, capacity: nat, fm: nat, fv: nat, def: Def, x: Val, c: Cursor)
    requires WellFormedEnv(env) && WellFormedDef(def) && StreamableDef(env, fv, def) && HasDef(env, fv, def, x)
    ensures var cx := Context(Max, env, Linked(env, Max), ma, capacity);
            RunProg(cx, fm, ProgOf(env, Max, def), Live(x), c).Some? <==> MeasurableDef(cx, fm, def, Live(x))
  {
    hide RunProg; hide ProgOf; hide Linked; hide HasDef; hide WellFormedDef; hide MeasurableDef; hide StreamableDef;
    DefinitionCompletes(Context(Max, env, Linked(env, Max), ma, capacity), fm, fv, def, Live(x), c);
  }
}
