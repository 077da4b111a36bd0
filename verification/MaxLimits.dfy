/**
  Where the max program gives no bound: bounded strings, inactive branches, elements that are not
  there. And types for which it always gives one.
 */
module MaxLimits {
  import opened Wrappers
  import opened Wire
  import opened Unions
  import opened Idl
  import opened Encoding
  import opened Programs
  import opened Emitter
  import opened Objects
  import opened Machine
  import opened WriteMove
  import opened MaxBound
  import opened MaxCompletes
  import opened Targets

  /**
    The max program moves over a bounded string by the length the string it is given has now,
    not by the bound. So it bounds all values exactly when that string is full.
   */
  lemma BoundedStringMax(env: Env, ma: MaxAlign, capacity: nat, fuel: nat, bound: nat, s: seq<byte>, p: nat, pl: nat)
    requires 0 < bound && bound + 1 < UINT32_LIMIT && |s| <= bound && Aligned(p, pl, ma)
    ensures var def := Typedef(Str(bound), [], []);
            var cx := Context(Max, env, Linked(env, Max), ma, capacity);
            var r := RunProg(cx, fuel, ProgOf(env, Max, def), Live(VText(s)), Cursor(At(p), pl, []));
            && r.Some? && r.value.pos.At?
            && ((forall v | HasDef(env, fuel, def, v) :: p + |EncDef(env, ma, fuel, def, v, p)| <= r.value.pos.n) <==>
              |s| == bound)
  {
    var def := Typedef(Str(bound), [], []);
    var cx := Context(Max, env, Linked(env, Max), ma, capacity);
    var c := Cursor(At(p), pl, []);
    var r := RunProg(cx, fuel, ProgOf(env, Max, def), Live(VText(s)), c);
    StringMeasured(cx, fuel, bound, s, c);
    var full := VText(Zeros(bound));
    assert HasArray(env, fuel, [], Str(bound), full) && HasDef(env, fuel, def, full);
    StringSize(env, ma, fuel, bound, full, p);
    if |s| == bound {
      forall v | HasDef(env, fuel, def, v)
        ensures p + |EncDef(env, ma, fuel, def, v, p)| <= r.value.pos.n
      {
        StringSize(env, ma, fuel, bound, v, p);
      }
    }
  }

  lemma StringSize(env: Env, ma: MaxAlign, fuel: nat, bound: nat, v: Val, p: nat)
    requires HasDef(env, fuel, Typedef(Str(bound), [], []), v)
    ensures v.VText? && (bound > 0 ==> |v.s| <= bound)
    ensures |EncDef(env, ma, fuel, Typedef(Str(bound), [], []), v, p)| == Padding(p, 4, ma) + 4 + |v.s| + 1
  {
    hide Padding; hide Bytes;
    assert HasArray(env, fuel, [], Str(bound), v) && HasType(env, fuel, Str(bound), v);
    assert EncArray(env, ma, fuel, [], Str(bound), v, p) == Enc(env, ma, fuel, Str(bound), v, p);
  }

  lemma StringMeasured(cx: Context, fuel: nat, bound: nat, s: seq<byte>, c: Cursor)
    requires cx.mode == Max && 0 < bound && |s| <= bound && c.pos.At? && Aligned(c.pos.n, c.al, cx.ma)
    ensures var r := RunProg(cx, fuel, ProgOf(cx.env, Max, Typedef(Str(bound), [], [])), Live(VText(s)), c);
            r.Some? && r.value.pos == At(c.pos.n + Padding(c.pos.n, 4, cx.ma) + 4 + |s| + 1)
  {
    hide Padding; hide Aligned; hide Advance;
    AdvanceMax(cx, c, 4, Bytes(|s| + 1, 4), 1, c.pos.n, 0);
    RunSingle(cx, fuel, Text(Instance, bound), EMPTY_SCOPE, Live(VText(s)), c);
  }

  // ----- unions -----

  /**
    The max code of the type looks at nothing: a sequence without a bound, or of numbers that are
    not booleans, or of such sequences.
   */
  predicate Unread(ty: Type) {
    ty.Sequence? && (ty.bound == 0 || Contiguous(ty.elem) || Unread(ty.elem))
  }

  predicate UnreadCase(c: Case) {
    c.dims == [] && Unread(c.ty)
  }

  lemma {:induction false} NowhereUnread(cx: Context, fuel: nat, ty: Type, inVector: bool)
    ensures Measurable(cx, fuel, ty, Nowhere, inVector) <==> Unread(ty)
  {
    hide MeasurableDef;
    if ty.Sequence? {
      NowhereUnread(cx, fuel, ty.elem, true);
      if ty.bound > 0 { assert ElementAt(Nowhere, 0) == Nowhere; }
    }
  }

  /**
    Measuring a union completes if and only if its active branch can be measured and no other
    branch is looked at: the max code of a union goes through the getter of every branch, and
    the getter of one that is not active throws.
   */
  lemma UnionMax(env: Env, ma: MaxAlign, capacity: nat, fm: nat, fv: nat, def: Def, x: Val, c: Cursor)
    requires WellFormedEnv(env) && def.Union? && WellFormedDef(def) && StreamableDef(env, fv, def) &&
             HasDef(env, fv, def, x)
    ensures var cx := Context(Max, env, Linked(env, Max), ma, capacity);
            RunProg(cx, fm, ProgOf(env, Max, def), Live(x), c).Some? <==>
            forall i :: 0 <= i < |def.cases| ==>
              if ArmOf(ShapeOf(def), x.d) == Some(i)
              then x.payload.Some? && MeasurableArray(cx, fm, def.cases[i].dims, def.cases[i].ty, Live(x.payload.value))
              else UnreadCase(def.cases[i])
  {
    hide RunProg; hide ProgOf; hide Linked; hide HasDef; hide WellFormedDef; hide MeasurableArray; hide CaseTarget;
    hide ArmOf;
    var cx := Context(Max, env, Linked(env, Max), ma, capacity);
    CompletesExactly(env, ma, capacity, fm, fv, def, x, c);
    UnionValue(env, fv, def, x);
    forall i: nat | i < |def.cases|
      ensures MeasurableArray(cx, fm, def.cases[i].dims, def.cases[i].ty, CaseTarget(cx, fm, def, x, i)) <==>
              if ArmOf(ShapeOf(def), x.d) == Some(i)
              then x.payload.Some? && MeasurableArray(cx, fm, def.cases[i].dims, def.cases[i].ty, Live(x.payload.value))
              else UnreadCase(def.cases[i])
    {
      CaseHolds(cx, fm, fv, def, x, i);
      NowhereUnreadCase(cx, fm, def.cases[i]);
    }
  }

  lemma UnionValue(env: Env, fuel: nat, def: Def, x: Val)
    requires def.Union? && HasDef(env, fuel, def, x)
    ensures x.VUnion?
  {
  }

  lemma NowhereUnreadCase(cx: Context, fuel: nat, c: Case)
    ensures MeasurableArray(cx, fuel, c.dims, c.ty, Nowhere) <==> UnreadCase(c)
  {
    hide Measurable; hide Strip;
    NowhereUnread(cx, fuel, c.ty, false);
  }

  /** So it fails on every object in which some branch is inactive whose object is looked at. */
  lemma UnionMaxNeedsActiveBranch(env: Env, ma: MaxAlign, capacity: nat, fm: nat, fv: nat, def: Def, x: Val,
                                  c: Cursor, i: nat)
    requires WellFormedEnv(env) && def.Union? && WellFormedDef(def) && StreamableDef(env, fv, def) &&
             HasDef(env, fv, def, x)
    requires i < |def.cases| && !UnreadCase(def.cases[i]) && ArmOf(ShapeOf(def), x.d) != Some(i)
    ensures RunProg(Context(Max, env, Linked(env, Max), ma, capacity), fm, ProgOf(env, Max, def), Live(x), c).None?
  {
    hide HasDef; hide WellFormedDef; hide RunProg; hide Linked; hide ProgOf; hide MeasurableArray; hide ArmOf;
    UnionMax(env, ma, capacity, fm, fv, def, x, c);
  }

  /** For a union of numbers all branches must be the active one. */
  lemma UnionOfNumbersMax(env: Env, ma: MaxAlign, capacity: nat, fm: nat, fv: nat, def: Def, x: Val, c: Cursor)
    requires WellFormedEnv(env) && def.Union? && WellFormedDef(def) && StreamableDef(env, fv, def) &&
             HasDef(env, fv, def, x)
    requires forall i :: 0 <= i < |def.cases| ==> def.cases[i].dims == [] && def.cases[i].ty.Num?
    ensures RunProg(Context(Max, env, Linked(env, Max), ma, capacity), fm, ProgOf(env, Max, def), Live(x), c).Some? <==>
            (forall i :: 0 <= i < |def.cases| ==> ArmOf(ShapeOf(def), x.d) == Some(i))
  {
    hide WellFormedDef; hide RunProg; hide Linked; hide ProgOf; hide ArmOf; hide HasType;
    UnionMax(env, ma, capacity, fm, fv, def, x, c);
  }

  // ----- getters that do not check -----

  lemma MaxUnionUnfold(cx: Context, fm: nat, def: Def, x: Val, c: Cursor)
    requires cx.mode == Max && def.Union? && x.VUnion?
    ensures RunProg(cx, fm, ProgOf(cx.env, Max, def), Live(x), c) ==
            match Advance(cx, c, def.disc.width, Bytes(x.d, def.disc.width))
            case None => None
            case Some(c') => RunBranches(cx, fm, Branchings(cx.env, Max, def.cases), 0, ShapeOf(def), x.d, x.payload,
                                         c', c')
  {
    hide RunBranches; hide Advance; hide Branchings;
  }

  /**
    With getters that do not check, the max code of a union of numbers completes on every object,
    and so bounds all values whichever branch the object has.
   */
  lemma UncheckedUnionMax(env: Env, ma: MaxAlign, capacity: nat, fm: nat, fv: nat, def: Def, x: Val, v: Val, q: nat,
                          ql: nat,
                          p: nat, pl: nat)
    requires WellFormedEnv(env) && def.Union? && WellFormedDef(def) && StreamableDef(env, fv, def)
    requires HasDef(env, fv, def, x) && HasDef(env, fv, def, v)
    requires p <= q && Aligned(q, ql, ma) && Aligned(p, pl, ma)
    requires forall i :: 0 <= i < |def.cases| ==> def.cases[i].dims == [] && def.cases[i].ty.Num?
    ensures var bound := RunProg(Context(Max, env, Linked(env, Max), ma, capacity, false), fm, ProgOf(env, Max, def),
                                 Live(x), Cursor(At(q), ql, []));
            var moved := RunProg(Context(Move, env, Linked(env, Move), ma, capacity), fv, ProgOf(env, Move, def),
                                 Live(v), Cursor(At(p), pl, []));
            bound.Some? && moved.Some? && !Before(bound.value.pos, moved.value.pos)
  {
    var cx := Context(Max, env, Linked(env, Max), ma, capacity, false);
    var c := Cursor(At(q), ql, []);
    var w := def.disc.width;
    AdvanceMax(cx, c, w, Bytes(x.d, w), 1, c.pos.n, 0);
    MaxUnionUnfold(cx, fm, def, x, c);
    hide RunProg; hide ProgOf; hide Linked; hide Advance; hide RunBranches; hide HasDef; hide WellFormedDef;
    var start := Advance(cx, c, w, Bytes(x.d, w)).value;
    NumbersComplete(cx, fm, fv, def, 0, x, start, start);
    NumbersAreFull(cx, fm, def, x);
    MaxBoundsMove(env, ma, capacity, fm, fv, def, x, v, q, ql, p, pl, false);
  }

  lemma NumbersAreFull(cx: Context, fm: nat, def: Def, x: Val)
    requires def.Union? && x.VUnion? && forall i :: 0 <= i < |def.cases| ==>
               def.cases[i].dims == [] && def.cases[i].ty.Num?
    ensures FullDef(cx, fm, def, Live(x))
  {
    hide BranchRef;
    forall i: nat | i < |def.cases|
      ensures FullArray(cx, fm, def.cases[i].dims, def.cases[i].ty,
                        BranchRef(cx, fm, def.cases[i].dims, def.cases[i].ty, ShapeOf(def), x.d, x.payload, i))
    {
    }
  }

  lemma {:induction false} NumbersComplete(cx: Context, fm: nat, fv: nat, def: Def, i: nat, x: Val, start: Cursor,
                                           best: Cursor)
    requires cx.mode == Max && !cx.checked && def.Union? && x.VUnion? && Settled(cx, start)
    requires WellFormedDef(def) && HasDef(cx.env, fv, def, x)
    requires forall k :: 0 <= k < |def.cases| ==> def.cases[k].dims == [] && def.cases[k].ty.Num?
    ensures RunBranches(cx, fm, Branchings(cx.env, Max, def.cases), i, ShapeOf(def), x.d, x.payload, start, best).Some?
    decreases if i < |def.cases| then |def.cases| - i else 0
  {
    hide RunOps; hide BranchRef; hide Settled; hide WellFormedDef; hide HasDef;
    if i < |def.cases| {
      var b := def.cases[i];
      var t := BranchRef(cx, fm, b.dims, b.ty, ShapeOf(def), x.d, x.payload, i);
      BranchIsNumber(cx, fm, fv, def, x, i);
      NumberCompletes(cx, fm, b, i, t, start);
      assert Branchings(cx.env, Max, def.cases)[i] == BranchingOf(cx.env, Max, b, i);
      var end := RunOps(cx, fm, EntityOps(cx.env, Max, b.dims, b.ty, Branch(i)), EMPTY_SCOPE, t, start).value;
      NumbersComplete(cx, fm, fv, def, i + 1, x, start, if Before(best.pos, end.pos) then end else best);
    }
  }

  /** A getter that does not check yields the number of the active branch, or some default one. */
  lemma BranchIsNumber(cx: Context, fm: nat, fv: nat, def: Def, x: Val, i: nat)
    requires !cx.checked && def.Union? && WellFormedDef(def) && x.VUnion? && HasDef(cx.env, fv, def, x)
    requires i < |def.cases| && def.cases[i].dims == [] && def.cases[i].ty.Num?
    ensures var t := BranchRef(cx, fm, def.cases[i].dims, def.cases[i].ty, ShapeOf(def), x.d, x.payload, i);
            t.Live? && t.v.VNum?
  {
    var u := ShapeOf(def);
    assert Legal(u, x.d);
    LabelSelectsArm(u, i, 0);
    CompatibleIsSameBranch(u, x.d, u.arms[i][0].value);
    hide ArmOf; hide Compatible; hide WellFormed; hide HasNum;
    var b := def.cases[i];
    assert DefaultArray(cx.env, fm, b.dims, b.ty) == Default(cx.env, fm, b.ty) == VNum(0);
    if ArmOf(u, x.d) == Some(i) {
      assert HasArray(cx.env, fv, b.dims, b.ty, x.payload.value) && HasType(cx.env, fv, b.ty, x.payload.value);
    }
  }

  lemma NumberCompletes(cx: Context, fm: nat, b: Case, i: nat, t: Target, start: Cursor)
    requires cx.mode == Max && b.dims == [] && b.ty.Num? && Settled(cx, start) && t.Live? && t.v.VNum?
    ensures RunOps(cx, fm, EntityOps(cx.env, Max, b.dims, b.ty, Branch(i)), EMPTY_SCOPE, t, start).Some?
  {
    hide Advance; hide Settled; hide RunOps;
    var num := b.ty.num;
    assert Get(t.v, []) == Some(t.v);
    AdvanceMax(cx, start, num.width, Bytes(t.v.n, num.width), 1, 0, 0);
    RunSingle(cx, fm, Prim(Branch(i), num), EMPTY_SCOPE, t, start);
  }

  // ----- where there is no object -----

  /** The max code of the type only needs a way to where an object would be. */
  predicate Absent(env: Env, fuel: nat, ty: Type, inVector: bool)
    decreases fuel, 0, 0
  {
    match ty
    case Sequence(elem, bound) => bound == 0 || Contiguous(elem) || Unread(elem)
    case Named(n) =>
      n in env &&
      if IsBareTypedef(env, n) then AbsentBare(env[n].ty, inVector)
      else fuel > 0 && !(inVector && IsBoolean(Strip(env, ty))) && AbsentDef(env, fuel - 1, env[n])
    case _ => AbsentBare(ty, inVector)
  }

  predicate AbsentBare(ty: Type, inVector: bool) {
    match ty
    case Num(num) => !(inVector && num.kind.Boolean?)
    case Str(bound) => bound == 0
    case _ => false
  }

  predicate AbsentArray(env: Env, fuel: nat, dims: seq<nat>, ty: Type)
    decreases fuel, 0, 1 + |dims|
  {
    if dims == [] then Absent(env, fuel, ty, false)
    else dims[0] == 0 || (|dims| == 1 && Strip(env, ty).Num?) || AbsentArray(env, fuel, dims[1..], ty)
  }

  /** Numbers would have to be copied out of a struct, and the discriminator out of a union. */
  predicate AbsentDef(env: Env, fuel: nat, def: Def)
    decreases fuel, 1
  {
    match def
    case Struct(_, _) =>
      forall k :: 0 <= k < |Fields(def)| ==>
        !Copied(env, Fields(def)[k]) && AbsentArray(env, fuel, Fields(def)[k].decl.dims, Fields(def)[k].ty)
    case Union(_, _, _, _) => false
    case Typedef(ty, dims, _) => AbsentArray(env, fuel, dims, ty)
  }

  lemma {:induction false} AbsentMeasured(cx: Context, fuel: nat, ty: Type, inVector: bool)
    ensures Measurable(cx, fuel, ty, Outside, inVector) <==> Absent(cx.env, fuel, ty, inVector)
    decreases fuel, 0, 0
  {
    hide MeasurableDef; hide AbsentDef; hide Strip;
    match ty
    case Sequence(elem, bound) =>
      NowhereUnread(cx, fuel, elem, true);
      assert forall j: nat :: ElementAt(Outside, j) == Nowhere;
      if bound > 0 { assert ElementAt(Outside, 0) == Nowhere; }
    case Named(n) =>
      if !IsBareTypedef(cx.env, n) && fuel > 0 && n in cx.env {
        AbsentDefMeasured(cx, fuel - 1, cx.env[n]);
      }
    case _ =>
  }

  lemma {:induction false} AbsentArrayMeasured(cx: Context, fuel: nat, dims: seq<nat>, ty: Type)
    ensures MeasurableArray(cx, fuel, dims, ty, Outside) <==> AbsentArray(cx.env, fuel, dims, ty)
    decreases fuel, 0, 1 + |dims|
  {
    hide Measurable; hide Absent; hide Strip;
    if dims == [] {
      AbsentMeasured(cx, fuel, ty, false);
    } else {
      AbsentArrayMeasured(cx, fuel, dims[1..], ty);
      assert forall j: nat :: Child(Outside, j) == Outside;
      if dims[0] > 0 { assert Child(Outside, 0) == Outside; }
    }
  }

  lemma {:induction false} AbsentDefMeasured(cx: Context, fuel: nat, def: Def)
    ensures MeasurableDef(cx, fuel, def, Outside) <==> AbsentDef(cx.env, fuel, def)
    decreases fuel, 1
  {
    hide MeasurableArray; hide AbsentArray; hide Copied;
    match def
    case Struct(_, _) =>
      forall k: nat | k < |Fields(def)|
        ensures Child(Outside, k) == Outside
        ensures MeasurableArray(cx, fuel, Fields(def)[k].decl.dims, Fields(def)[k].ty, Outside) <==>
                AbsentArray(cx.env, fuel, Fields(def)[k].decl.dims, Fields(def)[k].ty)
      {
        AbsentArrayMeasured(cx, fuel, Fields(def)[k].decl.dims, Fields(def)[k].ty);
      }
    case Union(_, _, _, _) =>
    case Typedef(ty, dims, _) => AbsentArrayMeasured(cx, fuel, dims, ty);
  }

  // ----- types that can always be measured -----

  /**
    Every value can be measured: the elements of bounded sequences need not be there, and unions
    have no branch that is looked at or no other.
   */
  predicate Plain(env: Env, fuel: nat, ty: Type)
    decreases fuel, 0, 0
  {
    match ty
    case Sequence(elem, bound) => bound == 0 || Absent(env, fuel, elem, true)
    case Named(n) => IsBareTypedef(env, n) || (fuel > 0 && n in env && PlainDef(env, fuel - 1, env[n]))
    case _ => true
  }

  predicate PlainArray(env: Env, fuel: nat, dims: seq<nat>, ty: Type)
    decreases fuel, 0, 1 + |dims|
  {
    if dims == [] then Plain(env, fuel, ty)
    else dims[0] == 0 || (|dims| == 1 && Strip(env, ty).Num?) || PlainArray(env, fuel, dims[1..], ty)
  }

  predicate PlainDef(env: Env, fuel: nat, def: Def)
    decreases fuel, 1
  {
    match def
    case Struct(_, _) =>
      forall k :: 0 <= k < |Fields(def)| ==> PlainArray(env, fuel, Fields(def)[k].decl.dims, Fields(def)[k].ty)
    case Union(_, cases, _, implicit) =>
      (forall i :: 0 <= i < |cases| ==> UnreadCase(cases[i])) ||
      (|cases| == 1 && !implicit && PlainArray(env, fuel, cases[0].dims, cases[0].ty))
    case Typedef(ty, dims, _) => PlainArray(env, fuel, dims, ty)
  }

  lemma {:induction false} AbsentIsPlain(env: Env, fuel: nat, ty: Type, inVector: bool)
    requires Absent(env, fuel, ty, inVector)
    ensures Plain(env, fuel, ty)
    decreases fuel, 0, 0
  {
    hide AbsentDef; hide PlainDef; hide Strip;
    match ty
    case Named(n) => if !IsBareTypedef(env, n) { AbsentDefIsPlain(env, fuel - 1, env[n]); }
    case _ =>
  }

  lemma {:induction false} AbsentArrayIsPlain(env: Env, fuel: nat, dims: seq<nat>, ty: Type)
    requires AbsentArray(env, fuel, dims, ty)
    ensures PlainArray(env, fuel, dims, ty)
    decreases fuel, 0, 1 + |dims|
  {
    hide Absent; hide Plain; hide Strip;
    if dims == [] {
      AbsentIsPlain(env, fuel, ty, false);
    } else if AbsentArray(env, fuel, dims[1..], ty) {
      AbsentArrayIsPlain(env, fuel, dims[1..], ty);
    }
  }

  lemma {:induction false} AbsentDefIsPlain(env: Env, fuel: nat, def: Def)
    requires AbsentDef(env, fuel, def)
    ensures PlainDef(env, fuel, def)
    decreases fuel, 1
  {
    hide AbsentArray; hide PlainArray; hide Copied;
    match def
    case Struct(_, _) =>
      forall k | 0 <= k < |Fields(def)|
        ensures PlainArray(env, fuel, Fields(def)[k].decl.dims, Fields(def)[k].ty)
      {
        AbsentArrayIsPlain(env, fuel, Fields(def)[k].decl.dims, Fields(def)[k].ty);
      }
    case Typedef(ty, dims, _) => AbsentArrayIsPlain(env, fuel, dims, ty);
  }

  ghost predicate Proper(cx: Context) {
    cx.checked && WellFormedEnv(cx.env)
  }

  lemma {:induction false} PlainMeasured(cx: Context, fm: nat, fv: nat, ty: Type, v: Val, inVector: bool)
    requires Proper(cx) && Plain(cx.env, fm, ty) && HasType(cx.env, fv, ty, v) && Streamable(cx.env, fv, ty)
    ensures Measurable(cx, fm, ty, Live(v), inVector)
    decreases fm, 0, ty, 0
  {
    hide MeasurableDef; hide PlainDef; hide Absent; hide HasDef; hide HasTypeAll; hide Strip; hide WellFormedDef;
    match ty
    case Sequence(elem, bound) =>
      forall j: nat | bound > 0 && j < bound ensures Measurable(cx, fm, elem, ElementAt(Live(v), j), true) {
        if j < |v.kids| {
          AbsentIsPlain(cx.env, fm, elem, true);
          ElementOfAll(cx.env, 8, fv, elem, v.kids, j, 0);
          PlainMeasured(cx, fm, fv, elem, v.kids[j], true);
        } else {
          AbsentMeasured(cx, fm, elem, true);
        }
      }
    case Named(n) =>
      if IsBareTypedef(cx.env, n) {
        BareKeepsMeaning(cx.env, 8, fv, ty, v, 0);
      } else {
        PlainDefMeasured(cx, fm - 1, fv - 1, cx.env[n], v);
      }
    case _ =>
  }

  lemma {:induction false} PlainArrayMeasured(cx: Context, fm: nat, fv: nat, dims: seq<nat>, ty: Type, v: Val)
    requires Proper(cx) && PlainArray(cx.env, fm, dims, ty) && HasArray(cx.env, fv, dims, ty, v)
    requires Streamable(cx.env, fv, ty)
    ensures MeasurableArray(cx, fm, dims, ty, Live(v))
    decreases fm, 0, ty, |dims| + 1
  {
    hide Measurable; hide Plain; hide Strip; hide Proper; hide HasType; hide HasTypeAll;
    if dims == [] {
      PlainMeasured(cx, fm, fv, ty, v, false);
    } else if !(|dims| == 1 && Strip(cx.env, ty).Num?) {
      forall j: nat | j < dims[0] ensures MeasurableArray(cx, fm, dims[1..], ty, Child(Live(v), j)) {
        ItemOfAll(cx.env, fv, dims[1..], ty, v.kids, j);
        PlainArrayMeasured(cx, fm, fv, dims[1..], ty, v.kids[j]);
      }
    }
  }

  lemma {:induction false} PlainDefMeasured(cx: Context, fm: nat, fv: nat, def: Def, v: Val)
    requires Proper(cx) && WellFormedDef(def) && PlainDef(cx.env, fm, def) && HoldsDef(cx.env, fv, def, Live(v))
    ensures MeasurableDef(cx, fm, def, Live(v))
    decreases fm, 1
  {
    hide MeasurableArray; hide PlainArray; hide HasArray; hide CaseTarget; hide ArmOf; hide Legal;
    match def
    case Struct(_, _) =>
      assert HasFields(cx.env, fv, Fields(def), v.kids);
      forall k: nat | k < |Fields(def)|
        ensures MeasurableArray(cx, fm, Fields(def)[k].decl.dims, Fields(def)[k].ty, Child(Live(v), k))
      {
        PlainArrayMeasured(cx, fm, fv, Fields(def)[k].decl.dims, Fields(def)[k].ty, v.kids[k]);
      }
    case Union(_, cases, _, _) =>
      hide WellFormedDef; hide HasDef;
      UnionValue(cx.env, fv, def, v);
      forall i: nat | i < |cases|
        ensures MeasurableArray(cx, fm, cases[i].dims, cases[i].ty, CaseTarget(cx, fm, def, v, i))
      {
        PlainCaseMeasured(cx, fm, fv, def, v, i);
      }
    case Typedef(ty, dims, _) => PlainArrayMeasured(cx, fm, fv, dims, ty, v);
  }

  lemma {:induction false} PlainCaseMeasured(cx: Context, fm: nat, fv: nat, def: Def, v: Val, i: nat)
    requires Proper(cx) && def.Union? && v.VUnion? && WellFormedDef(def) && PlainDef(cx.env, fm, def) &&
             HoldsDef(cx.env, fv, def, Live(v)) && i < |def.cases|
    ensures MeasurableArray(cx, fm, def.cases[i].dims, def.cases[i].ty, CaseTarget(cx, fm, def, v, i))
    decreases fm, 0, def.cases[i].ty, |def.cases[i].dims| + 2
  {
    var b := def.cases[i];
    var t := CaseTarget(cx, fm, def, v, i);
    CaseHolds(cx, fm, fv, def, v, i);
    if UnreadCase(b) {
      UnreadMeasured(cx, fm, b.ty, t, false);
      hide CaseTarget;
    } else {
      OnlyCase(cx.env, fv, def, v);
      hide WellFormedDef; hide HasDef; hide MeasurableArray; hide HasArray; hide CaseTarget;
      PlainArrayMeasured(cx, fm, fv, b.dims, b.ty, t.v);
    }
  }

  lemma {:induction false} UnreadMeasured(cx: Context, fuel: nat, ty: Type, t: Target, inVector: bool)
    requires Unread(ty)
    ensures Measurable(cx, fuel, ty, t, inVector)
  {
    hide MeasurableDef;
    if ty.bound > 0 && !Contiguous(ty.elem) {
      forall j: nat | j < ty.bound ensures Measurable(cx, fuel, ty.elem, ElementAt(t, j), true) {
        UnreadMeasured(cx, fuel, ty.elem, ElementAt(t, j), true);
      }
    }
  }

  lemma OnlyCase(env: Env, fuel: nat, def: Def, v: Val)
    requires def.Union? && WellFormedDef(def) && HasDef(env, fuel, def, v) && |def.cases| == 1 && !def.implicit
    ensures v.VUnion? && ArmOf(ShapeOf(def), v.d) == Some(0)
  {
    hide HasArray; hide WellFormed;
    assert Legal(ShapeOf(def), v.d);
  }

  /**
    So for plain types measuring completes on every value. Its end is a bound of every value unless
    there are bounded strings that are not full.
   */
  lemma PlainMax(env: Env, ma: MaxAlign, capacity: nat, fm: nat, fv: nat, def: Def, x: Val, v: Val, q: nat, ql: nat,
                 p: nat, pl: nat)
    requires WellFormedEnv(env) && WellFormedDef(def) && PlainDef(env, fm, def) && StreamableDef(env, fv, def)
    requires HasDef(env, fv, def, x) && HasDef(env, fv, def, v)
    requires p <= q && Aligned(q, ql, ma) && Aligned(p, pl, ma)
    ensures var cx := Context(Max, env, Linked(env, Max), ma, capacity);
            var bound := RunProg(cx, fm, ProgOf(env, Max, def), Live(x), Cursor(At(q), ql, []));
            var moved := RunProg(Context(Move, env, Linked(env, Move), ma, capacity), fv, ProgOf(env, Move, def),
                                 Live(v), Cursor(At(p), pl, []));
            && bound.Some? && moved.Some?
            && (FullDef(cx, fm, def, Live(x)) ==> !Before(bound.value.pos, moved.value.pos))
  {
    hide RunProg; hide ProgOf; hide Linked; hide HasDef; hide WellFormedDef; hide MeasurableDef; hide FullDef;
    hide PlainDef;
    var c := Cursor(At(q), ql, []);
    var cx := Context(Max, env, Linked(env, Max), ma, capacity);
    PlainDefMeasured(cx, fm, fv, def, x);
    CompletesExactly(env, ma, capacity, fm, fv, def, x, c);
    RunDefinition(Context(Move, env, Linked(env, Move), ma, capacity), fv, def, v, Cursor(At(p), pl, []));
    if FullDef(cx, fm, def, Live(x)) {
      MaxBoundsMove(env, ma, capacity, fm, fv, def, x, v, q, ql, p, pl, true);
    }
  }

  // ----- bounded sequences -----

  /**
    Measuring a sequence of plain elements completes if and only if it has no bound, its elements
    need not be there, or they all are.
   */
  lemma SequenceMax(env: Env, ma: MaxAlign, capacity: nat, fm: nat, fv: nat, elem: Type, bound: nat, x: Val, c: Cursor)
    requires WellFormedEnv(env) && Plain(env, fm, elem) && Streamable(env, fv, elem)
    requires HasDef(env, fv, Typedef(Sequence(elem, bound), [], []), x)
    ensures x.VNode?
    ensures RunProg(Context(Max, env, Linked(env, Max), ma, capacity), fm,
                    ProgOf(env, Max, Typedef(Sequence(elem, bound), [], [])), Live(x), c).Some? <==>
            bound == 0 || Absent(env, fm, elem, true) || |x.kids| == bound
  {
    var cx := Context(Max, env, Linked(env, Max), ma, capacity);
    hide RunProg; hide Linked; hide ProgOf; hide Plain; hide Absent;
    CompletesExactly(env, ma, capacity, fm, fv, Typedef(Sequence(elem, bound), [], []), x, c);
    assert HasArray(env, fv, [], Sequence(elem, bound), x) && HasType(env, fv, Sequence(elem, bound), x);
    assert MeasurableDef(cx, fm, Typedef(Sequence(elem, bound), [], []), Live(x)) ==
           Measurable(cx, fm, Sequence(elem, bound), Live(x), false);
    if bound > 0 {
      if Contiguous(elem) { ContiguousIsAbsent(env, fm, elem); }
      ElementsMeasured(cx, fm, fv, elem, bound, x.kids);
    }
  }

  lemma ContiguousIsAbsent(env: Env, fuel: nat, elem: Type)
    requires Contiguous(elem)
    ensures Absent(env, fuel, elem, true)
  {
  }

  lemma ElementsMeasured(cx: Context, fm: nat, fv: nat, elem: Type, bound: nat, kids: seq<Val>)
    requires Proper(cx) && Plain(cx.env, fm, elem)
    requires HasTypeAll(cx.env, fv, [], elem, kids) && |kids| <= bound && bound > 0 && Streamable(cx.env, fv, elem)
    ensures MeasurableElements(cx, fm, elem, Live(VNode(kids)), 0, bound) <==>
            Absent(cx.env, fm, elem, true) || |kids| == bound
  {
    var t := Live(VNode(kids));
    AbsentMeasured(cx, fm, elem, true);
    hide Measurable; hide Absent; hide Plain; hide HasTypeAll; hide HasType; hide Proper;
    forall j: nat | j < bound
      ensures Measurable(cx, fm, elem, ElementAt(t, j), true) <==> j < |kids| || Absent(cx.env, fm, elem, true)
    {
      if j < |kids| {
        ElementOfAll(cx.env, 8, fv, elem, kids, j, 0);
        PlainMeasured(cx, fm, fv, elem, kids[j], true);
      }
    }
    if |kids| < bound { assert ElementAt(t, |kids|) == Outside; }
  }

  /** The elements of a vector of booleans are looked at one by one. */
  lemma BooleanVectorMax(env: Env, ma: MaxAlign, capacity: nat, fm: nat, fv: nat, w: Width, bound: nat, x: Val,
                         c: Cursor)
    requires WellFormedEnv(env)
    requires HasDef(env, fv, Typedef(Sequence(Num(NumType(w, Boolean)), bound), [], []), x)
    ensures x.VNode?
    ensures RunProg(Context(Max, env, Linked(env, Max), ma, capacity), fm,
                    ProgOf(env, Max, Typedef(Sequence(Num(NumType(w, Boolean)), bound), [], [])), Live(x), c).Some? <==>
            bound == 0 || |x.kids| == bound
  {
    hide RunProg; hide Linked; hide ProgOf; hide HasDef; hide WellFormedEnv;
    SequenceMax(env, ma, capacity, fm, fv, Num(NumType(w, Boolean)), bound, x, c);
  }

  /** And the numbers of structs are copied out of every element: `struct P { long x; }; sequence<P, 3>`. */
  lemma StructVectorMax(env: Env, ma: MaxAlign, capacity: nat, fm: nat, fv: nat, name: Name, k: nat, bound: nat, x: Val,
                        c: Cursor)
    requires WellFormedEnv(env) && fm > 0 && name in env && env[name].Struct? && Streamable(env, fv, Named(name))
    requires PlainDef(env, fm - 1, env[name]) && k < |Fields(env[name])| && Copied(env, Fields(env[name])[k])
    requires HasDef(env, fv, Typedef(Sequence(Named(name), bound), [], []), x)
    ensures x.VNode?
    ensures RunProg(Context(Max, env, Linked(env, Max), ma, capacity), fm,
                    ProgOf(env, Max, Typedef(Sequence(Named(name), bound), [], [])), Live(x), c).Some? <==>
            bound == 0 || |x.kids| == bound
  {
    hide RunProg; hide Linked; hide ProgOf; hide HasDef; hide WellFormedEnv; hide PlainDef;
    hide Copied; hide Strip;
    SequenceMax(env, ma, capacity, fm, fv, Named(name), bound, x, c);
  }
}
