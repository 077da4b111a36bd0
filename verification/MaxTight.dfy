/**
  The max program ends at the best possible bound: unless it is infinite, some value of the
  type reaches it. And where the max program does not give a bound at all.
 */
module MaxTight {
  import opened Wrappers
  import opened Wire
  import opened Unions
  import opened Idl
  import opened Encoding
  import opened Programs
  import opened Emitter
  import opened Objects
  import opened Machine
  import opened WriteMove
  import opened MaxBound

  // ----- types with values -----

  /** Some number of the type: the first enumerator, or zero. */
  function SampleNumber(num: NumType): nat {
    match num.kind
    case Enumeration(values, _) => if values == [] then 0 else values[0]
    case _ => 0
  }

  predicate Inhabited(ty: Type) {
    match ty
    case Num(num) => HasNum(num, SampleNumber(num))
    case Str(bound) => bound + 1 < UINT32_LIMIT
    case Sequence(elem, bound) => bound < UINT32_LIMIT && Inhabited(elem)
    case Named(_) => true
  }

  predicate InhabitedArray(dims: seq<nat>, ty: Type) {
    Inhabited(ty) && forall k :: 0 <= k < |dims| ==> dims[k] > 0
  }

  ghost predicate InhabitedDef(def: Def) {
    match def
    case Struct(_, _) => forall k :: 0 <= k < |Fields(def)| ==>
      InhabitedArray(Fields(def)[k].decl.dims, Fields(def)[k].ty)
    case Union(_, cases, _, implicit) =>
      (|cases| > 0 || implicit) && forall i :: 0 <= i < |cases| ==> InhabitedArray(cases[i].dims, cases[i].ty)
    case Typedef(ty, dims, _) => InhabitedArray(dims, ty)
  }

  /** `names` is above the numbers of all named types. */
  ghost predicate Populated(cx: Context, names: nat) {
    && Measuring(cx)
    && forall n {:trigger cx.env[n]} :: n in cx.env ==> n < names && InhabitedDef(cx.env[n])
  }

  predicate Reaches(r: Option<Cursor>, c: Cursor, len: nat) {
    r.Some? && r.value.pos.At? && c.pos.At? && r.value.pos.n == c.pos.n + len
  }

  predicate Ended(r: Option<Cursor>) {
    r.Some? && r.value.pos.At?
  }

  /** What has an end has had an end all along. */
  lemma EndedEarlier(cx: Context, c: Cursor, r: Option<Cursor>)
    requires Grown(cx, c, r) && Ended(r)
    ensures c.pos.At? && Settled(cx, r.value)
  {
  }

  lemma ReachesTrans(c: Cursor, first: Option<Cursor>, whole: Option<Cursor>, a: nat, b: nat)
    requires Reaches(first, c, a) && Reaches(whole, first.value, b)
    ensures Reaches(whole, c, a + b)
  {
  }

  lemma AdvanceReaches(cx: Context, c: Cursor, w: Width, data: seq<byte>, count: nat)
    requires cx.mode == Max && Settled(cx, c) && |data| == w * count && Ended(Advance(cx, c, w, data))
    ensures Reaches(Advance(cx, c, w, data), c, Padding(Place(c), w, cx.ma) + |data|) &&
            Settled(cx, Advance(cx, c, w, data).value)
  {
    AdvanceMax(cx, c, w, data, count, if c.pos.At? then c.pos.n else 0, 0);
  }

  lemma {:induction false} StripInhabited(env: Env, ma: MaxAlign, fuel: nat, ty: Type, names: nat)
    requires Strip(env, ty).Num? && HasNum(Strip(env, ty).num, SampleNumber(Strip(env, ty).num))
    requires ty.Named? ==> ty.name < fuel
    ensures HasType(env, fuel, ty, VNum(SampleNumber(Strip(env, ty).num)))
    decreases fuel
  {
    if ty.Named? {
      var target := env[ty.name].ty;
      StripInhabited(env, ma, fuel - 1, target, names);
      assert HasArray(env, fuel - 1, [], target, VNum(SampleNumber(Strip(env, ty).num)));
    }
  }

  lemma {:induction false} StripStaysInhabited(cx: Context, names: nat, ty: Type)
    requires Populated(cx, names) && Inhabited(ty) && Strip(cx.env, ty).Num?
    ensures Inhabited(Strip(cx.env, ty))
    decreases if ty.Named? then ty.name + 1 else 0
  {
    hide Measuring;
    if ty.Named? {
      var def := cx.env[ty.name];
      assert InhabitedDef(def);
      StripStaysInhabited(cx, names, def.ty);
    }
  }

  /** As many copies of one number fill an array or vector up to the end measured. */
  lemma CopiesFill(env: Env, ma: MaxAlign, fuel: nat, ty: Type, count: nat, pos: nat)
    requires Strip(env, ty).Num? && HasType(env, fuel, ty, VNum(SampleNumber(Strip(env, ty).num))) && count > 0
    ensures var kids := Copies(count, VNum(SampleNumber(Strip(env, ty).num)));
            && HasTypeAll(env, fuel, [], ty, kids)
            && |EncAll(env, ma, fuel, [], ty, kids, pos)| == Padding(pos, Strip(env, ty).num.width, ma)
              + Strip(env, ty).num.width * count
  {
    var kids := Copies(count, VNum(SampleNumber(Strip(env, ty).num)));
    forall k | 0 <= k < |kids| ensures HasArray(env, fuel, [], ty, kids[k]) {
      assert kids[k] == VNum(SampleNumber(Strip(env, ty).num));
    }
    NumsOfType(env, ma, fuel, ty, kids);
    BulkIsEach(env, ma, fuel, ty, kids, pos);
  }

  // ----- the value that reaches the bound -----

  lemma {:induction false} AttainType(cx: Context, fm: nat, names: nat, ty: Type, acc: Accessor, depth: nat,
                                      inVector: bool,
                                      scope: Scope, root: Target, c: Cursor) returns (v: Val)
    requires Populated(cx, names) && Settled(cx, c) && Inhabited(ty) && Streamable(cx.env, fm + names, ty)
    requires Ended(RunOps(cx, fm, TypeOps(cx.env, Max, ty, acc, depth, inVector), scope, root, c))
    ensures HasType(cx.env, fm + names, ty, v)
    ensures Reaches(RunOps(cx, fm, TypeOps(cx.env, Max, ty, acc, depth, inVector), scope, root, c), c,
                    |Enc(cx.env, cx.ma, fm + names, ty, v, Place(c))|)
    decreases fm, 0, ty, 0, 0, 0
  {
    hide RunOps; hide RunOp; hide RunProg; hide EncDef; hide EncAll; hide ProgOf; hide VectorOps; hide WellFormedDef;
    hide Linked;
    hide Sound; hide Fetch; hide Reaches; hide Ended; hide Settled; hide HasTypeAll; hide HasDef;
    hide Measuring; hide StreamableDef;
    MaxMode(cx);
    if ty.Sequence? {
      var kids := AttainVector(cx, fm, names, ty.elem, ty.bound, acc, depth, scope, root, c);
      v := VNode(kids);
    } else if ty.Named? && !IsBareTypedef(cx.env, ty.name) {
      EndedCall(cx, fm, names, ty.name, acc, scope, root, c);
      v := AttainDefinition(cx, fm - 1, names, cx.env[ty.name], Fetch(root, acc, scope), c);
    } else {
      BareInhabited(cx, names, ty);
      v := AttainBare(cx, fm, fm + names, Bare(cx.env, ty), acc, inVector, scope, root, c);
      BareHasType(cx.env, cx.ma, fm + names, names, ty, v, Place(c));
    }
  }

  lemma EndedCall(cx: Context, fuel: nat, names: nat, n: Name, acc: Accessor, scope: Scope, root: Target, c: Cursor)
    requires Populated(cx, names) && Ended(RunOps(cx, fuel, [Call(n, acc)], scope, root, c))
    ensures n in cx.env && fuel > 0 && WellFormedDef(cx.env[n]) && InhabitedDef(cx.env[n])
    ensures RunOps(cx, fuel, [Call(n, acc)], scope, root, c) ==
            RunProg(cx, fuel - 1, ProgOf(cx.env, Max, cx.env[n]), Fetch(root, acc, scope), c)
  {
    hide RunProg; hide ProgOf; hide WellFormedDef; hide InhabitedDef; hide Fetch;
    RunSingle(cx, fuel, Call(n, acc), scope, root, c);
    hide RunOps;
    assert InhabitedDef(cx.env[n]);
  }

  lemma BareInhabited(cx: Context, names: nat, ty: Type)
    requires Populated(cx, names) && Inhabited(ty) && !ty.Sequence?
    requires ty.Named? ==> IsBareTypedef(cx.env, ty.name)
    ensures Inhabited(Bare(cx.env, ty)) && (Bare(cx.env, ty).Num? || Bare(cx.env, ty).Str?)
    ensures ty.Named? ==> names > 0
  {
    hide Sound;
    if ty.Named? { assert InhabitedDef(cx.env[ty.name]); }
  }

  lemma BareHasType(env: Env, ma: MaxAlign, fuel: nat, names: nat, ty: Type, v: Val, pos: nat)
    requires HasType(env, fuel, Bare(env, ty), v) && Streamable(env, fuel, ty) && !ty.Sequence? &&
             (ty.Named? ==> IsBareTypedef(env, ty.name) && fuel > 0)
    ensures HasType(env, fuel, ty, v)
    ensures Enc(env, ma, fuel, Bare(env, ty), v, pos) == Enc(env, ma, fuel, ty, v, pos)
  {
    if ty.Named? {
      var target := env[ty.name].ty;
      assert HasType(env, fuel - 1, target, v) && HasArray(env, fuel - 1, [], target, v);
    }
    BareKeepsMeaning(env, ma, fuel, ty, v, pos);
  }

  lemma AttainNum(cx: Context, fm: nat, op: Op, num: NumType, scope: Scope, root: Target, c: Cursor)
    requires cx.mode == Max && Settled(cx, c) && (op.Prim? || op.BoolElement?) && op.num == num
    requires Ended(RunOp(cx, fm, op, scope, root, c))
    ensures Reaches(RunOp(cx, fm, op, scope, root, c), c, |EncNum(cx.ma, num, SampleNumber(num), Place(c))|)
  {
    hide Fetch; hide Advance; hide Settled; hide Padding; hide SampleNumber;
    var w := num.width;
    var t := Fetch(root, op.acc, scope);
    if t.Live? && t.v.VNum? {
      AdvanceReaches(cx, c, w, Bytes(t.v.n, w), 1);
    } else {
      AdvanceReaches(cx, c, w, Zeros(w), 1);
    }
  }

  /** A string with a bound is measured by the length it has, which some value has as well. */
  lemma AttainText(cx: Context, fm: nat, bound: nat, acc: Accessor, scope: Scope, root: Target, c: Cursor)
    requires cx.mode == Max && Settled(cx, c) && Ended(RunOp(cx, fm, Text(acc, bound), scope, root, c))
    ensures bound > 0 && Fetch(root, acc, scope).Live? && Fetch(root, acc, scope).v.VText?
    ensures |Fetch(root, acc, scope).v.s| <= bound
    ensures Reaches(RunOp(cx, fm, Text(acc, bound), scope, root, c), c,
                    |EncText(cx.ma, Fetch(root, acc, scope).v.s, Place(c))|)
  {
    hide Fetch; hide Settled; hide Padding; hide Advance;
    UnboundedTextIsUnending(cx, fm, acc, scope, root, c);
    var t := Fetch(root, acc, scope);
    var s := t.v.s;
    AdvanceGrows(cx, c, 4, Bytes(|s| + 1, 4), 1);
    AdvanceReaches(cx, c, 4, Bytes(|s| + 1, 4), 1);
  }

  lemma UnboundedTextIsUnending(cx: Context, fm: nat, acc: Accessor, scope: Scope, root: Target, c: Cursor)
    requires cx.mode == Max
    ensures !Ended(RunOp(cx, fm, Text(acc, 0), scope, root, c))
  {
    hide Fetch;
  }

  lemma AttainBare(cx: Context, fm: nat, fv: nat, ty: Type, acc: Accessor, inVector: bool, scope: Scope, root: Target,
                   c: Cursor)
    returns (v: Val)
    requires cx.mode == Max && Settled(cx, c) && Inhabited(ty) && (ty.Num? || ty.Str?)
    requires Ended(RunOps(cx, fm, StreamOps(cx.env, ty, acc, inVector), scope, root, c))
    ensures HasType(cx.env, fv, ty, v)
    ensures Reaches(RunOps(cx, fm, StreamOps(cx.env, ty, acc, inVector), scope, root, c), c,
                    |Enc(cx.env, cx.ma, fv, ty, v, Place(c))|)
  {
    hide RunOps; hide RunOp; hide Settled; hide EncNum; hide EncText; hide HasNum;
    var op := StreamOps(cx.env, ty, acc, inVector)[0];
    RunSingle(cx, fm, op, scope, root, c);
    match ty
    case Num(num) =>
      v := VNum(SampleNumber(num));
      AttainNum(cx, fm, op, num, scope, root, c);
    case Str(bound) =>
      AttainText(cx, fm, bound, acc, scope, root, c);
      v := Fetch(root, acc, scope).v;
  }

  lemma {:induction false} AttainVector(cx: Context, fm: nat, names: nat, elem: Type, bound: nat, acc: Accessor,
                                        depth: nat,
                                        scope: Scope, root: Target, c: Cursor) returns (kids: seq<Val>)
    requires Populated(cx, names) && Settled(cx, c) && Inhabited(elem) && bound < UINT32_LIMIT
    requires Streamable(cx.env, fm + names, elem)
    requires Ended(RunOps(cx, fm, VectorOps(cx.env, Max, elem, bound, depth, acc), scope, root, c))
    ensures HasTypeAll(cx.env, fm + names, [], elem, kids) && |kids| < UINT32_LIMIT && |kids| == bound
    ensures var len := EncNum(cx.ma, LENGTH, |kids|, Place(c));
            Reaches(RunOps(cx, fm, VectorOps(cx.env, Max, elem, bound, depth, acc), scope, root, c), c,
                    |len + EncAll(cx.env, cx.ma, fm + names, [], elem, kids, Place(c) + |len|)|)
    decreases fm, 0, elem, 0, 4, 0
  {
    hide *;
    PopulatedMax(cx, names);
    EndedVector(cx, fm, elem, bound, acc, depth, scope, root, c);
    VectorMeasured(cx, fm, elem, bound, acc, depth, scope, root, c);
    var first := Advance(cx, c, 4, Bytes(bound, 4));
    kids := AttainElements(cx, fm, names, elem, acc, depth, WithLength(scope, depth, bound), root, first.value, bound);
    LengthReaches(cx, c, bound);
    var len := EncNum(cx.ma, LENGTH, bound, Place(c));
    ReachesTrans(c, first, RunOps(cx, fm, VectorOps(cx.env, Max, elem, bound, depth, acc), scope, root, c),
                 |len|, |EncAll(cx.env, cx.ma, fm + names, [], elem, kids, Place(c) + |len|)|);
  }

  lemma PopulatedMax(cx: Context, names: nat)
    requires Populated(cx, names)
    ensures cx.mode == Max && Measuring(cx)
  {
  }

  lemma EndedVector(cx: Context, fuel: nat, elem: Type, bound: nat, acc: Accessor, depth: nat, scope: Scope,
                    root: Target, c: Cursor)
    requires cx.mode == Max && Settled(cx, c)
    requires Ended(RunOps(cx, fuel, VectorOps(cx.env, Max, elem, bound, depth, acc), scope, root, c))
    ensures bound > 0 && Advance(cx, c, 4, Bytes(bound, 4)).Some? &&
            Settled(cx, Advance(cx, c, 4, Bytes(bound, 4)).value)
    ensures Ended(RunOp(cx, fuel, ElementOps(cx.env, Max, elem, depth, acc)[0], WithLength(scope, depth, bound), root,
                        Advance(cx, c, 4, Bytes(bound, 4)).value))
    ensures Ended(Advance(cx, c, 4, Bytes(bound, 4)))
  {
    hide Settled; hide VectorOps; hide RunOps; hide Advance; hide ElementOps; hide RunOp;
    if bound == 0 {
      UnboundedMeasured(cx, fuel, elem, acc, depth, scope, root, c);
    } else {
      VectorMeasured(cx, fuel, elem, bound, acc, depth, scope, root, c);
      AdvanceGrows(cx, c, 4, Bytes(bound, 4), 1);
      var first := Advance(cx, c, 4, Bytes(bound, 4)).value;
      var op := ElementOps(cx.env, Max, elem, depth, acc)[0];
      OpGrows(cx, fuel, op, WithLength(scope, depth, bound), root, first);
      EndedEarlier(cx, first, RunOp(cx, fuel, op, WithLength(scope, depth, bound), root, first));
    }
  }

  lemma LengthReaches(cx: Context, c: Cursor, n: nat)
    requires cx.mode == Max && Settled(cx, c) && Ended(Advance(cx, c, 4, Bytes(n, 4)))
    ensures Reaches(Advance(cx, c, 4, Bytes(n, 4)), c, |EncNum(cx.ma, LENGTH, n, Place(c))|)
    ensures Place(Advance(cx, c, 4, Bytes(n, 4)).value) == Place(c) + |EncNum(cx.ma, LENGTH, n, Place(c))|
  {
    AdvanceReaches(cx, c, 4, Bytes(n, 4), 1);
  }

  lemma {:induction false} AttainElements(cx: Context, fm: nat, names: nat, elem: Type, acc: Accessor, depth: nat,
                                          scope: Scope, root: Target, c: Cursor, n: nat) returns (kids: seq<Val>)
    requires Populated(cx, names) && Settled(cx, c) && Inhabited(elem) && Streamable(cx.env, fm + names, elem)
    requires depth in scope.length && scope.length[depth] == n > 0 && n < UINT32_LIMIT
    requires Ended(RunOp(cx, fm, ElementOps(cx.env, Max, elem, depth, acc)[0], scope, root, c))
    ensures HasTypeAll(cx.env, fm + names, [], elem, kids) && |kids| == n
    ensures Reaches(RunOp(cx, fm, ElementOps(cx.env, Max, elem, depth, acc)[0], scope, root, c), c,
                    |EncAll(cx.env, cx.ma, fm + names, [], elem, kids, Place(c))|)
    decreases fm, 0, elem, 0, 3, 1
  {
    hide Populated; hide RunOps; hide EncAll; hide HasTypeAll; hide TypeOps; hide Fetch; hide RunFor; hide Padding;
    hide Settled; hide HasNum;
    PopulatedMax(cx, names);
    if Contiguous(elem) {
      var num := elem.num;
      kids := Copies(n, VNum(SampleNumber(num)));
      assert HasType(cx.env, fm + names, elem, VNum(SampleNumber(num)));
      CopiesFill(cx.env, cx.ma, fm + names, elem, n, Place(c));
      AdvanceReaches(cx, c, num.width, Zeros(num.width * n), n);
    } else {
      kids := AttainVectorLoop(cx, fm, names, elem, acc, depth, scope, root, c, 0, n);
    }
  }

  lemma {:induction false} AttainVectorLoop(cx: Context, fm: nat, names: nat, elem: Type, acc: Accessor, depth: nat,
                                            scope: Scope, root: Target, c: Cursor, j: nat, n: nat)
                                              returns (kids: seq<Val>)
    requires Populated(cx, names) && Settled(cx, c) && Inhabited(elem) && j <= n && Streamable(cx.env, fm + names, elem)
    requires Ended(RunFor(cx, fm, OverIndex(depth), TypeOps(cx.env, Max, elem, Element(acc, depth), depth + 1, true),
                          j, n, scope, root, c))
    ensures HasTypeAll(cx.env, fm + names, [], elem, kids) && |kids| == n - j
    ensures Reaches(RunFor(cx, fm, OverIndex(depth), TypeOps(cx.env, Max, elem, Element(acc, depth), depth + 1, true),
                           j, n, scope, root, c),
                    c, |EncAll(cx.env, cx.ma, fm + names, [], elem, kids, Place(c))|)
    decreases fm, 0, elem, 0, 2, n - j
  {
    hide *;
    PopulatedMax(cx, names);
    var loop := OverIndex(depth);
    var body := TypeOps(cx.env, Max, elem, Element(acc, depth), depth + 1, true);
    if j == n {
      kids := [];
      NoneReached(cx, fm, fm + names, [], elem, loop, body, j, n, scope, root, c);
    } else {
      var inner := Bind(scope, loop, j);
      RoundEnded(cx, fm, loop, body, j, n, scope, root, c);
      var first := RunOps(cx, fm, body, inner, root, c);
      var v := AttainType(cx, fm, names, elem, Element(acc, depth), depth + 1, true, inner, root, c);
      AsArray(cx.env, cx.ma, fm + names, elem, v, Place(c));
      var rest := AttainVectorLoop(cx, fm, names, elem, acc, depth, scope, root, first.value, j + 1, n);
      kids := [v] + rest;
      ConsAll(cx.env, cx.ma, fm + names, [], elem, v, rest, Place(c));
      ReachedPlace(first, c, |EncArray(cx.env, cx.ma, fm + names, [], elem, v, Place(c))|);
      ReachesTrans(c, first, RunFor(cx, fm, loop, body, j, n, scope, root, c),
                   |EncArray(cx.env, cx.ma, fm + names, [], elem, v, Place(c))|,
                   |EncAll(cx.env, cx.ma, fm + names, [], elem, rest, Place(first.value))|);
    }
  }

  lemma ReachedPlace(r: Option<Cursor>, c: Cursor, len: nat)
    requires Reaches(r, c, len)
    ensures r.Some? && Place(r.value) == Place(c) + len
  {
  }

  lemma AsArray(env: Env, ma: MaxAlign, fuel: nat, ty: Type, v: Val, pos: nat)
    ensures HasArray(env, fuel, [], ty, v) == HasType(env, fuel, ty, v)
    ensures EncArray(env, ma, fuel, [], ty, v, pos) == Enc(env, ma, fuel, ty, v, pos)
  {
  }

  lemma ConsAll(env: Env, ma: MaxAlign, fuel: nat, dims: seq<nat>, ty: Type, v: Val, rest: seq<Val>, pos: nat)
    requires HasArray(env, fuel, dims, ty, v) && HasTypeAll(env, fuel, dims, ty, rest)
    ensures HasTypeAll(env, fuel, dims, ty, [v] + rest)
    ensures var enc := EncArray(env, ma, fuel, dims, ty, v, pos);
            |EncAll(env, ma, fuel, dims, ty, [v] + rest, pos)| == |enc|
              + |EncAll(env, ma, fuel, dims, ty, rest, pos + |enc|)|
  {
    hide HasArray; hide EncArray;
    var kids := [v] + rest;
    assert kids[0] == v && kids[1..] == rest;
    forall k | 0 <= k < |kids| ensures HasArray(env, fuel, dims, ty, kids[k]) {
      if k > 0 { assert kids[k] == rest[k - 1]; }
    }
  }

  lemma NoneReached(cx: Context, fm: nat, fv: nat, dims: seq<nat>, ty: Type, loop: Loop, body: seq<Op>, j: nat, n: nat,
                    scope: Scope, root: Target, c: Cursor)
    requires j == n && Ended(RunFor(cx, fm, loop, body, j, n, scope, root, c))
    ensures HasTypeAll(cx.env, fv, dims, ty, []) && Reaches(RunFor(cx, fm, loop, body, j, n, scope, root, c), c,
                                                            |EncAll(cx.env, cx.ma, fv, dims, ty, [], Place(c))|)
  {
  }

  /** When a loop has an end, so has its next round. */
  lemma RoundEnded(cx: Context, fm: nat, loop: Loop, body: seq<Op>, j: nat, n: nat, scope: Scope, root: Target,
                   c: Cursor)
    requires cx.mode == Max && Settled(cx, c) && j < n && Ended(RunFor(cx, fm, loop, body, j, n, scope, root, c))
    ensures var first := RunOps(cx, fm, body, Bind(scope, loop, j), root, c);
            && Ended(first) && first.Some? && Settled(cx, first.value)
            && RunFor(cx, fm, loop, body, j, n, scope, root, c) ==
              RunFor(cx, fm, loop, body, j + 1, n, scope, root, first.value)
  {
    hide RunOps; hide Settled;
    ForUnfold(cx, fm, loop, body, j, n, scope, root, c);
    hide RunFor;
    var first := RunOps(cx, fm, body, Bind(scope, loop, j), root, c);
    OpsGrow(cx, fm, body, Bind(scope, loop, j), root, c);
    ForGrows(cx, fm, loop, body, j + 1, n, scope, root, first.value);
    EndedEarlier(cx, first.value, RunFor(cx, fm, loop, body, j + 1, n, scope, root, first.value));
  }

  lemma {:induction false} AttainArray(cx: Context, fm: nat, names: nat, dims: seq<nat>, ty: Type, n: nat,
                                       acc: Accessor,
                                       scope: Scope, root: Target, c: Cursor) returns (v: Val)
    requires Populated(cx, names) && Settled(cx, c) && InhabitedArray(dims, ty) && Streamable(cx.env, fm + names, ty)
    requires Ended(RunOps(cx, fm, ArrayOps(cx.env, Max, dims, ty, n, acc), scope, root, c))
    ensures HasArray(cx.env, fm + names, dims, ty, v)
    ensures Reaches(RunOps(cx, fm, ArrayOps(cx.env, Max, dims, ty, n, acc), scope, root, c), c,
                    |EncArray(cx.env, cx.ma, fm + names, dims, ty, v, Place(c))|)
    decreases fm, 0, ty, |dims|, 1, 0
  {
    hide Populated; hide RunOps; hide EncAll; hide HasTypeAll; hide TypeOps; hide Settled; hide RunFor; hide Strip;
    hide Enc; hide HasType;
    hide Reaches; hide Ended; hide Inhabited;
    PopulatedMax(cx, names);
    if dims == [] {
      v := AttainType(cx, fm, names, ty, acc, 1, false, scope, root, c);
    } else if |dims| == 1 && Strip(cx.env, ty).Num? {
      assert dims[1..] == [];
      var kids := AttainBulkArray(cx, fm, names, dims[0], ty, acc, scope, root, c);
      v := VNode(kids);
    } else {
      ArrayEnded(cx, fm, dims, ty, n, acc, scope, root, c);
      hide ArrayOps;
      var kids := AttainArrayLoop(cx, fm, names, dims[1..], ty, n, Eval(acc, scope).value, scope, root, c, 0, dims[0]);
      v := VNode(kids);
    }
  }

  lemma ArrayEnded(cx: Context, fm: nat, dims: seq<nat>, ty: Type, n: nat, acc: Accessor, scope: Scope, root: Target,
                   c: Cursor)
    requires dims != [] && !(|dims| == 1 && Strip(cx.env, ty).Num?)
    requires Ended(RunOps(cx, fm, ArrayOps(cx.env, Max, dims, ty, n, acc), scope, root, c))
    ensures Eval(acc, scope).Some?
    ensures RunOps(cx, fm, ArrayOps(cx.env, Max, dims, ty, n, acc), scope, root, c) ==
            RunFor(cx, fm, OverArray(n + 1, Eval(acc, scope).value),
                   ArrayOps(cx.env, Max, dims[1..], ty, n + 1, ArrayVar(n + 1)), 0, dims[0], scope, root, c)
  {
    hide RunOps; hide RunFor; hide ArrayOps;
    ArrayMeasured(cx, fm, dims, ty, n, acc, scope, root, c);
  }

  lemma AttainBulkArray(cx: Context, fm: nat, names: nat, dim: nat, ty: Type, acc: Accessor, scope: Scope,
                        root: Target, c: Cursor)
    returns (kids: seq<Val>)
    requires Populated(cx, names) && Settled(cx, c) && dim > 0 && Inhabited(ty) && Strip(cx.env, ty).Num?
    requires Ended(RunOps(cx, fm, [BulkArray(acc, Strip(cx.env, ty).num, dim)], scope, root, c))
    ensures HasTypeAll(cx.env, fm + names, [], ty, kids) && |kids| == dim
    ensures Reaches(RunOps(cx, fm, [BulkArray(acc, Strip(cx.env, ty).num, dim)], scope, root, c), c,
                    |EncAll(cx.env, cx.ma, fm + names, [], ty, kids, Place(c))|)
  {
    hide *;
    PopulatedMax(cx, names);
    var num := Strip(cx.env, ty).num;
    StripStaysInhabited(cx, names, ty);
    InhabitedNum(num, Strip(cx.env, ty));
    if ty.Named? { StripNamed(cx, names, ty); }
    StripInhabited(cx.env, cx.ma, fm + names, ty, names);
    CopiesFill(cx.env, cx.ma, fm + names, ty, dim, Place(c));
    BulkArrayReaches(cx, fm, num, acc, dim, scope, root, c);
    kids := Copies(dim, VNum(SampleNumber(num)));
  }

  lemma InhabitedNum(num: NumType, ty: Type)
    requires ty == Num(num) && Inhabited(ty)
    ensures HasNum(num, SampleNumber(num))
  {
  }

  lemma BulkArrayReaches(cx: Context, fm: nat, num: NumType, acc: Accessor, dim: nat, scope: Scope, root: Target,
                         c: Cursor)
    requires cx.mode == Max && Settled(cx, c) && Ended(RunOps(cx, fm, [BulkArray(acc, num, dim)], scope, root, c))
    ensures Reaches(RunOps(cx, fm, [BulkArray(acc, num, dim)], scope, root, c), c,
                    Padding(Place(c), num.width, cx.ma) + num.width * dim)
  {
    var w := num.width;
    RunSingle(cx, fm, BulkArray(acc, num, dim), scope, root, c);
    hide RunOps; hide Advance; hide Settled; hide Fetch; hide Padding;
    var t := Fetch(root, acc, scope);
    if t.Live? && t.v.VNode? && AllNums(t.v.kids) && |t.v.kids| == dim {
      AdvanceReaches(cx, c, w, BulkBytes(t.v.kids, w), dim);
    } else {
      AdvanceReaches(cx, c, w, Zeros(w * dim), dim);
    }
  }

  lemma StripNamed(cx: Context, names: nat, ty: Type)
    requires Populated(cx, names) && Strip(cx.env, ty).Num? && ty.Named?
    ensures ty.name < names
  {
    hide Measuring;
    assert ty.name in cx.env;
  }

  lemma {:induction false} AttainArrayLoop(cx: Context, fm: nat, names: nat, dims: seq<nat>, ty: Type, n: nat,
                                           path: Path,
                                           scope: Scope, root: Target, c: Cursor, j: nat, dim: nat)
                                             returns (kids: seq<Val>)
    requires Populated(cx, names) && Settled(cx, c) && InhabitedArray(dims, ty) && j <= dim
    requires Streamable(cx.env, fm + names, ty)
    requires Ended(RunFor(cx, fm, OverArray(n + 1, path), ArrayOps(cx.env, Max, dims, ty, n + 1, ArrayVar(n + 1)), j,
                          dim, scope, root, c))
    ensures HasTypeAll(cx.env, fm + names, dims, ty, kids) && |kids| == dim - j
    ensures Reaches(RunFor(cx, fm, OverArray(n + 1, path), ArrayOps(cx.env, Max, dims, ty, n + 1, ArrayVar(n + 1)), j,
                           dim, scope, root, c),
                    c, |EncAll(cx.env, cx.ma, fm + names, dims, ty, kids, Place(c))|)
    decreases fm, 0, ty, |dims|, 2, dim - j
  {
    hide *;
    PopulatedMax(cx, names);
    var loop := OverArray(n + 1, path);
    var body := ArrayOps(cx.env, Max, dims, ty, n + 1, ArrayVar(n + 1));
    if j == dim {
      kids := [];
      NoneReached(cx, fm, fm + names, dims, ty, loop, body, j, dim, scope, root, c);
    } else {
      var inner := Bind(scope, loop, j);
      RoundEnded(cx, fm, loop, body, j, dim, scope, root, c);
      var first := RunOps(cx, fm, body, inner, root, c);
      var v := AttainArray(cx, fm, names, dims, ty, n + 1, ArrayVar(n + 1), inner, root, c);
      var rest := AttainArrayLoop(cx, fm, names, dims, ty, n, path, scope, root, first.value, j + 1, dim);
      kids := [v] + rest;
      ConsAll(cx.env, cx.ma, fm + names, dims, ty, v, rest, Place(c));
      ReachedPlace(first, c, |EncArray(cx.env, cx.ma, fm + names, dims, ty, v, Place(c))|);
      ReachesTrans(c, first, RunFor(cx, fm, loop, body, j, dim, scope, root, c),
                   |EncArray(cx.env, cx.ma, fm + names, dims, ty, v, Place(c))|,
                   |EncAll(cx.env, cx.ma, fm + names, dims, ty, rest, Place(first.value))|);
    }
  }

  lemma {:induction false} AttainEntity(cx: Context, fm: nat, names: nat, dims: seq<nat>, ty: Type, acc: Accessor,
                                        root: Target, c: Cursor)
    returns (v: Val)
    requires Populated(cx, names) && Settled(cx, c) && InhabitedArray(dims, ty) && Streamable(cx.env, fm + names, ty)
    requires Ended(RunOps(cx, fm, EntityOps(cx.env, Max, dims, ty, acc), EMPTY_SCOPE, root, c))
    ensures HasArray(cx.env, fm + names, dims, ty, v)
    ensures Reaches(RunOps(cx, fm, EntityOps(cx.env, Max, dims, ty, acc), EMPTY_SCOPE, root, c), c,
                    |EncArray(cx.env, cx.ma, fm + names, dims, ty, v, Place(c))|)
    decreases fm, 0, ty, |dims|, 3, 0
  {
    hide Populated; hide RunOps; hide EncArray; hide HasArray; hide TypeOps; hide Settled; hide Ended; hide Reaches;
    hide InhabitedArray;
    if dims != [] {
      var op := EntityOps(cx.env, Max, dims, ty, acc)[0];
      RunSingle(cx, fm, op, EMPTY_SCOPE, root, c);
      ConsecutiveUnfold(cx, fm, true, op.primitive, op.body, EMPTY_SCOPE, root, c);
    }
    v := AttainArray(cx, fm, names, dims, ty, 0, acc, EMPTY_SCOPE, root, c);
  }

  lemma {:induction false} AttainDefinition(cx: Context, fm: nat, names: nat, def: Def, root: Target, c: Cursor)
    returns (v: Val)
    requires Populated(cx, names) && Settled(cx, c) && WellFormedDef(def) && InhabitedDef(def)
    requires Ended(RunProg(cx, fm, ProgOf(cx.env, Max, def), root, c)) && StreamableDef(cx.env, fm + names, def)
    ensures HasDef(cx.env, fm + names, def, v)
    ensures Reaches(RunProg(cx, fm, ProgOf(cx.env, Max, def), root, c), c,
                    |EncDef(cx.env, cx.ma, fm + names, def, v, Place(c))|)
    decreases fm, 2
  {
    hide Populated; hide Settled; hide Ended; hide Reaches; hide RunOps; hide EncArray; hide HasArray;
    hide EntityOps; hide InhabitedArray; hide Streamable;
    match def
    case Struct(_, _) =>
      var fs := Fields(def);
      hide RunEntities; hide EncFields; hide Entries;
      assert Ids(fs)[0..] == Ids(fs) && fs[0..] == fs;
      var kids := AttainFields(cx, fm, names, fs, root, c, 0);
      v := VNode(kids);
    case Typedef(ty, dims, _) => v := AttainEntity(cx, fm, names, dims, ty, Instance, root, c);
    case Union(_, _, _, _) => v := AttainUnion(cx, fm, names, def, root, c);
  }

  lemma {:induction false} AttainFields(cx: Context, fm: nat, names: nat, fs: seq<Field>, root: Target, c: Cursor,
                                        k: nat)
    returns (kids: seq<Val>)
    requires Populated(cx, names) && Settled(cx, c) && k <= |fs| && DistinctIds(fs)
    requires forall i :: 0 <= i < |fs| ==>
               InhabitedArray(fs[i].decl.dims, fs[i].ty) && Streamable(cx.env, fm + names, fs[i].ty)
    requires Ended(RunEntities(cx, fm, Ids(fs)[k..], Entries(cx.env, Max, fs), root, c))
    ensures HasFields(cx.env, fm + names, fs[k..], kids)
    ensures Reaches(RunEntities(cx, fm, Ids(fs)[k..], Entries(cx.env, Max, fs), root, c), c,
                    |EncFields(cx.env, cx.ma, fm + names, fs[k..], kids, Place(c))|)
    decreases fm, 1, |fs| - k
  {
    hide *;
    PopulatedMax(cx, names);
    if k == |fs| {
      kids := [];
      NoFieldsReached(cx, fm, fm + names, fs, root, c);
    } else {
      var f := fs[k];
      var acc := Programs.Accessor.Member(f.decl.slot);
      FieldEnded(cx, fm, fs, k, root, c);
      var first := RunOps(cx, fm, EntityOps(cx.env, Max, f.decl.dims, f.ty, acc), EMPTY_SCOPE, root, c);
      var v := AttainEntity(cx, fm, names, f.decl.dims, f.ty, acc, root, c);
      var enc := EncArray(cx.env, cx.ma, fm + names, f.decl.dims, f.ty, v, Place(c));
      var rest := AttainFields(cx, fm, names, fs, root, first.value, k + 1);
      kids := [v] + rest;
      ConsFields(cx.env, cx.ma, fm + names, fs, k, v, rest, Place(c));
      ReachedPlace(first, c, |enc|);
      ReachesTrans(c, first, RunEntities(cx, fm, Ids(fs)[k..], Entries(cx.env, Max, fs), root, c), |enc|,
                   |EncFields(cx.env, cx.ma, fm + names, fs[k + 1..], rest, Place(first.value))|);
    }
  }

  lemma NoFieldsReached(cx: Context, fm: nat, fv: nat, fs: seq<Field>, root: Target, c: Cursor)
    requires Ended(RunEntities(cx, fm, Ids(fs)[|fs|..], Entries(cx.env, Max, fs), root, c))
    ensures HasFields(cx.env, fv, fs[|fs|..], [])
    ensures Reaches(RunEntities(cx, fm, Ids(fs)[|fs|..], Entries(cx.env, Max, fs), root, c), c,
                    |EncFields(cx.env, cx.ma, fv, fs[|fs|..], [], Place(c))|)
  {
    hide RunOps; hide EncArray;
    assert Ids(fs)[|fs|..] == [] && fs[|fs|..] == [];
  }

  lemma ConsFields(env: Env, ma: MaxAlign, fuel: nat, fs: seq<Field>, k: nat, v: Val, rest: seq<Val>, pos: nat)
    requires k < |fs| && HasArray(env, fuel, fs[k].decl.dims, fs[k].ty, v) && HasFields(env, fuel, fs[k + 1..], rest)
    ensures HasFields(env, fuel, fs[k..], [v] + rest)
    ensures var enc := EncArray(env, ma, fuel, fs[k].decl.dims, fs[k].ty, v, pos);
            |EncFields(env, ma, fuel, fs[k..], [v] + rest, pos)| == |enc|
              + |EncFields(env, ma, fuel, fs[k + 1..], rest, pos + |enc|)|
  {
    hide HasArray; hide EncArray;
    var kids := [v] + rest;
    assert kids[0] == v && kids[1..] == rest && fs[k..][0] == fs[k] && fs[k..][1..] == fs[k + 1..];
    forall i | 0 <= i < |kids| ensures HasArray(env, fuel, fs[k..][i].decl.dims, fs[k..][i].ty, kids[i]) {
      if i > 0 { assert kids[i] == rest[i - 1] && fs[k..][i] == fs[k + 1..][i - 1]; }
    }
  }

  lemma FieldEnded(cx: Context, fm: nat, fs: seq<Field>, k: nat, root: Target, c: Cursor)
    requires cx.mode == Max && Settled(cx, c) && k < |fs| && DistinctIds(fs)
    requires Ended(RunEntities(cx, fm, Ids(fs)[k..], Entries(cx.env, Max, fs), root, c))
    ensures var first := RunOps(cx, fm, EntityOps(cx.env, Max, fs[k].decl.dims, fs[k].ty,
                                                  Programs.Accessor.Member(fs[k].decl.slot)),
                                EMPTY_SCOPE, root, c);
            && Ended(first) && first.Some? && Settled(cx, first.value)
            && RunEntities(cx, fm, Ids(fs)[k..], Entries(cx.env, Max, fs), root, c) ==
               RunEntities(cx, fm, Ids(fs)[k + 1..], Entries(cx.env, Max, fs), root, first.value)
  {
    hide RunOps; hide Settled; hide EntityOps; hide RunEntities; hide Entries;
    EntitiesMeasured(cx, fm, fs, k, root, c);
    var first := RunOps(cx, fm, EntryOf(cx.env, Max, fs[k]).body, EMPTY_SCOPE, root, c);
    OpsGrow(cx, fm, EntryOf(cx.env, Max, fs[k]).body, EMPTY_SCOPE, root, c);
    EntitiesGrow(cx, fm, Ids(fs)[k + 1..], Entries(cx.env, Max, fs), root, first.value);
    EndedEarlier(cx, first.value, RunEntities(cx, fm, Ids(fs)[k + 1..], Entries(cx.env, Max, fs), root, first.value));
  }

  predicate BranchEndsAt(cx: Context, fuel: nat, branches: seq<Branching>, shape: Shape, d: nat, payload: Option<Val>,
                         start: Cursor, k: nat, pos: Position) {
    k < |branches| &&
    var end := RunOps(cx, fuel, branches[k].body, EMPTY_SCOPE,
                      BranchRef(cx, fuel, branches[k].dims, branches[k].ty, shape, d, payload, k), start);
    end.Some? && end.value.pos == pos
  }

  /** Some branch ends where the maximum of the union is. */
  lemma {:induction false} BestBranch(cx: Context, fuel: nat, branches: seq<Branching>, i: nat, shape: Shape, d: nat,
                                      payload: Option<Val>, start: Cursor, best: Cursor, sofar: nat) returns (k: nat)
    requires cx.mode == Max && Settled(cx, start) && Settled(cx, best) && NotAfter(start.pos, best.pos)
    requires RunBranches(cx, fuel, branches, i, shape, d, payload, start, best).Some?
    requires if i == 0 then best == start && branches != []
             else BranchEndsAt(cx, fuel, branches, shape, d, payload, start, sofar, best.pos)
    ensures BranchEndsAt(cx, fuel, branches, shape, d, payload, start, k,
                         RunBranches(cx, fuel, branches, i, shape, d, payload, start, best).value.pos)
    decreases if i < |branches| then |branches| - i else 0
  {
    hide RunOps; hide Settled; hide BranchRef;
    if i >= |branches| {
      k := sofar;
    } else {
      var end := RunOps(cx, fuel, branches[i].body, EMPTY_SCOPE,
                        BranchRef(cx, fuel, branches[i].dims, branches[i].ty, shape, d, payload, i), start);
      OpsGrow(cx, fuel, branches[i].body, EMPTY_SCOPE,
              BranchRef(cx, fuel, branches[i].dims, branches[i].ty, shape, d, payload, i), start);
      if Before(best.pos, end.value.pos) || i == 0 {
        var next := if Before(best.pos, end.value.pos) then end.value else best;
        assert next.pos == end.value.pos;
        k := BestBranch(cx, fuel, branches, i + 1, shape, d, payload, start, next, i);
      } else {
        k := BestBranch(cx, fuel, branches, i + 1, shape, d, payload, start, best, sofar);
      }
    }
  }

  lemma {:induction false} AttainUnion(cx: Context, fm: nat, names: nat, def: Def, root: Target, c: Cursor)
    returns (v: Val)
    requires Populated(cx, names) && Settled(cx, c) && WellFormedDef(def) && InhabitedDef(def) && def.Union?
    requires Ended(RunProg(cx, fm, ProgOf(cx.env, Max, def), root, c)) && StreamableDef(cx.env, fm + names, def)
    ensures HasDef(cx.env, fm + names, def, v)
    ensures Reaches(RunProg(cx, fm, ProgOf(cx.env, Max, def), root, c), c,
                    |EncDef(cx.env, cx.ma, fm + names, def, v, Place(c))|)
    decreases fm, 1, 0
  {
    hide *;
    PopulatedMax(cx, names);
    var whole := RunProg(cx, fm, ProgOf(cx.env, Max, def), root, c);
    UnionEnded(cx, fm, def, root, c);
    var start := Advance(cx, c, def.disc.width, Bytes(root.v.d, def.disc.width));
    if def.cases == [] {
      v := VUnion(def.dflt, None);
      NoCaseReached(cx, fm, fm + names, def, root, c);
    } else {
      var k := BranchAttained(cx, fm, def, root, c);
      var b := def.cases[k];
      var t := BranchRef(cx, fm, b.dims, b.ty, ShapeOf(def), root.v.d, root.v.payload, k);
      CaseInhabited(def, k);
      CaseStreamable(cx.env, fm + names, def, k);
      CaseLabelled(def, k);
      var x := AttainEntity(cx, fm, names, b.dims, b.ty, Branch(k), t, start.value);
      var d := b.labels[0].value;
      v := VUnion(d, Some(x));
      UnionBuilt(cx.env, cx.ma, fm + names, def, k, x, Place(c));
      var len := |EncNum(cx.ma, def.disc, d, Place(c))|;
      StartReached(cx, def, root.v.d, d, c);
      EndReached(RunOps(cx, fm, EntityOps(cx.env, Max, b.dims, b.ty, Branch(k)), EMPTY_SCOPE, t, start.value), whole,
                 start.value,
                 |EncArray(cx.env, cx.ma, fm + names, b.dims, b.ty, x, Place(start.value))|);
      ReachesTrans(c, start, whole, len, |EncArray(cx.env, cx.ma, fm + names, b.dims, b.ty, x, Place(c) + len)|);
    }
  }

  lemma EndReached(end: Option<Cursor>, whole: Option<Cursor>, c: Cursor, len: nat)
    requires Reaches(end, c, len) && Ended(whole) && whole.value.pos == end.value.pos
    ensures Reaches(whole, c, len)
  {
  }

  lemma StartReached(cx: Context, def: Def, d0: nat, d: nat, c: Cursor)
    requires cx.mode == Max && Settled(cx, c) && def.Union? &&
             Ended(Advance(cx, c, def.disc.width, Bytes(d0, def.disc.width)))
    ensures var start := Advance(cx, c, def.disc.width, Bytes(d0, def.disc.width));
            && Reaches(start, c, |EncNum(cx.ma, def.disc, d, Place(c))|)
            && Place(start.value) == Place(c) + |EncNum(cx.ma, def.disc, d, Place(c))|
  {
    AdvanceReaches(cx, c, def.disc.width, Bytes(d0, def.disc.width), 1);
  }

  lemma CaseInhabited(def: Def, k: nat)
    requires def.Union? && InhabitedDef(def) && k < |def.cases|
    ensures InhabitedArray(def.cases[k].dims, def.cases[k].ty)
  {
  }

  lemma CaseLabelled(def: Def, k: nat)
    requires def.Union? && WellFormedDef(def) && k < |def.cases|
    ensures |def.cases[k].labels| > 0
  {
    assert ShapeOf(def).arms[k] == def.cases[k].labels;
  }

  lemma UnionBuilt(env: Env, ma: MaxAlign, fuel: nat, def: Def, k: nat, x: Val, pos: nat)
    requires def.Union? && WellFormedDef(def) && k < |def.cases| &&
             HasArray(env, fuel, def.cases[k].dims, def.cases[k].ty, x)
    ensures |def.cases[k].labels| > 0
    ensures var v := VUnion(def.cases[k].labels[0].value, Some(x));
            var d := EncNum(ma, def.disc, v.d, pos);
            && HasDef(env, fuel, def, v)
            && |EncDef(env, ma, fuel, def, v, pos)| == |d|
              + |EncArray(env, ma, fuel, def.cases[k].dims, def.cases[k].ty, x, pos + |d|)|
  {
    hide HasArray; hide EncArray; hide EncNum; hide HasNum;
    assert ShapeOf(def).arms[k] == def.cases[k].labels;
    LabelSelectsArm(ShapeOf(def), k, 0);
  }

  lemma UnionEnded(cx: Context, fm: nat, def: Def, root: Target, c: Cursor)
    requires cx.mode == Max && Settled(cx, c) && def.Union? && Ended(RunProg(cx, fm, ProgOf(cx.env, Max, def), root, c))
    ensures root.Live? && root.v.VUnion?
    ensures var start := Advance(cx, c, def.disc.width, Bytes(root.v.d, def.disc.width));
            && Ended(start) && Settled(cx, start.value)
            && RunProg(cx, fm, ProgOf(cx.env, Max, def), root, c) ==
               RunBranches(cx, fm, Branchings(cx.env, Max, def.cases), 0, ShapeOf(def), root.v.d, root.v.payload,
                           start.value, start.value)
  {
    UnionMeasured(cx, fm, def, root, c, Place(c), root.v.d);
  }

  lemma BranchAttained(cx: Context, fm: nat, def: Def, root: Target, c: Cursor) returns (k: nat)
    requires cx.mode == Max && Settled(cx, c) && def.Union? && def.cases != []
    requires Ended(RunProg(cx, fm, ProgOf(cx.env, Max, def), root, c))
    ensures k < |def.cases| && root.Live? && root.v.VUnion?
    ensures var start := Advance(cx, c, def.disc.width, Bytes(root.v.d, def.disc.width));
            start.Some? &&
            var end := RunOps(cx, fm, EntityOps(cx.env, Max, def.cases[k].dims, def.cases[k].ty, Branch(k)),
                              EMPTY_SCOPE,
                              BranchRef(cx, fm, def.cases[k].dims, def.cases[k].ty, ShapeOf(def), root.v.d,
                                        root.v.payload, k), start.value);
            Ended(end) && end.value.pos == RunProg(cx, fm, ProgOf(cx.env, Max, def), root, c).value.pos
  {
    UnionEnded(cx, fm, def, root, c);
    hide RunProg; hide ProgOf; hide RunBranches; hide Advance; hide RunOps; hide EntityOps; hide Settled;
    hide BranchRef;
    var start := Advance(cx, c, def.disc.width, Bytes(root.v.d, def.disc.width)).value;
    var bs := Branchings(cx.env, Max, def.cases);
    k := BestBranch(cx, fm, bs, 0, ShapeOf(def), root.v.d, root.v.payload, start, start, 0);
    assert bs[k] == BranchingOf(cx.env, Max, def.cases[k], k);
  }

  lemma NoCaseReached(cx: Context, fm: nat, fv: nat, def: Def, root: Target, c: Cursor)
    requires cx.mode == Max && Settled(cx, c) && def.Union? && def.cases == [] && WellFormedDef(def)
    requires Ended(RunProg(cx, fm, ProgOf(cx.env, Max, def), root, c))
    ensures HasDef(cx.env, fv, def, VUnion(def.dflt, None))
    ensures Reaches(RunProg(cx, fm, ProgOf(cx.env, Max, def), root, c), c,
                    |EncDef(cx.env, cx.ma, fv, def, VUnion(def.dflt, None), Place(c))|)
  {
    UnionEnded(cx, fm, def, root, c);
    StartReached(cx, def, root.v.d, def.dflt, c);
    DefaultDiscriminator(ShapeOf(def));
  }

  /**
    The bound the max program finds is the least one: unless it is infinite, moving over some
    value of the type from the same position ends exactly there.
   */
  lemma MaxIsReached(env: Env, ma: MaxAlign, capacity: nat, fm: nat, names: nat, def: Def, x: Val, q: nat, ql: nat,
                     checked: bool) returns (v: Val)
    requires WellFormedEnv(env) && WellFormedDef(def) && InhabitedDef(def) && Aligned(q, ql, ma)
    requires StreamableDef(env, fm + names, def)
    requires forall n {:trigger env[n]} :: n in env ==> n < names && InhabitedDef(env[n])
    requires Ended(RunProg(Context(Max, env, Linked(env, Max), ma, capacity, checked), fm, ProgOf(env, Max, def),
                           Live(x), Cursor(At(q), ql, [])))
    ensures HasDef(env, fm + names, def, v)
    ensures var bound := RunProg(Context(Max, env, Linked(env, Max), ma, capacity, checked), fm, ProgOf(env, Max, def),
                                 Live(x), Cursor(At(q), ql, []));
            var moved := RunProg(Context(Move, env, Linked(env, Move), ma, capacity), fm + names,
                                 ProgOf(env, Move, def), Live(v), Cursor(At(q), ql, []));
            moved.Some? && moved.value.pos == bound.value.pos
  {
    hide RunProg; hide ProgOf; hide Linked; hide HasDef; hide EncDef; hide WellFormedDef; hide InhabitedDef;
    hide StreamableDef;
    var cx := Context(Max, env, Linked(env, Max), ma, capacity, checked);
    var c := Cursor(At(q), ql, []);
    v := AttainDefinition(cx, fm, names, def, Live(x), c);
    RunDefinition(Context(Move, env, Linked(env, Move), ma, capacity), fm + names, def, v, c);
  }
}
