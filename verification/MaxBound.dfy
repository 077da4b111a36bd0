/**
  The max program against the move program: what it bounds, that the bound is the best one,
  and where it fails to be one.
 */
module MaxBound {
  import opened Wrappers
  import opened Wire
  import opened Unions
  import opened Idl
  import opened Encoding
  import opened Programs
  import opened Emitter
  import opened Objects
  import opened Machine
  import opened WriteMove
  import opened Targets

  predicate Settled(cx: Context, c: Cursor) {
    c.pos.At? ==> Aligned(c.pos.n, c.al, cx.ma)
  }

  predicate Within(p: nat, q: Position) {
    q.Infinite? || p <= q.n
  }

  predicate NotAfter(p: Position, q: Position) {
    !Before(q, p)
  }

  /** Measuring ends with a settled cursor that has not gone back. */
  predicate Grown(cx: Context, c: Cursor, r: Option<Cursor>) {
    r.Some? ==> Settled(cx, r.value) && NotAfter(c.pos, r.value.pos)
  }

  lemma GrownTrans(cx: Context, c: Cursor, first: Option<Cursor>, whole: Option<Cursor>)
    requires Grown(cx, c, first)
    requires first.None? ==> whole.None?
    requires first.Some? ==> Grown(cx, first.value, whole)
    ensures Grown(cx, c, whole)
  {
  }

  /** A longer run of values from a later start does not end earlier. */
  lemma AdvanceMax(cx: Context, c: Cursor, w: Width, data: seq<byte>, count: nat, p: nat, len: nat)
    requires cx.mode == Max && Settled(cx, c) && |data| == w * count && len <= |data| && Within(p, c.pos)
    ensures var r := Advance(cx, c, w, data);
            r.Some? && Grown(cx, c, r) && Within(p + Padding(p, w, cx.ma) + len, r.value.pos)
    ensures c.pos.At? ==> Advance(cx, c, w, data).value.pos == At(c.pos.n + Padding(c.pos.n, w, cx.ma) + |data|)
  {
    if c.pos.At? {
      var q := c.pos.n;
      AlignStepRoundsUp(q, c.al, w, cx.ma);
      PaddingRoundsUp(q, w, cx.ma);
      PaddingMonotone(p, q, w, cx.ma);
      AlignedAdvance(q + Padding(q, w, cx.ma), w, count, cx.ma);
    }
  }

  lemma AdvanceGrows(cx: Context, c: Cursor, w: Width, data: seq<byte>, count: nat)
    requires cx.mode == Max && Settled(cx, c) && |data| == w * count
    ensures Grown(cx, c, Advance(cx, c, w, data))
  {
    AdvanceMax(cx, c, w, data, count, if c.pos.At? then c.pos.n else 0, 0);
  }

  lemma AdvanceTextGrows(cx: Context, c: Cursor, bound: nat, s: seq<byte>)
    requires cx.mode == Max && Settled(cx, c)
    ensures Grown(cx, c, AdvanceText(cx, c, bound, s))
  {
    AdvanceGrows(cx, c, 4, Bytes(|s| + 1, 4), 1);
  }

  // ----- measuring never goes back -----

  lemma {:induction false} OpsGrow(cx: Context, fuel: nat, ops: seq<Op>, scope: Scope, root: Target, c: Cursor)
    requires cx.mode == Max && Settled(cx, c)
    ensures Grown(cx, c, RunOps(cx, fuel, ops, scope, root, c))
    decreases fuel, ops, 0
  {
    hide RunOp; hide Settled; hide NotAfter;
    if ops == [] {
      NoGrowth(cx, c);
    } else {
      OpGrows(cx, fuel, ops[0], scope, root, c);
      var first := RunOp(cx, fuel, ops[0], scope, root, c);
      if first.Some? {
        OpsGrow(cx, fuel, ops[1..], scope, root, first.value);
        GrownTrans(cx, c, first, RunOps(cx, fuel, ops, scope, root, c));
      }
    }
  }

  lemma NoGrowth(cx: Context, c: Cursor)
    requires Settled(cx, c)
    ensures Grown(cx, c, Some(c))
  {
  }

  lemma {:induction false} OpGrows(cx: Context, fuel: nat, op: Op, scope: Scope, root: Target, c: Cursor)
    requires cx.mode == Max && Settled(cx, c)
    ensures Grown(cx, c, RunOp(cx, fuel, op, scope, root, c))
    decreases fuel, op, 0
  {
    hide RunOps; hide RunFor; hide RunProg; hide Advance; hide AdvanceText; hide Settled; hide NotAfter; hide Fetch;
    match op
    case Prim(acc, num) =>
      AdvanceGrows(cx, c, num.width, Zeros(num.width), 1);
      if Fetch(root, acc, scope).Live? && Fetch(root, acc, scope).v.VNum? {
        AdvanceGrows(cx, c, num.width, Bytes(Fetch(root, acc, scope).v.n, num.width), 1);
      }
    case BoolElement(acc, num) =>
      if Fetch(root, acc, scope).Live? && Fetch(root, acc, scope).v.VNum? {
        AdvanceGrows(cx, c, num.width, Bytes(Fetch(root, acc, scope).v.n, num.width), 1);
      }
    case Text(acc, bound) =>
      ToInfinity(cx, c);
      if Fetch(root, acc, scope).Live? && Fetch(root, acc, scope).v.VText? {
        AdvanceTextGrows(cx, c, bound, Fetch(root, acc, scope).v.s);
      }
    case BulkArray(acc, num, dim) =>
      AdvanceGrows(cx, c, num.width, Zeros(num.width * dim), dim);
      if Fetch(root, acc, scope).Live? && Fetch(root, acc, scope).v.VNode? && AllNums(Fetch(root, acc, scope).v.kids) {
        AdvanceGrows(cx, c, num.width, BulkBytes(Fetch(root, acc, scope).v.kids, num.width),
                     |Fetch(root, acc, scope).v.kids|);
      }
    case BulkVector(acc, depth, num) =>
      NoGrowth(cx, c);
      if Fetch(root, acc, scope).Live? && Fetch(root, acc, scope).v.VNode? && AllNums(Fetch(root, acc, scope).v.kids) {
        AdvanceGrows(cx, c, num.width, BulkBytes(Fetch(root, acc, scope).v.kids, num.width),
                     |Fetch(root, acc, scope).v.kids|);
      }
    case BulkDefault(depth, num) =>
      NoGrowth(cx, c);
      if depth in scope.length {
        AdvanceGrows(cx, c, num.width, Zeros(num.width * scope.length[depth]), scope.length[depth]);
      }
    case Counted(depth, len, _, _, _, body) =>
      var n := LengthOf(len, scope, root);
      if n.Some? {
        var first := Advance(cx, c, 4, Bytes(n.value, 4));
        AdvanceGrows(cx, c, 4, Bytes(n.value, 4), 1);
        if first.Some? {
          OpsGrow(cx, fuel, body, WithLength(scope, depth, n.value), root, first.value);
          GrownTrans(cx, c, first, RunOps(cx, fuel, body, WithLength(scope, depth, n.value), root, first.value));
        }
      }
    case ForVector(depth, body) =>
      if depth in scope.length {
        ForGrows(cx, fuel, OverIndex(depth), body, 0, scope.length[depth], scope, root, c);
      }
    case ForArray(depth, acc, dim, body) =>
      if Eval(acc, scope).Some? {
        ForGrows(cx, fuel, OverArray(depth, Eval(acc, scope).value), body, 0, dim, scope, root, c);
      }
    case Consecutive(_, _, body) => OpsGrow(cx, fuel, body, scope, root, c);
    case Call(name, acc) =>
      if fuel > 0 && name in cx.code {
        ProgGrows(cx, fuel - 1, cx.code[name], Fetch(root, acc, scope), c);
      }
    case Unbounded => ToInfinity(cx, c);
  }

  lemma ToInfinity(cx: Context, c: Cursor)
    ensures Grown(cx, c, Some(c.(pos := Infinite)))
  {
  }

  lemma {:induction false} ForGrows(cx: Context, fuel: nat, loop: Loop, body: seq<Op>, j: nat, n: nat, scope: Scope,
                                    root: Target, c: Cursor)
    requires cx.mode == Max && Settled(cx, c)
    ensures Grown(cx, c, RunFor(cx, fuel, loop, body, j, n, scope, root, c))
    decreases fuel, body, if j < n then n - j + 1 else 1
  {
    hide RunOps; hide Settled; hide NotAfter;
    if j >= n {
      NoGrowth(cx, c);
    } else {
      var first := RunOps(cx, fuel, body, Bind(scope, loop, j), root, c);
      OpsGrow(cx, fuel, body, Bind(scope, loop, j), root, c);
      if first.Some? {
        ForGrows(cx, fuel, loop, body, j + 1, n, scope, root, first.value);
        GrownTrans(cx, c, first, RunFor(cx, fuel, loop, body, j, n, scope, root, c));
      }
    }
  }

  lemma {:induction false} ProgGrows(cx: Context, fuel: nat, p: Prog, root: Target, c: Cursor)
    requires cx.mode == Max && Settled(cx, c)
    ensures Grown(cx, c, RunProg(cx, fuel, p, root, c))
    decreases fuel, p, 0
  {
    hide RunOps; hide RunEntities; hide RunBranches; hide Settled; hide NotAfter; hide Advance;
    match p
    case StructProg(properties, entries) => EntitiesGrow(cx, fuel, properties, entries, root, c);
    case TypedefProg(body) => OpsGrow(cx, fuel, body, EMPTY_SCOPE, root, c);
    case UnionProg(disc, shape, branches) =>
      if root.Live? && root.v.VUnion? {
        var first := Advance(cx, c, disc.width, Bytes(root.v.d, disc.width));
        AdvanceGrows(cx, c, disc.width, Bytes(root.v.d, disc.width), 1);
        if first.Some? {
          NoGrowth(cx, first.value);
          BranchesGrow(cx, fuel, branches, 0, shape, root.v.d, root.v.payload, first.value, first.value);
          GrownTrans(cx, c, first, RunProg(cx, fuel, p, root, c));
        }
      }
  }

  lemma {:induction false} EntitiesGrow(cx: Context, fuel: nat, properties: seq<nat>, entries: seq<Entry>,
                                        root: Target, c: Cursor)
    requires cx.mode == Max && Settled(cx, c)
    ensures Grown(cx, c, RunEntities(cx, fuel, properties, entries, root, c))
    decreases fuel, entries, |properties|
  {
    hide RunOps; hide Settled; hide NotAfter;
    if properties == [] {
      NoGrowth(cx, c);
    } else {
      match EntryFor(entries, properties[0])
      case None => EntitiesGrow(cx, fuel, properties[1..], entries, root, c);
      case Some(k) =>
        var first := RunOps(cx, fuel, entries[k].body, EMPTY_SCOPE, root, c);
        OpsGrow(cx, fuel, entries[k].body, EMPTY_SCOPE, root, c);
        if first.Some? {
          EntitiesGrow(cx, fuel, properties[1..], entries, root, first.value);
          GrownTrans(cx, c, first, RunEntities(cx, fuel, properties, entries, root, c));
        }
    }
  }

  /** The furthest end of any branch is kept. */
  lemma {:induction false} BranchesGrow(cx: Context, fuel: nat, branches: seq<Branching>, i: nat, shape: Shape, d: nat,
                                        payload: Option<Val>, start: Cursor, best: Cursor)
    requires cx.mode == Max && Settled(cx, start) && Settled(cx, best) && NotAfter(start.pos, best.pos)
    ensures Grown(cx, best, RunBranches(cx, fuel, branches, i, shape, d, payload, start, best))
    ensures RunBranches(cx, fuel, branches, i, shape, d, payload, start, best).Some? ==>
              forall k :: i <= k < |branches| ==>
                var end := RunOps(cx, fuel, branches[k].body, EMPTY_SCOPE,
                                  BranchRef(cx, fuel, branches[k].dims, branches[k].ty, shape, d, payload, k), start);
                end.Some? && NotAfter(end.value.pos,
                                      RunBranches(cx, fuel, branches, i, shape, d, payload, start, best).value.pos)
    decreases fuel, branches, if i < |branches| then |branches| - i else 0
  {
    hide RunOps; hide Settled; hide BranchRef;
    if i < |branches| {
      var end := RunOps(cx, fuel, branches[i].body, EMPTY_SCOPE,
                        BranchRef(cx, fuel, branches[i].dims, branches[i].ty, shape, d, payload, i), start);
      OpsGrow(cx, fuel, branches[i].body, EMPTY_SCOPE,
              BranchRef(cx, fuel, branches[i].dims, branches[i].ty, shape, d, payload, i), start);
      if end.Some? {
        var next := if Before(best.pos, end.value.pos) then end.value else best;
        BranchesGrow(cx, fuel, branches, i + 1, shape, d, payload, start, next);
      }
    }
  }

  // ----- measuring bounds every value -----

  ghost predicate Measuring(cx: Context) {
    cx.mode == Max && Sound(cx)
  }

  /** If the run completes, it ends at or after this position. */
  predicate Covers(r: Option<Cursor>, end: nat) {
    r.Some? ==> Within(end, r.value.pos)
  }

  lemma GrownSome(cx: Context, c: Cursor, r: Option<Cursor>, end: nat)
    requires Grown(cx, c, r) && r.Some? && Covers(r, end)
    ensures Settled(cx, r.value) && Within(end, r.value.pos)
  {
  }

  lemma {:induction false} CoverType(cx: Context, fm: nat, fv: nat, ty: Type, acc: Accessor, depth: nat, inVector: bool,
                                     scope: Scope, root: Target, c: Cursor, v: Val, p: nat)
    requires Measuring(cx) && Settled(cx, c) && Within(p, c.pos)
    requires HasType(cx.env, fv, ty, v) && Streamable(cx.env, fv, ty)
    requires Bound(acc, depth, scope) && Full(cx, fm, ty, Fetch(root, acc, scope))
    ensures Covers(RunOps(cx, fm, TypeOps(cx.env, Max, ty, acc, depth, inVector), scope, root, c),
                   p + |Enc(cx.env, cx.ma, fv, ty, v, p)|)
    decreases fv, 0, ty, 0, 0, 0
  {
    hide RunOps; hide RunOp; hide RunProg; hide EncDef; hide EncAll; hide ProgOf; hide VectorOps; hide WellFormedDef;
    hide Sound; hide Fetch; hide Covers; hide Settled; hide HasTypeAll; hide HasDef; hide FullDef; hide Linked;
    hide Bound; hide StreamableDef;
    if ty.Sequence? {
      CoverVector(cx, fm, fv, ty.elem, ty.bound, acc, depth, scope, root, c, v.kids, p);
    } else if ty.Named? && !IsBareTypedef(cx.env, ty.name) {
      CallMeasured(cx, fm, ty.name, acc, scope, root, c);
      if RunOps(cx, fm, [Call(ty.name, acc)], scope, root, c).Some? {
        CoverDefinition(cx, fm - 1, fv - 1, cx.env[ty.name], v, Fetch(root, acc, scope), c, p);
      } else {
        NothingCovered(RunOps(cx, fm, [Call(ty.name, acc)], scope, root, c), p + |Enc(cx.env, cx.ma, fv, ty, v, p)|);
      }
    } else {
      BareKeepsMeaning(cx.env, cx.ma, fv, ty, v, p);
      CoverBare(cx, fm, fv, Bare(cx.env, ty), acc, inVector, scope, root, c, v, p);
    }
  }

  lemma NothingCovered(r: Option<Cursor>, end: nat)
    requires r.None?
    ensures Covers(r, end)
  {
  }

  lemma CallMeasured(cx: Context, fuel: nat, n: Name, acc: Accessor, scope: Scope, root: Target, c: Cursor)
    requires Sound(cx) && n in cx.env
    ensures var r := RunOps(cx, fuel, [Call(n, acc)], scope, root, c);
            r.Some? ==>
              && fuel > 0 && WellFormedDef(cx.env[n])
              && r == RunProg(cx, fuel - 1, ProgOf(cx.env, cx.mode, cx.env[n]), Fetch(root, acc, scope), c)
  {
    hide RunProg; hide ProgOf; hide WellFormedDef; hide Fetch;
    RunSingle(cx, fuel, Call(n, acc), scope, root, c);
    hide RunOps;
  }

  lemma CoverNum(cx: Context, fm: nat, op: Op, num: NumType, n: nat, scope: Scope, root: Target, c: Cursor, p: nat)
    requires cx.mode == Max && Settled(cx, c) && Within(p, c.pos) && (op.Prim? || op.BoolElement?) && op.num == num
    ensures Covers(RunOp(cx, fm, op, scope, root, c), p + |EncNum(cx.ma, num, n, p)|)
  {
    hide Fetch; hide Advance; hide Settled; hide Padding;
    var t := Fetch(root, op.acc, scope);
    AdvanceMax(cx, c, num.width, Zeros(num.width), 1, p, num.width);
    if t.Live? && t.v.VNum? { AdvanceMax(cx, c, num.width, Bytes(t.v.n, num.width), 1, p, num.width); }
  }

  lemma CoverText(cx: Context, fm: nat, bound: nat, s: seq<byte>, acc: Accessor, scope: Scope, root: Target,
                  c: Cursor, p: nat)
    requires cx.mode == Max && Settled(cx, c) && Within(p, c.pos) && (bound > 0 ==> |s| <= bound)
    requires FullText(bound, Fetch(root, acc, scope))
    ensures Covers(RunOp(cx, fm, Text(acc, bound), scope, root, c), p + |EncText(cx.ma, s, p)|)
  {
    var t := Fetch(root, acc, scope);
    hide Fetch; hide Settled; hide Advance; hide Padding;
    if bound > 0 && t.Live? && t.v.VText? {
      AdvanceMax(cx, c, 4, Bytes(|t.v.s| + 1, 4), 1, p, 4);
    }
  }

  lemma CoverBare(cx: Context, fm: nat, fv: nat, ty: Type, acc: Accessor, inVector: bool, scope: Scope, root: Target,
                  c: Cursor, v: Val, p: nat)
    requires cx.mode == Max && Settled(cx, c) && Within(p, c.pos)
    requires (ty.Num? || ty.Str?) && HasType(cx.env, fv, ty, v) &&
             (ty.Str? ==> FullText(ty.bound, Fetch(root, acc, scope)))
    ensures Covers(RunOps(cx, fm, StreamOps(cx.env, ty, acc, inVector), scope, root, c),
                   p + |Enc(cx.env, cx.ma, fv, ty, v, p)|)
  {
    hide RunOps; hide RunOp; hide Settled; hide EncNum; hide EncText; hide HasNum; hide Covers; hide Within;
    hide FullText;
    hide Fetch;
    var op := StreamOps(cx.env, ty, acc, inVector)[0];
    RunSingle(cx, fm, op, scope, root, c);
    match ty
    case Num(num) => CoverNum(cx, fm, op, num, v.n, scope, root, c, p);
    case Str(bound) => CoverText(cx, fm, bound, v.s, acc, scope, root, c, p);
  }

  lemma {:induction false} CoverVector(cx: Context, fm: nat, fv: nat, elem: Type, bound: nat, acc: Accessor, depth: nat,
                                       scope: Scope, root: Target, c: Cursor, kids: seq<Val>, p: nat)
    requires Measuring(cx) && Settled(cx, c) && Within(p, c.pos)
    requires HasTypeAll(cx.env, fv, [], elem, kids) && (bound > 0 ==> |kids| <= bound) && Streamable(cx.env, fv, elem)
    requires Bound(acc, depth, scope) && Full(cx, fm, Sequence(elem, bound), Fetch(root, acc, scope))
    ensures var len := EncNum(cx.ma, LENGTH, |kids|, p);
            Covers(RunOps(cx, fm, VectorOps(cx.env, Max, elem, bound, depth, acc), scope, root, c),
                   p + |len + EncAll(cx.env, cx.ma, fv, [], elem, kids, p + |len|)|)
    decreases fv, 0, elem, 0, 4, 0
  {
    hide *;
    MaxMode(cx);
    var len := EncNum(cx.ma, LENGTH, |kids|, p);
    if bound == 0 {
      UnboundedCovers(cx, fm, elem, acc, depth, scope, root, c,
                      p + |len + EncAll(cx.env, cx.ma, fv, [], elem, kids, p + |len|)|);
    } else {
      VectorMeasured(cx, fm, elem, bound, acc, depth, scope, root, c);
      LengthMeasured(cx, c, bound, |kids|, p);
      var first := Advance(cx, c, 4, Bytes(bound, 4));
      LengthKeeps(acc, scope, depth, root, bound);
      CoverElements(cx, fm, fv, elem, acc, depth, WithLength(scope, depth, bound), root, first.value, kids, p + |len|,
                    bound);
    }
  }

  lemma LengthMeasured(cx: Context, c: Cursor, n: nat, m: nat, p: nat)
    requires cx.mode == Max && Settled(cx, c) && Within(p, c.pos)
    ensures var r := Advance(cx, c, 4, Bytes(n, 4));
            r.Some? && Settled(cx, r.value) && Within(p + |EncNum(cx.ma, LENGTH, m, p)|, r.value.pos)
  {
    AdvanceMax(cx, c, 4, Bytes(n, 4), 1, p, 4);
  }

  /** The max code of an unbounded sequence ends nowhere. */
  lemma UnboundedMeasured(cx: Context, fuel: nat, elem: Type, acc: Accessor, depth: nat, scope: Scope, root: Target,
                          c: Cursor)
    requires cx.mode == Max
    ensures var r := RunOps(cx, fuel, VectorOps(cx.env, Max, elem, 0, depth, acc), scope, root, c);
            r.Some? ==> r.value.pos.Infinite?
  {
    var ops := VectorOps(cx.env, Max, elem, 0, depth, acc);
    assert ops[1..] == [Unbounded];
    hide VectorOps; hide RunOp;
    var first := RunOp(cx, fuel, ops[0], scope, root, c);
    if first.Some? {
      RunSingle(cx, fuel, Unbounded, scope, root, first.value);
      assert RunOp(cx, fuel, Unbounded, scope, root, first.value) == Some(first.value.(pos := Infinite)) by {
        UnboundedOp(cx, fuel, scope, root, first.value);
      }
    }
  }

  lemma UnboundedOp(cx: Context, fuel: nat, scope: Scope, root: Target, c: Cursor)
    ensures RunOp(cx, fuel, Unbounded, scope, root, c) == Some(c.(pos := Infinite))
  {
  }

  /** The max code of a bounded sequence takes the bound for the length. */
  lemma VectorMeasured(cx: Context, fuel: nat, elem: Type, bound: nat, acc: Accessor, depth: nat, scope: Scope,
                       root: Target, c: Cursor)
    requires cx.mode == Max && bound > 0
    ensures RunOps(cx, fuel, VectorOps(cx.env, Max, elem, bound, depth, acc), scope, root, c) ==
            match Advance(cx, c, 4, Bytes(bound, 4))
            case None => None
            case Some(c') => RunOp(cx, fuel, ElementOps(cx.env, Max, elem, depth, acc)[0],
                                   WithLength(scope, depth, bound), root, c')
    ensures depth in WithLength(scope, depth, bound).length && WithLength(scope, depth, bound).length[depth] == bound
  {
    var ops := VectorOps(cx.env, Max, elem, bound, depth, acc);
    var body := ElementOps(cx.env, Max, elem, depth, acc);
    var counted := ops[0].body[0];
    assert ops == [Consecutive(false, ops[0].primitive, [counted])] && counted.body == body == [body[0]];
    hide ElementOps; hide VectorOps; hide Advance;
    BoundedUnfold(cx, fuel, counted, scope, root, c);
    hide RunOps; hide RunOp;
    ConsecutiveUnfold(cx, fuel, false, ops[0].primitive, [counted], scope, root, c);
    RunSingle(cx, fuel, ops[0], scope, root, c);
    RunSingle(cx, fuel, counted, scope, root, c);
    var first := Advance(cx, c, 4, Bytes(bound, 4));
    if first.Some? {
      RunSingle(cx, fuel, body[0], WithLength(scope, depth, bound), root, first.value);
    }
  }

  lemma BoundedUnfold(cx: Context, fuel: nat, op: Op, scope: Scope, root: Target, c: Cursor)
    requires op.Counted? && op.len.Constant? && op.check == None
    ensures RunOp(cx, fuel, op, scope, root, c) ==
            match Advance(cx, c, 4, Bytes(op.len.n, 4))
            case None => None
            case Some(c') => RunOps(cx, fuel, op.body, WithLength(scope, op.depth, op.len.n), root, c')
  {
    hide Advance; hide RunOps;
  }

  lemma UnboundedCovers(cx: Context, fuel: nat, elem: Type, acc: Accessor, depth: nat, scope: Scope, root: Target,
                        c: Cursor, end: nat)
    requires cx.mode == Max
    ensures Covers(RunOps(cx, fuel, VectorOps(cx.env, Max, elem, 0, depth, acc), scope, root, c), end)
  {
    UnboundedMeasured(cx, fuel, elem, acc, depth, scope, root, c);
  }

  lemma {:induction false} CoverElements(cx: Context, fm: nat, fv: nat, elem: Type, acc: Accessor, depth: nat,
                                         scope: Scope, root: Target, c: Cursor, kids: seq<Val>, p: nat, n: nat)
    requires Measuring(cx) && Settled(cx, c) && Within(p, c.pos)
    requires HasTypeAll(cx.env, fv, [], elem, kids) && |kids| <= n && Streamable(cx.env, fv, elem)
    requires depth in scope.length && scope.length[depth] == n > 0
    requires Bound(acc, depth, scope) && Full(cx, fm, Sequence(elem, n), Fetch(root, acc, scope))
    ensures Covers(RunOp(cx, fm, ElementOps(cx.env, Max, elem, depth, acc)[0], scope, root, c),
                   p + |EncAll(cx.env, cx.ma, fv, [], elem, kids, p)|)
    decreases fv, 0, elem, 0, 3, 1
  {
    hide Measuring; hide RunOps; hide EncAll; hide HasTypeAll; hide TypeOps; hide Fetch; hide RunFor; hide Padding;
    hide Settled;
    if Contiguous(elem) {
      var w := elem.num.width;
      NumsOfType(cx.env, cx.ma, fv, elem, kids);
      BulkIsEach(cx.env, cx.ma, fv, elem, kids, p);
      ProductMonotone(w, |kids|, n);
      assert cx.mode == Max by { MaxMode(cx); }
      AdvanceMax(cx, c, w, Zeros(w * n), n, p, w * |kids|);
      AdvanceMax(cx, c, w, Zeros(w * n), n, p, 0);
    } else {
      CoverVectorLoop(cx, fm, fv, elem, acc, depth, scope, root, c, kids, p, 0, n);
      assert kids[0..] == kids;
    }
  }

  lemma MaxMode(cx: Context)
    requires Measuring(cx)
    ensures cx.mode == Max
  {
  }

  lemma ProductMonotone(w: nat, m: nat, n: nat)
    requires m <= n
    ensures w * m <= w * n
  {
  }

  lemma {:induction false} CoverVectorLoop(cx: Context, fm: nat, fv: nat, elem: Type, acc: Accessor, depth: nat,
                                           scope: Scope, root: Target, c: Cursor, kids: seq<Val>, p: nat, j: nat,
                                           n: nat)
    requires Measuring(cx) && Settled(cx, c) && Within(p, c.pos)
    requires HasTypeAll(cx.env, fv, [], elem, kids) && j <= |kids| <= n && Streamable(cx.env, fv, elem)
    requires Bound(acc, depth, scope) && Full(cx, fm, Sequence(elem, n), Fetch(root, acc, scope))
    ensures Covers(RunFor(cx, fm, OverIndex(depth), TypeOps(cx.env, Max, elem, Element(acc, depth), depth + 1, true),
                          j, n, scope, root, c),
                   p + |EncAll(cx.env, cx.ma, fv, [], elem, kids[j..], p)|)
    decreases fv, 0, elem, 0, 2, |kids| - j
  {
    hide *;
    var loop := OverIndex(depth);
    var body := TypeOps(cx.env, Max, elem, Element(acc, depth), depth + 1, true);
    MaxMode(cx);
    if j == |kids| {
      RestCovers(cx, cx.env, fm, fv, [], elem, loop, body, kids, j, n, scope, root, c, p);
    } else {
      var inner := Bind(scope, loop, j);
      ElementOfAll(cx.env, cx.ma, fv, elem, kids, j, p);
      EncAllStep(cx.env, cx.ma, fv, [], elem, kids, j, p);
      var enc := EncArray(cx.env, cx.ma, fv, [], elem, kids[j], p);
      ElementChild(acc, scope, depth, root, j);
      FullElement(cx, fm, elem, n, Fetch(root, acc, scope), j);
      CoverType(cx, fm, fv, elem, Element(acc, depth), depth + 1, true, inner, root, c, kids[j], p);
      OpsGrow(cx, fm, body, inner, root, c);
      ForUnfold(cx, fm, loop, body, j, n, scope, root, c);
      var first := RunOps(cx, fm, body, inner, root, c);
      if first.Some? {
        GrownSome(cx, c, first, p + |enc|);
        CoverVectorLoop(cx, fm, fv, elem, acc, depth, scope, root, first.value, kids, p + |enc|, j + 1, n);
      } else {
        NothingCovered(first, p + |EncAll(cx.env, cx.ma, fv, [], elem, kids[j..], p)|);
      }
    }
  }

  lemma FullElement(cx: Context, fm: nat, elem: Type, n: nat, t: Target, j: nat)
    requires Full(cx, fm, Sequence(elem, n), t) && j < n
    ensures Full(cx, fm, elem, ElementAt(t, j))
  {
    hide ElementAt;
  }

  /** Rounds of the loop beyond the elements the value has only move the end further. */
  lemma RestCovers(cx: Context, env: Env, fm: nat, fv: nat, dims: seq<nat>, ty: Type, loop: Loop, body: seq<Op>,
                   kids: seq<Val>,
                   j: nat, n: nat, scope: Scope, root: Target, c: Cursor, p: nat)
    requires cx.mode == Max && Settled(cx, c) && Within(p, c.pos) && j == |kids|
    ensures Covers(RunFor(cx, fm, loop, body, j, n, scope, root, c),
                   p + |EncAll(env, cx.ma, fv, dims, ty, kids[j..], p)|)
  {
    ForGrows(cx, fm, loop, body, j, n, scope, root, c);
    hide RunFor; hide EncArray;
    assert kids[j..] == [];
  }

  lemma {:induction false} CoverArray(cx: Context, fm: nat, fv: nat, dims: seq<nat>, ty: Type, n: nat, acc: Accessor,
                                      scope: Scope, root: Target, c: Cursor, v: Val, p: nat)
    requires Measuring(cx) && Settled(cx, c) && Within(p, c.pos)
    requires HasArray(cx.env, fv, dims, ty, v) && Streamable(cx.env, fv, ty)
    requires Bound(acc, 1, scope) && !acc.Element? && FullArray(cx, fm, dims, ty, Fetch(root, acc, scope))
    ensures Covers(RunOps(cx, fm, ArrayOps(cx.env, Max, dims, ty, n, acc), scope, root, c),
                   p + |EncArray(cx.env, cx.ma, fv, dims, ty, v, p)|)
    decreases fv, 0, ty, |dims|, 1, 0
  {
    hide Measuring; hide RunOps; hide EncAll; hide HasTypeAll; hide TypeOps; hide Settled; hide RunFor; hide Strip;
    hide Covers; hide Enc; hide HasType;
    MaxMode(cx);
    if dims == [] {
      CoverType(cx, fm, fv, ty, acc, 1, false, scope, root, c, v, p);
    } else if |dims| == 1 && Strip(cx.env, ty).Num? {
      assert dims[1..] == [];
      CoverBulkArray(cx, fm, fv, dims[0], ty, acc, scope, root, c, v.kids, p);
    } else {
      ArrayMeasured(cx, fm, dims, ty, n, acc, scope, root, c);
      hide ArrayOps;
      assert v.kids[0..] == v.kids && [dims[0]] + dims[1..] == dims;
      if RunOps(cx, fm, ArrayOps(cx.env, Max, dims, ty, n, acc), scope, root, c).Some? {
        CoverArrayLoop(cx, fm, fv, dims[0], dims[1..], ty, n, acc, scope, root, c, v.kids, p, 0);
      } else {
        NothingCovered(RunOps(cx, fm, ArrayOps(cx.env, Max, dims, ty, n, acc), scope, root, c),
                       p + |EncArray(cx.env, cx.ma, fv, dims, ty, v, p)|);
      }
    }
  }

  lemma CoverBulkArray(cx: Context, fm: nat, fv: nat, dim: nat, ty: Type, acc: Accessor, scope: Scope, root: Target,
                       c: Cursor,
                       kids: seq<Val>, p: nat)
    requires cx.mode == Max && Settled(cx, c) && Within(p, c.pos) && |kids| == dim > 0
    requires HasTypeAll(cx.env, fv, [], ty, kids) && Strip(cx.env, ty).Num?
    ensures Covers(RunOps(cx, fm, [BulkArray(acc, Strip(cx.env, ty).num, dim)], scope, root, c),
                   p + |EncAll(cx.env, cx.ma, fv, [], ty, kids, p)|)
  {
    var num := Strip(cx.env, ty).num;
    var w := num.width;
    NumsOfType(cx.env, cx.ma, fv, ty, kids);
    BulkIsEach(cx.env, cx.ma, fv, ty, kids, p);
    RunSingle(cx, fm, BulkArray(acc, num, dim), scope, root, c);
    hide EncAll; hide HasTypeAll; hide Strip; hide RunOps; hide Advance; hide Settled; hide Fetch; hide Padding;
    AdvanceMax(cx, c, w, Zeros(w * dim), dim, p, w * dim);
    var t := Fetch(root, acc, scope);
    if t.Live? && t.v.VNode? && AllNums(t.v.kids) && |t.v.kids| == dim {
      AdvanceMax(cx, c, w, BulkBytes(t.v.kids, w), dim, p, w * dim);
    }
  }

  lemma ArrayMeasured(cx: Context, fuel: nat, dims: seq<nat>, ty: Type, n: nat, acc: Accessor, scope: Scope,
                      root: Target, c: Cursor)
    requires dims != [] && !(|dims| == 1 && Strip(cx.env, ty).Num?)
    ensures var r := RunOps(cx, fuel, ArrayOps(cx.env, Max, dims, ty, n, acc), scope, root, c);
            r.Some? ==>
              && Eval(acc, scope).Some?
              && r == RunFor(cx, fuel, OverArray(n + 1, Eval(acc, scope).value),
                             ArrayOps(cx.env, Max, dims[1..], ty, n + 1, ArrayVar(n + 1)), 0, dims[0], scope, root, c)
  {
    var body := ArrayOps(cx.env, Max, dims[1..], ty, n + 1, ArrayVar(n + 1));
    hide RunFor;
    RunSingle(cx, fuel, ForArray(n + 1, acc, dims[0], body), scope, root, c);
    hide RunOps;
  }

  lemma {:induction false} CoverArrayLoop(cx: Context, fm: nat, fv: nat, dim: nat, dims: seq<nat>, ty: Type, n: nat,
                                          acc: Accessor,
                                          scope: Scope, root: Target, c: Cursor, kids: seq<Val>, p: nat, j: nat)
    requires Measuring(cx) && Settled(cx, c) && Within(p, c.pos)
    requires HasTypeAll(cx.env, fv, dims, ty, kids) && j <= |kids| == dim && Streamable(cx.env, fv, ty)
    requires Eval(acc, scope).Some? && !acc.Element? && FullArray(cx, fm, [dim] + dims, ty, Fetch(root, acc, scope))
    ensures Covers(RunFor(cx, fm, OverArray(n + 1, Eval(acc, scope).value),
                          ArrayOps(cx.env, Max, dims, ty, n + 1, ArrayVar(n + 1)),
                          j, |kids|, scope, root, c),
                   p + |EncAll(cx.env, cx.ma, fv, dims, ty, kids[j..], p)|)
    decreases fv, 0, ty, |dims|, 2, |kids| - j
  {
    hide *;
    var loop := OverArray(n + 1, Eval(acc, scope).value);
    var body := ArrayOps(cx.env, Max, dims, ty, n + 1, ArrayVar(n + 1));
    MaxMode(cx);
    if j == |kids| {
      RestCovers(cx, cx.env, fm, fv, dims, ty, loop, body, kids, j, |kids|, scope, root, c, p);
    } else {
      var inner := Bind(scope, loop, j);
      ItemOfAll(cx.env, fv, dims, ty, kids, j);
      EncAllStep(cx.env, cx.ma, fv, dims, ty, kids, j, p);
      var enc := EncArray(cx.env, cx.ma, fv, dims, ty, kids[j], p);
      ItemChild(acc, scope, n + 1, root, j);
      FullItem(cx, fm, dim, dims, ty, Fetch(root, acc, scope), j);
      CoverArray(cx, fm, fv, dims, ty, n + 1, ArrayVar(n + 1), inner, root, c, kids[j], p);
      OpsGrow(cx, fm, body, inner, root, c);
      ForUnfold(cx, fm, loop, body, j, |kids|, scope, root, c);
      var first := RunOps(cx, fm, body, inner, root, c);
      if first.Some? {
        GrownSome(cx, c, first, p + |enc|);
        CoverArrayLoop(cx, fm, fv, dim, dims, ty, n, acc, scope, root, first.value, kids, p + |enc|, j + 1);
      } else {
        NothingCovered(first, p + |EncAll(cx.env, cx.ma, fv, dims, ty, kids[j..], p)|);
      }
    }
  }

  lemma FullItem(cx: Context, fm: nat, dim: nat, dims: seq<nat>, ty: Type, t: Target, j: nat)
    requires FullArray(cx, fm, [dim] + dims, ty, t) && j < dim
    ensures FullArray(cx, fm, dims, ty, Child(t, j))
  {
    hide Child;
    assert ([dim] + dims)[1..] == dims;
  }

  lemma {:induction false} CoverEntity(cx: Context, fm: nat, fv: nat, dims: seq<nat>, ty: Type, acc: Accessor,
                                       root: Target, c: Cursor, v: Val, p: nat)
    requires Measuring(cx) && Settled(cx, c) && Within(p, c.pos)
    requires HasArray(cx.env, fv, dims, ty, v) && Streamable(cx.env, fv, ty)
    requires Bound(acc, 1, EMPTY_SCOPE) && !acc.Element?
    requires FullArray(cx, fm, dims, ty, Fetch(root, acc, EMPTY_SCOPE))
    ensures Covers(RunOps(cx, fm, EntityOps(cx.env, Max, dims, ty, acc), EMPTY_SCOPE, root, c),
                   p + |EncArray(cx.env, cx.ma, fv, dims, ty, v, p)|)
    decreases fv, 0, ty, |dims|, 3, 0
  {
    hide Measuring; hide RunOps; hide EncArray; hide HasArray; hide TypeOps; hide Settled; hide Covers;
    CoverArray(cx, fm, fv, dims, ty, 0, acc, EMPTY_SCOPE, root, c, v, p);
    if dims != [] {
      var op := EntityOps(cx.env, Max, dims, ty, acc)[0];
      RunSingle(cx, fm, op, EMPTY_SCOPE, root, c);
      ConsecutiveUnfold(cx, fm, true, op.primitive, op.body, EMPTY_SCOPE, root, c);
    }
  }

  lemma {:induction false} CoverDefinition(cx: Context, fm: nat, fv: nat, def: Def, v: Val, root: Target, c: Cursor,
                                           p: nat)
    requires Measuring(cx) && Settled(cx, c) && Within(p, c.pos) && WellFormedDef(def) && FullDef(cx, fm, def, root)
    requires HasDef(cx.env, fv, def, v) && StreamableDef(cx.env, fv, def)
    ensures Covers(RunProg(cx, fm, ProgOf(cx.env, Max, def), root, c), p + |EncDef(cx.env, cx.ma, fv, def, v, p)|)
    decreases fv, 2
  {
    hide Measuring; hide Settled; hide Covers; hide RunOps; hide EncArray; hide HasArray; hide EntityOps;
    hide Streamable;
    match def
    case Struct(_, _) =>
      var fs := Fields(def);
      hide RunEntities; hide EncFields; hide Entries;
      assert Ids(fs)[0..] == Ids(fs) && fs[0..] == fs && v.kids[0..] == v.kids;
      CoverFields(cx, fm, fv, fs, v, root, c, p, 0);
    case Typedef(ty, dims, _) =>
      RootFetched(root, Instance, 1);
      CoverEntity(cx, fm, fv, dims, ty, Instance, root, c, v, p);
    case Union(_, _, _, _) => CoverUnion(cx, fm, fv, def, v, root, c, p);
  }

  lemma {:induction false} CoverFields(cx: Context, fm: nat, fv: nat, fs: seq<Field>, v: Val, root: Target, c: Cursor,
                                       p: nat, k: nat)
    requires Measuring(cx) && Settled(cx, c) && Within(p, c.pos)
    requires v.VNode? && HasFields(cx.env, fv, fs, v.kids) && k <= |fs| == |v.kids| && Numbered(fs) && DistinctIds(fs)
    requires FullFields(cx, fm, fs, root) && forall i :: 0 <= i < |fs| ==> Streamable(cx.env, fv, fs[i].ty)
    ensures Covers(RunEntities(cx, fm, Ids(fs)[k..], Entries(cx.env, Max, fs), root, c),
                   p + |EncFields(cx.env, cx.ma, fv, fs[k..], v.kids[k..], p)|)
    decreases fv, 1, |fs| - k
  {
    hide *;
    MaxMode(cx);
    if k == |fs| {
      FieldsCovered(cx, fm, fv, fs, v, root, c, p);
    } else {
      var f := fs[k];
      EntitiesMeasured(cx, fm, fs, k, root, c);
      EncFieldsStep(cx.env, cx.ma, fv, fs, v.kids, k, p);
      FieldFetched(cx.env, Max, fv, fs, v, k);
      var enc := EncArray(cx.env, cx.ma, fv, f.decl.dims, f.ty, v.kids[k], p);
      var body := EntryOf(cx.env, Max, f).body;
      FullField(cx, fm, fs, root, k);
      CoverEntity(cx, fm, fv, f.decl.dims, f.ty, Programs.Accessor.Member(k), root, c, v.kids[k], p);
      OpsGrow(cx, fm, body, EMPTY_SCOPE, root, c);
      var first := RunOps(cx, fm, body, EMPTY_SCOPE, root, c);
      if Copied(cx.env, f) && root.Outside? {
        NothingCovered(None, p + |EncFields(cx.env, cx.ma, fv, fs[k..], v.kids[k..], p)|);
      } else if first.Some? {
        GrownSome(cx, c, first, p + |enc|);
        CoverFields(cx, fm, fv, fs, v, root, first.value, p + |enc|, k + 1);
      } else {
        NothingCovered(first, p + |EncFields(cx.env, cx.ma, fv, fs[k..], v.kids[k..], p)|);
      }
    }
  }

  ghost predicate FullFields(cx: Context, fm: nat, fs: seq<Field>, root: Target) {
    forall k: nat {:trigger Child(root, k)} :: k < |fs| ==> FullArray(cx, fm, fs[k].decl.dims, fs[k].ty, Child(root, k))
  }

  lemma FullField(cx: Context, fm: nat, fs: seq<Field>, root: Target, k: nat)
    requires FullFields(cx, fm, fs, root) && k < |fs|
    ensures Bound(Programs.Accessor.Member(k), 1, EMPTY_SCOPE)
    ensures FullArray(cx, fm, fs[k].decl.dims, fs[k].ty, Fetch(root, Programs.Accessor.Member(k), EMPTY_SCOPE))
  {
    RootFetched(root, Programs.Accessor.Member(k), 1);
    hide FullArray; hide Fetch; hide Child;
  }

  lemma FieldsCovered(cx: Context, fm: nat, fv: nat, fs: seq<Field>, v: Val, root: Target, c: Cursor, p: nat)
    requires Settled(cx, c) && Within(p, c.pos) && v.VNode? && |v.kids| == |fs|
    ensures Covers(RunEntities(cx, fm, Ids(fs)[|fs|..], Entries(cx.env, Max, fs), root, c),
                   p + |EncFields(cx.env, cx.ma, fv, fs[|fs|..], v.kids[|fs|..], p)|)
  {
    hide RunOps; hide EncArray;
    assert Ids(fs)[|fs|..] == [] && fs[|fs|..] == [];
  }

  lemma EntitiesMeasured(cx: Context, fuel: nat, fs: seq<Field>, k: nat, root: Target, c: Cursor)
    requires k < |fs| && DistinctIds(fs) && cx.mode == Max
    ensures var entries := Entries(cx.env, Max, fs);
            RunEntities(cx, fuel, Ids(fs)[k..], entries, root, c) ==
            if Copied(cx.env, fs[k]) && root.Outside? then None
            else match RunOps(cx, fuel, EntryOf(cx.env, Max, fs[k]).body, EMPTY_SCOPE, root, c)
              case None => None
              case Some(c') => RunEntities(cx, fuel, Ids(fs)[k + 1..], entries, root, c')
  {
    assert EntryOf(cx.env, Max, fs[k]).copied == Copied(cx.env, fs[k]);
    hide RunOps; hide EntryOf; hide Copied;
    EntryFound(cx.env, Max, fs, k);
    assert Ids(fs)[k..][0] == fs[k].decl.id && Ids(fs)[k..][1..] == Ids(fs)[k + 1..];
  }

  /** The maximum of a union bounds whichever branch the value has. */
  lemma {:induction false} CoverUnion(cx: Context, fm: nat, fv: nat, def: Def, v: Val, root: Target, c: Cursor, p: nat)
    requires Measuring(cx) && Settled(cx, c) && Within(p, c.pos) && WellFormedDef(def) && FullDef(cx, fm, def, root)
    requires def.Union? && HasDef(cx.env, fv, def, v) && StreamableDef(cx.env, fv, def)
    ensures Covers(RunProg(cx, fm, ProgOf(cx.env, Max, def), root, c), p + |EncDef(cx.env, cx.ma, fv, def, v, p)|)
    decreases fv, 1, 0
  {
    hide *;
    var whole := RunProg(cx, fm, ProgOf(cx.env, Max, def), root, c);
    var u := ShapeOf(def);
    MaxMode(cx);
    UnionParts(cx.env, cx.ma, fv, def, v, p);
    if whole.None? {
      NothingCovered(whole, p + |EncDef(cx.env, cx.ma, fv, def, v, p)|);
    } else {
      UnionMeasured(cx, fm, def, root, c, p, v.d);
      var d := EncNum(cx.ma, def.disc, v.d, p);
      var start := Advance(cx, c, def.disc.width, Bytes(root.v.d, def.disc.width)).value;
      match ArmOf(u, v.d)
      case Some(i) =>
        var b := def.cases[i];
        var t := BranchRef(cx, fm, b.dims, b.ty, u, root.v.d, root.v.payload, i);
        FullBranch(cx, fm, def, root, i);
        CaseStreamable(cx.env, fv, def, i);
        BranchMeasured(cx, fm, def, root, c, i);
        CoverEntity(cx, fm, fv, b.dims, b.ty, Branch(i), t, start, v.payload.value, p + |d|);
        BranchCovers(RunOps(cx, fm, EntityOps(cx.env, Max, b.dims, b.ty, Branch(i)), EMPTY_SCOPE, t, start), whole,
                     p + |d| + |EncArray(cx.env, cx.ma, fv, b.dims, b.ty, v.payload.value, p + |d|)|);
      case None =>
        StartCovers(whole, start, p + |d|);
    }
  }

  lemma FullBranch(cx: Context, fm: nat, def: Def, root: Target, i: nat)
    requires def.Union? && FullDef(cx, fm, def, root) && root.Live? && root.v.VUnion? && i < |def.cases|
    ensures Bound(Branch(i), 1, EMPTY_SCOPE)
    ensures var b := def.cases[i];
            var t := BranchRef(cx, fm, b.dims, b.ty, ShapeOf(def), root.v.d, root.v.payload, i);
            Fetch(t, Branch(i), EMPTY_SCOPE) == t && FullArray(cx, fm, b.dims, b.ty, t)
  {
    var b := def.cases[i];
    RootFetched(BranchRef(cx, fm, b.dims, b.ty, ShapeOf(def), root.v.d, root.v.payload, i), Branch(i), 1);
    hide FullArray; hide Fetch; hide BranchRef;
  }

  lemma BranchCovers(end: Option<Cursor>, whole: Option<Cursor>, p: nat)
    requires end.Some? && whole.Some? && Covers(end, p) && NotAfter(end.value.pos, whole.value.pos)
    ensures Covers(whole, p)
  {
  }

  lemma StartCovers(whole: Option<Cursor>, start: Cursor, p: nat)
    requires whole.Some? && Within(p, start.pos) && NotAfter(start.pos, whole.value.pos)
    ensures Covers(whole, p)
  {
  }

  lemma UnionMeasured(cx: Context, fuel: nat, def: Def, root: Target, c: Cursor, p: nat, d: nat)
    requires cx.mode == Max && Settled(cx, c) && Within(p, c.pos) && def.Union?
    requires RunProg(cx, fuel, ProgOf(cx.env, Max, def), root, c).Some?
    ensures root.Live? && root.v.VUnion?
    ensures var start := Advance(cx, c, def.disc.width, Bytes(root.v.d, def.disc.width));
            && start.Some? && Settled(cx, start.value) && Within(p + |EncNum(cx.ma, def.disc, d, p)|, start.value.pos)
            && NotAfter(start.value.pos, RunProg(cx, fuel, ProgOf(cx.env, Max, def), root, c).value.pos)
            && RunProg(cx, fuel, ProgOf(cx.env, Max, def), root, c) ==
               RunBranches(cx, fuel, Branchings(cx.env, Max, def.cases), 0, ShapeOf(def), root.v.d, root.v.payload,
                           start.value, start.value)
  {
    hide RunBranches; hide Advance; hide Settled; hide Padding;
    var w := def.disc.width;
    AdvanceMax(cx, c, w, Bytes(root.v.d, w), 1, p, w);
    var start := Advance(cx, c, w, Bytes(root.v.d, w)).value;
    BranchesGrow(cx, fuel, Branchings(cx.env, Max, def.cases), 0, ShapeOf(def), root.v.d, root.v.payload, start, start);
  }

  lemma BranchMeasured(cx: Context, fuel: nat, def: Def, root: Target, c: Cursor, i: nat)
    requires cx.mode == Max && Settled(cx, c) && def.Union? && i < |def.cases|
    requires RunProg(cx, fuel, ProgOf(cx.env, Max, def), root, c).Some?
    ensures root.Live? && root.v.VUnion?
    ensures var start := Advance(cx, c, def.disc.width, Bytes(root.v.d, def.disc.width));
            start.Some? &&
            var end := RunOps(cx, fuel, EntityOps(cx.env, Max, def.cases[i].dims, def.cases[i].ty, Branch(i)),
                              EMPTY_SCOPE,
                              BranchRef(cx, fuel, def.cases[i].dims, def.cases[i].ty, ShapeOf(def), root.v.d,
                                        root.v.payload, i), start.value);
            end.Some? && NotAfter(end.value.pos, RunProg(cx, fuel, ProgOf(cx.env, Max, def), root, c).value.pos)
  {
    hide RunOps; hide RunBranches; hide Advance; hide Settled; hide BranchRef; hide EntityOps; hide NotAfter;
    var w := def.disc.width;
    AdvanceGrows(cx, c, w, Bytes(root.v.d, w), 1);
    var start := Advance(cx, c, w, Bytes(root.v.d, w)).value;
    NoGrowth(cx, start);
    BranchesGrow(cx, fuel, Branchings(cx.env, Max, def.cases), 0, ShapeOf(def), root.v.d, root.v.payload, start, start);
    assert Branchings(cx.env, Max, def.cases)[i] == BranchingOf(cx.env, Max, def.cases[i], i);
  }

  /**
    When the max program completes on an object whose bounded strings are full, no value of the
    type is moved over beyond the position it ends at, wherever both start. That holds with the
    emitted getters, which throw for inactive branches, and would hold with getters that do not.
   */
  lemma MaxBoundsMove(env: Env, ma: MaxAlign, capacity: nat, fm: nat, fv: nat, def: Def, x: Val, v: Val, q: nat,
                      ql: nat, p: nat, pl: nat, checked: bool)
    requires WellFormedEnv(env) && WellFormedDef(def) && StreamableDef(env, fv, def) && HasDef(env, fv, def, v)
    requires p <= q && Aligned(q, ql, ma) && Aligned(p, pl, ma)
    requires FullDef(Context(Max, env, Linked(env, Max), ma, capacity, checked), fm, def, Live(x))
    ensures var bound := RunProg(Context(Max, env, Linked(env, Max), ma, capacity, checked), fm, ProgOf(env, Max, def),
                                 Live(x), Cursor(At(q), ql, []));
            var moved := RunProg(Context(Move, env, Linked(env, Move), ma, capacity), fv, ProgOf(env, Move, def),
                                 Live(v), Cursor(At(p), pl, []));
            bound.Some? ==> moved.Some? && !Before(bound.value.pos, moved.value.pos)
  {
    hide RunProg; hide ProgOf; hide Linked; hide HasDef; hide EncDef; hide WellFormedDef; hide FullDef;
    hide StreamableDef;
    CoverDefinition(Context(Max, env, Linked(env, Max), ma, capacity, checked), fm, fv, def, v, Live(x),
                    Cursor(At(q), ql, []), p);
    RunDefinition(Context(Move, env, Linked(env, Move), ma, capacity), fv, def, v, Cursor(At(p), pl, []));
  }

  /** In particular on every object of a type from which no bounded string can be reached. */
  lemma MaxBoundsFreeText(env: Env, ma: MaxAlign, capacity: nat, fm: nat, fv: nat, def: Def, x: Val, v: Val, q: nat,
                          ql: nat, p: nat, pl: nat, checked: bool, names: set<Name>)
    requires WellFormedEnv(env) && WellFormedDef(def) && StreamableDef(env, fv, def) && HasDef(env, fv, def, v)
    requires p <= q && Aligned(q, ql, ma) && Aligned(p, pl, ma)
    requires FreeTextDef(def) && ClosedUnder(env, names, def) && FreeNames(env, names)
    ensures var bound := RunProg(Context(Max, env, Linked(env, Max), ma, capacity, checked), fm, ProgOf(env, Max, def),
                                 Live(x), Cursor(At(q), ql, []));
            var moved := RunProg(Context(Move, env, Linked(env, Move), ma, capacity), fv, ProgOf(env, Move, def),
                                 Live(v), Cursor(At(p), pl, []));
            bound.Some? ==> moved.Some? && !Before(bound.value.pos, moved.value.pos)
  {
    hide RunProg; hide ProgOf; hide Linked; hide HasDef; hide WellFormedDef; hide FreeTextDef;
    hide StreamableDef;
    FreeDefIsFull(Context(Max, env, Linked(env, Max), ma, capacity, checked), fm, names, def, Live(x));
    MaxBoundsMove(env, ma, capacity, fm, fv, def, x, v, q, ql, p, pl, checked);
  }
}
