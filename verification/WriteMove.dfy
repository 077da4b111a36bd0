/**
  The write program produces exactly the reference encoding, and fails exactly when the buffer
  is too small for it; the move program ends at the same position without writing anything.
 */
module WriteMove {
  import opened Wrappers
  import opened Wire
  import opened Unions
  import opened Idl
  import opened Encoding
  import opened Programs
  import opened Emitter
  import opened Objects
  import opened Machine

  ghost predicate Sound(cx: Context) {
    cx.code == Linked(cx.env, cx.mode) && WellFormedEnv(cx.env)
  }

  /** A cursor the stream can reach: aligned as it remembers, and as long as what was written. */
  predicate Consistent(cx: Context, c: Cursor) {
    && c.pos.At? && Aligned(c.pos.n, c.al, cx.ma)
    && (cx.mode == Write ==> c.pos.n == |c.out| <= cx.capacity)
  }

  function Place(c: Cursor): nat { if c.pos.At? then c.pos.n else 0 }

  /** A run from `c` emits `enc`, unless that does not fit in the buffer written to. */
  predicate Ends(cx: Context, r: Option<Cursor>, c: Cursor, enc: seq<byte>) {
    if cx.mode == Write && Place(c) + |enc| > cx.capacity then r.None?
    else
      && r.Some? && Consistent(cx, r.value)
      && r.value.pos == At(Place(c) + |enc|)
      && r.value.out == if cx.mode == Write then c.out + enc else c.out
  }

  lemma EndsTrans(cx: Context, c: Cursor, a: seq<byte>, b: seq<byte>, first: Option<Cursor>, whole: Option<Cursor>)
    requires Ends(cx, first, c, a)
    requires first.None? ==> whole.None?
    requires first.Some? ==> Ends(cx, whole, first.value, b)
    ensures Ends(cx, whole, c, a + b)
  {
    Associative(c.out, a, b);
  }

  lemma EndsSome(cx: Context, r: Option<Cursor>, c: Cursor, enc: seq<byte>)
    requires Ends(cx, r, c, enc) && r.Some?
    ensures Consistent(cx, r.value) && Place(r.value) == Place(c) + |enc|
  {
  }

  lemma AdvanceEnds(cx: Context, c: Cursor, w: Width, data: seq<byte>, count: nat)
    requires Consistent(cx, c) && |data| == w * count && cx.mode != Max
    ensures Ends(cx, Advance(cx, c, w, data), c, Zeros(Padding(Place(c), w, cx.ma)) + data)
  {
    var p := c.pos.n;
    AlignStepRoundsUp(p, c.al, w, cx.ma);
    PaddingRoundsUp(p, w, cx.ma);
    AlignedAdvance(p + Padding(p, w, cx.ma), w, count, cx.ma);
    assert c.out + Zeros(Padding(p, w, cx.ma)) + data == c.out + (Zeros(Padding(p, w, cx.ma)) + data);
  }

  lemma NumEnds(cx: Context, c: Cursor, num: NumType, n: nat)
    requires Consistent(cx, c) && cx.mode != Max
    ensures Ends(cx, Advance(cx, c, num.width, Bytes(n, num.width)), c, EncNum(cx.ma, num, n, Place(c)))
  {
    AdvanceEnds(cx, c, num.width, Bytes(n, num.width), 1);
  }

  lemma LengthEnds(cx: Context, c: Cursor, n: nat)
    requires Consistent(cx, c) && cx.mode != Max
    ensures Ends(cx, Advance(cx, c, 4, Bytes(n, 4)), c, EncNum(cx.ma, LENGTH, n, Place(c)))
  {
    NumEnds(cx, c, LENGTH, n);
  }

  lemma TextEnds(cx: Context, c: Cursor, bound: nat, s: seq<byte>)
    requires Consistent(cx, c) && cx.mode != Max && (bound > 0 ==> |s| <= bound)
    ensures Ends(cx, AdvanceText(cx, c, bound, s), c, EncText(cx.ma, s, Place(c)))
  {
    NumEnds(cx, c, LENGTH, |s| + 1);
    var first := Advance(cx, c, 4, Bytes(|s| + 1, 4));
    if first.Some? {
      assert first.value.out + s + [0] == first.value.out + (s + [0]);
      assert Ends(cx, AdvanceText(cx, c, bound, s), first.value, s + [0]);
    }
    EndsTrans(cx, c, EncNum(cx.ma, LENGTH, |s| + 1, Place(c)), s + [0], first, AdvanceText(cx, c, bound, s));
    assert EncNum(cx.ma, LENGTH, |s| + 1, Place(c)) + (s + [0]) == EncText(cx.ma, s, Place(c));
  }

  /** Looking through typedefs changes neither the values of a type nor their encoding, only the depth. */
  lemma {:induction false} StripKeepsMeaning(env: Env, ma: MaxAlign, fuel: nat, ty: Type, v: Val, pos: nat)
    returns (depth: nat)
    requires HasType(env, fuel, ty, v)
    ensures depth <= fuel && HasType(env, depth, Strip(env, ty), v)
    ensures Enc(env, ma, depth, Strip(env, ty), v, pos) == Enc(env, ma, fuel, ty, v, pos)
    decreases fuel
  {
    if Strip(env, ty) == ty {
      depth := fuel;
    } else {
      var to := env[ty.name].ty;
      assert HasDef(env, fuel - 1, env[ty.name], v);
      assert HasArray(env, fuel - 1, [], to, v);
      depth := StripKeepsMeaning(env, ma, fuel - 1, to, v, pos);
      assert EncArray(env, ma, fuel - 1, [], to, v, pos) == Enc(env, ma, fuel - 1, to, v, pos);
    }
  }

  lemma StripsToNumber(env: Env, ma: MaxAlign, fuel: nat, ty: Type, v: Val, pos: nat)
    requires HasType(env, fuel, ty, v) && Strip(env, ty).Num?
    ensures v.VNum? && HasNum(Strip(env, ty).num, v.n)
    ensures Enc(env, ma, fuel, ty, v, pos) == EncNum(ma, Strip(env, ty).num, v.n, pos)
  {
    var depth := StripKeepsMeaning(env, ma, fuel, ty, v, pos);
    hide Strip; hide EncNum; hide HasNum;
  }

  lemma EncAllStep(env: Env, ma: MaxAlign, fuel: nat, dims: seq<nat>, ty: Type, kids: seq<Val>, j: nat, pos: nat)
    requires j < |kids|
    ensures var enc := EncArray(env, ma, fuel, dims, ty, kids[j], pos);
            EncAll(env, ma, fuel, dims, ty, kids[j..], pos) == enc
              + EncAll(env, ma, fuel, dims, ty, kids[j + 1..], pos + |enc|)
  {
    hide EncArray;
    assert kids[j..][0] == kids[j] && kids[j..][1..] == kids[j + 1..];
  }

  lemma HasTypeTail(env: Env, fuel: nat, dims: seq<nat>, ty: Type, kids: seq<Val>)
    requires HasTypeAll(env, fuel, dims, ty, kids) && kids != []
    ensures HasArray(env, fuel, dims, ty, kids[0]) && HasTypeAll(env, fuel, dims, ty, kids[1..])
  {
    forall k | 0 <= k < |kids[1..]| ensures HasArray(env, fuel, dims, ty, kids[1..][k]) {
      assert kids[1..][k] == kids[k + 1];
    }
  }

  lemma NumsOfType(env: Env, ma: MaxAlign, fuel: nat, ty: Type, kids: seq<Val>)
    requires HasTypeAll(env, fuel, [], ty, kids) && Strip(env, ty).Num?
    ensures forall k :: 0 <= k < |kids| ==> kids[k].VNum? && HasNum(Strip(env, ty).num, kids[k].n)
  {
    forall k | 0 <= k < |kids| ensures kids[k].VNum? && HasNum(Strip(env, ty).num, kids[k].n) {
      assert HasArray(env, fuel, [], ty, kids[k]);
      StripsToNumber(env, ma, fuel, ty, kids[k], 0);
    }
  }

  /** After a number, the next one of the same width needs no padding. */
  lemma NoPaddingAfter(ma: MaxAlign, num: NumType, n: nat, pos: nat)
    ensures Padding(pos + |EncNum(ma, num, n, pos)|, num.width, ma) == 0
  {
    PaddingRoundsUp(pos, num.width, ma);
    AlignedAdvance(pos + Padding(pos, num.width, ma), num.width, 1, ma);
  }

  function Bulk(ma: MaxAlign, kids: seq<Val>, w: Width, pos: nat): seq<byte>
    requires AllNums(kids)
  {
    if kids == [] then [] else Zeros(Padding(pos, w, ma)) + BulkBytes(kids, w)
  }

  lemma BulkStep(ma: MaxAlign, num: NumType, kids: seq<Val>, pos: nat)
    requires AllNums(kids) && kids != []
    ensures var first := EncNum(ma, num, kids[0].n, pos);
            first + Bulk(ma, kids[1..], num.width, pos + |first|) == Bulk(ma, kids, num.width, pos)
  {
    NoPaddingAfter(ma, num, kids[0].n, pos);
    hide Padding; hide Bytes;
    var w := num.width;
    var rest := BulkBytes(kids[1..], w);
    assert Zeros(0) + rest == rest;
    Associative(Zeros(Padding(pos, w, ma)), Bytes(kids[0].n, w), rest);
  }

  /**
    One block copy of numbers is the same as encoding them one by one: once the first is
    aligned, all are.
   */
  lemma {:induction false} BulkIsEach(env: Env, ma: MaxAlign, fuel: nat, ty: Type, kids: seq<Val>, pos: nat)
    requires HasTypeAll(env, fuel, [], ty, kids) && Strip(env, ty).Num? && AllNums(kids)
    ensures EncAll(env, ma, fuel, [], ty, kids, pos) == Bulk(ma, kids, Strip(env, ty).num.width, pos)
    decreases |kids|
  {
    hide *;
    var num := Strip(env, ty).num;
    if kids == [] {
      NothingBulk(env, ma, fuel, ty, num, pos);
    } else {
      HasTypeTail(env, fuel, [], ty, kids);
      FirstNumber(env, ma, fuel, ty, kids, pos);
      BulkIsEach(env, ma, fuel, ty, kids[1..], pos + |EncNum(ma, num, kids[0].n, pos)|);
      BulkStep(ma, num, kids, pos);
    }
  }

  lemma NothingBulk(env: Env, ma: MaxAlign, fuel: nat, ty: Type, num: NumType, pos: nat)
    ensures AllNums([]) && EncAll(env, ma, fuel, [], ty, [], pos) == Bulk(ma, [], num.width, pos)
  {
  }

  lemma FirstNumber(env: Env, ma: MaxAlign, fuel: nat, ty: Type, kids: seq<Val>, pos: nat)
    requires kids != [] && HasArray(env, fuel, [], ty, kids[0]) && Strip(env, ty).Num? && AllNums(kids)
    ensures kids[0].VNum? && AllNums(kids[1..])
    ensures var enc := EncNum(ma, Strip(env, ty).num, kids[0].n, pos);
            EncAll(env, ma, fuel, [], ty, kids, pos) == enc + EncAll(env, ma, fuel, [], ty, kids[1..], pos + |enc|)
  {
    hide EncNum; hide Strip; hide Enc; hide HasType; hide HasTypeAll; hide HasDef; hide EncDef; hide HasNum;
    assert HasType(env, fuel, ty, kids[0]);
    StripsToNumber(env, ma, fuel, ty, kids[0], pos);
    assert EncArray(env, ma, fuel, [], ty, kids[0], pos) == Enc(env, ma, fuel, ty, kids[0], pos);
  }

  lemma RunSingle(cx: Context, fuel: nat, op: Op, scope: Scope, root: Target, c: Cursor)
    ensures RunOps(cx, fuel, [op], scope, root, c) == RunOp(cx, fuel, op, scope, root, c)
  {
    hide RunOp;
    var r := RunOp(cx, fuel, op, scope, root, c);
    assert [op][1..] == [];
    if r.Some? {
      assert RunOps(cx, fuel, [], scope, root, r.value) == r;
    }
  }

  /** One round of a loop, then the others. */
  lemma ForStep(cx: Context, fuel: nat, loop: Loop, body: seq<Op>, j: nat, n: nat, scope: Scope, root: Target,
                c: Cursor,
                a: seq<byte>, b: seq<byte>)
    requires j < n
    requires var first := RunOps(cx, fuel, body, Bind(scope, loop, j), root, c);
             Ends(cx, first, c, a) &&
             (first.Some? ==> Ends(cx, RunFor(cx, fuel, loop, body, j + 1, n, scope, root, first.value), first.value,
                                   b))
    ensures Ends(cx, RunFor(cx, fuel, loop, body, j, n, scope, root, c), c, a + b)
  {
    var first := RunOps(cx, fuel, body, Bind(scope, loop, j), root, c);
    var whole := RunFor(cx, fuel, loop, body, j, n, scope, root, c);
    ForUnfold(cx, fuel, loop, body, j, n, scope, root, c);
    hide *;
    EndsTrans(cx, c, a, b, first, whole);
  }

  lemma ForUnfold(cx: Context, fuel: nat, loop: Loop, body: seq<Op>, j: nat, n: nat, scope: Scope, root: Target,
                  c: Cursor)
    requires j < n
    ensures RunFor(cx, fuel, loop, body, j, n, scope, root, c) ==
            match RunOps(cx, fuel, body, Bind(scope, loop, j), root, c)
            case None => None
            case Some(c') => RunFor(cx, fuel, loop, body, j + 1, n, scope, root, c')
  {
    hide RunOps;
  }

  /** A bare typedef is streamed as the type it is of. */
  function Bare(env: Env, ty: Type): Type {
    if ty.Named? && IsBareTypedef(env, ty.name) then env[ty.name].ty else ty
  }

  lemma BareKeepsMeaning(env: Env, ma: MaxAlign, fuel: nat, ty: Type, v: Val, pos: nat)
    requires HasType(env, fuel, ty, v) && Streamable(env, fuel, ty) && (ty.Named? ==> IsBareTypedef(env, ty.name))
    ensures HasType(env, fuel, Bare(env, ty), v) && (Bare(env, ty).Num? || Bare(env, ty).Str? || Bare(env, ty) == ty)
    ensures Enc(env, ma, fuel, Bare(env, ty), v, pos) == Enc(env, ma, fuel, ty, v, pos)
  {
    if ty.Named? {
      var target := env[ty.name].ty;
      assert HasArray(env, fuel - 1, [], target, v) && HasType(env, fuel - 1, target, v);
      assert EncArray(env, ma, fuel - 1, [], target, v, pos) == Enc(env, ma, fuel - 1, target, v, pos);
    }
  }

  lemma CallUnfold(cx: Context, fuel: nat, n: Name, acc: Accessor, scope: Scope, root: Val, c: Cursor)
    requires fuel > 0 && n in cx.code && Fetch(Live(root), acc, scope).Live?
    ensures RunOps(cx, fuel, [Call(n, acc)], scope, Live(root), c) ==
            RunProg(cx, fuel - 1, cx.code[n], Fetch(Live(root), acc, scope), c)
  {
    hide RunProg;
    RunSingle(cx, fuel, Call(n, acc), scope, Live(root), c);
  }

  lemma RunBare(cx: Context, fuel: nat, ty: Type, acc: Accessor, inVector: bool, scope: Scope, root: Val, c: Cursor,
                v: Val)
    requires cx.mode != Max && Consistent(cx, c)
    requires (ty.Num? || ty.Str?) && HasType(cx.env, fuel, ty, v)
    requires Fetch(Live(root), acc, scope) == Live(v)
    ensures Ends(cx, RunOps(cx, fuel, StreamOps(cx.env, ty, acc, inVector), scope, Live(root), c),
                 c, Enc(cx.env, cx.ma, fuel, ty, v, Place(c)))
  {
    hide Ends; hide Consistent; hide EncNum; hide EncText; hide Fetch; hide Advance; hide AdvanceText; hide HasNum;
    RunSingle(cx, fuel, StreamOps(cx.env, ty, acc, inVector)[0], scope, Live(root), c);
    hide RunOps;
    match ty
    case Num(num) => NumEnds(cx, c, num, v.n);
    case Str(bound) => TextEnds(cx, c, bound, v.s);
  }

  /** Code for one object streams the object its accessor names. */
  lemma {:induction false} RunType(cx: Context, fuel: nat, ty: Type, acc: Accessor, depth: nat, inVector: bool,
                                   scope: Scope, root: Val, c: Cursor, v: Val)
    requires Sound(cx) && cx.mode != Max && cx.mode != Read && Consistent(cx, c)
    requires HasType(cx.env, fuel, ty, v) && Streamable(cx.env, fuel, ty)
    requires Below(acc, depth) && Fetch(Live(root), acc, scope) == Live(v)
    ensures Ends(cx, RunOps(cx, fuel, TypeOps(cx.env, cx.mode, ty, acc, depth, inVector), scope, Live(root), c),
                 c, Enc(cx.env, cx.ma, fuel, ty, v, Place(c)))
    decreases fuel, 0, ty, 0, 0, 0
  {
    hide RunOps; hide RunOp; hide RunProg; hide EncDef; hide EncAll; hide ProgOf; hide VectorOps; hide WellFormedDef;
    hide Fetch; hide Ends; hide Consistent; hide HasDef; hide HasTypeAll; hide StreamableDef;
    if ty.Sequence? {
      RunVector(cx, fuel, ty.elem, ty.bound, acc, depth, scope, root, c, v.kids);
    } else if ty.Named? && !IsBareTypedef(cx.env, ty.name) {
      CallUnfold(cx, fuel, ty.name, acc, scope, root, c);
      RunDefinition(cx, fuel - 1, cx.env[ty.name], v, c);
    } else {
      BareKeepsMeaning(cx.env, cx.ma, fuel, ty, v, Place(c));
      RunBare(cx, fuel, Bare(cx.env, ty), acc, inVector, scope, root, c, v);
    }
  }

  lemma CountedRuns(cx: Context, fuel: nat, op: Op, scope: Scope, root: Val, c: Cursor, kids: seq<Val>)
    requires op.Counted? && op.len.SizeOf? && Fetch(Live(root), op.len.acc, scope) == Live(VNode(kids))
    requires |kids| < UINT32_LIMIT && (op.check.Some? ==> |kids| <= op.check.value)
    ensures RunOp(cx, fuel, op, scope, Live(root), c) ==
            match Advance(cx, c, 4, Bytes(|kids|, 4))
            case None => None
            case Some(c') => RunOps(cx, fuel, op.body, WithLength(scope, op.depth, |kids|), Live(root), c')
  {
    LengthFits(op.len, scope, root, kids);
    hide LengthOf; hide Fetch; hide Advance; hide RunOps; hide WithLength;
  }

  lemma LengthFits(len: Length, scope: Scope, root: Val, kids: seq<Val>)
    requires len.SizeOf? && Fetch(Live(root), len.acc, scope) == Live(VNode(kids)) && |kids| < UINT32_LIMIT
    ensures LengthOf(len, scope, Live(root)) == Some(|kids|)
  {
    hide Fetch;
  }

  lemma VectorUnfold(cx: Context, fuel: nat, elem: Type, bound: nat, acc: Accessor, depth: nat,
                     scope: Scope, root: Val, c: Cursor, kids: seq<Val>)
    requires cx.mode != Max && Fetch(Live(root), acc, scope) == Live(VNode(kids))
    requires |kids| < UINT32_LIMIT && (bound > 0 ==> |kids| <= bound)
    ensures RunOps(cx, fuel, VectorOps(cx.env, cx.mode, elem, bound, depth, acc), scope, Live(root), c) ==
            match Advance(cx, c, 4, Bytes(|kids|, 4))
            case None => None
            case Some(c') =>
              RunOp(cx, fuel, ElementOps(cx.env, cx.mode, elem, depth, acc)[0], WithLength(scope, depth, |kids|),
                    Live(root), c')
  {
    var ops := VectorOps(cx.env, cx.mode, elem, bound, depth, acc);
    var body := ElementOps(cx.env, cx.mode, elem, depth, acc);
    var counted := ops[0].body[0];
    assert ops == [Consecutive(false, ops[0].primitive, [counted])] && counted.body == body == [body[0]];
    hide ElementOps; hide VectorOps; hide Fetch; hide RunOps; hide RunOp; hide Advance;
    BlockUnfold(cx, fuel, ops[0].primitive, counted, body[0], scope, root, c, kids);
  }

  /** A counted block between its neutral brackets: the length, then the elements. */
  lemma BlockUnfold(cx: Context, fuel: nat, primitive: bool, counted: Op, element: Op, scope: Scope, root: Val,
                    c: Cursor, kids: seq<Val>)
    requires counted.Counted? && counted.len.SizeOf? && counted.body == [element]
    requires Fetch(Live(root), counted.len.acc, scope) == Live(VNode(kids))
    requires |kids| < UINT32_LIMIT && (counted.check.Some? ==> |kids| <= counted.check.value)
    ensures RunOps(cx, fuel, [Consecutive(false, primitive, [counted])], scope, Live(root), c) ==
            match Advance(cx, c, 4, Bytes(|kids|, 4))
            case None => None
            case Some(c') => RunOp(cx, fuel, element, WithLength(scope, counted.depth, |kids|), Live(root), c')
  {
    hide *;
    var t := Live(root);
    ConsecutiveUnfold(cx, fuel, false, primitive, [counted], scope, t, c);
    RunSingle(cx, fuel, Consecutive(false, primitive, [counted]), scope, t, c);
    RunSingle(cx, fuel, counted, scope, t, c);
    CountedRuns(cx, fuel, counted, scope, root, c, kids);
    var first := Advance(cx, c, 4, Bytes(|kids|, 4));
    if first.Some? {
      RunSingle(cx, fuel, element, WithLength(scope, counted.depth, |kids|), t, first.value);
    }
  }

  lemma ConsecutiveUnfold(cx: Context, fuel: nat, isArray: bool, primitive: bool, body: seq<Op>, scope: Scope,
                          root: Target, c: Cursor)
    ensures RunOp(cx, fuel, Consecutive(isArray, primitive, body), scope, root, c) ==
            RunOps(cx, fuel, body, scope, root, c)
  {
    hide RunOps;
  }

  /** Declaring the length of a vector leaves what the accessor names alone. */
  lemma LengthDeclared(acc: Accessor, scope: Scope, depth: nat, root: Val, kids: seq<Val>)
    requires Below(acc, depth) && Fetch(Live(root), acc, scope) == Live(VNode(kids))
    ensures var inner := WithLength(scope, depth, |kids|);
            depth in inner.length && inner.length[depth] == |kids| && Fetch(Live(root), acc, inner) == Live(VNode(kids))
  {
    NoCapture(acc, scope, depth, 0, |kids|);
  }

  lemma {:induction false} RunVector(cx: Context, fuel: nat, elem: Type, bound: nat, acc: Accessor, depth: nat,
                                     scope: Scope, root: Val, c: Cursor, kids: seq<Val>)
    requires Sound(cx) && cx.mode != Max && cx.mode != Read && Consistent(cx, c)
    requires HasTypeAll(cx.env, fuel, [], elem, kids) && |kids| < UINT32_LIMIT && (bound > 0 ==> |kids| <= bound)
    requires Streamable(cx.env, fuel, elem)
    requires Below(acc, depth) && Fetch(Live(root), acc, scope) == Live(VNode(kids))
    ensures Ends(cx, RunOps(cx, fuel, VectorOps(cx.env, cx.mode, elem, bound, depth, acc), scope, Live(root), c),
                 c, EncNum(cx.ma, LENGTH, |kids|, Place(c))
                    + EncAll(cx.env, cx.ma, fuel, [], elem, kids, Place(c) + |EncNum(cx.ma, LENGTH, |kids|, Place(c))|))
    decreases fuel, 0, elem, 0, 4, 0
  {
    hide *;
    VectorUnfold(cx, fuel, elem, bound, acc, depth, scope, root, c, kids);
    var len := EncNum(cx.ma, LENGTH, |kids|, Place(c));
    var inner := WithLength(scope, depth, |kids|);
    LengthEnds(cx, c, |kids|);
    LengthDeclared(acc, scope, depth, root, kids);
    var first := Advance(cx, c, 4, Bytes(|kids|, 4));
    if first.Some? {
      EndsSome(cx, first, c, len);
      RunElements(cx, fuel, elem, acc, depth, inner, root, first.value, kids);
    }
    EndsTrans(cx, c, len, EncAll(cx.env, cx.ma, fuel, [], elem, kids, Place(c) + |len|), first,
              RunOps(cx, fuel, VectorOps(cx.env, cx.mode, elem, bound, depth, acc), scope, Live(root), c));
  }

  lemma {:induction false} RunElements(cx: Context, fuel: nat, elem: Type, acc: Accessor, depth: nat,
                                       scope: Scope, root: Val, c: Cursor, kids: seq<Val>)
    requires Sound(cx) && cx.mode != Max && cx.mode != Read && Consistent(cx, c)
    requires HasTypeAll(cx.env, fuel, [], elem, kids) && Streamable(cx.env, fuel, elem)
    requires depth in scope.length && scope.length[depth] == |kids|
    requires Below(acc, depth) && Fetch(Live(root), acc, scope) == Live(VNode(kids))
    ensures Ends(cx, RunOp(cx, fuel, ElementOps(cx.env, cx.mode, elem, depth, acc)[0], scope, Live(root), c),
                 c, EncAll(cx.env, cx.ma, fuel, [], elem, kids, Place(c)))
    decreases fuel, 0, elem, 0, 3, 1
  {
    hide Sound; hide RunOps; hide EncAll; hide HasTypeAll; hide TypeOps; hide Fetch; hide Advance; hide Ends;
    hide Consistent; hide RunFor;
    if Contiguous(elem) {
      NumsOfType(cx.env, cx.ma, fuel, elem, kids);
      BulkIsEach(cx.env, cx.ma, fuel, elem, kids, Place(c));
      hide RunOp;
      RunBulk(cx, fuel, elem.num, acc, depth, scope, root, c, kids);
    } else {
      RunVectorLoop(cx, fuel, elem, acc, depth, scope, root, c, kids, 0);
      assert kids[0..] == kids;
    }
  }

  lemma RunBulk(cx: Context, fuel: nat, num: NumType, acc: Accessor, depth: nat, scope: Scope, root: Val, c: Cursor,
                kids: seq<Val>)
    requires cx.mode != Max && Consistent(cx, c) && AllNums(kids)
    requires depth in scope.length && scope.length[depth] == |kids|
    requires Fetch(Live(root), acc, scope) == Live(VNode(kids))
    ensures Ends(cx, RunOp(cx, fuel, BulkVector(acc, depth, num), scope, Live(root), c), c,
                 Bulk(cx.ma, kids, num.width, Place(c)))
    ensures cx.mode == Move ==>
              Ends(cx, RunOp(cx, fuel, BulkDefault(depth, num), scope, Live(root), c), c,
                   Bulk(cx.ma, kids, num.width, Place(c)))
  {
    if kids != [] {
      AdvanceEnds(cx, c, num.width, BulkBytes(kids, num.width), |kids|);
      AdvanceEnds(cx, c, num.width, Zeros(num.width * |kids|), |kids|);
    }
  }

  lemma {:induction false} RunVectorLoop(cx: Context, fuel: nat, elem: Type, acc: Accessor, depth: nat,
                                         scope: Scope, root: Val, c: Cursor, kids: seq<Val>, j: nat)
    requires Sound(cx) && cx.mode != Max && cx.mode != Read && Consistent(cx, c)
    requires HasTypeAll(cx.env, fuel, [], elem, kids) && j <= |kids| && Streamable(cx.env, fuel, elem)
    requires Below(acc, depth) && Fetch(Live(root), acc, scope) == Live(VNode(kids))
    ensures Ends(cx, RunFor(cx, fuel, OverIndex(depth),
                            TypeOps(cx.env, cx.mode, elem, Element(acc, depth), depth + 1, true),
                            j, |kids|, scope, Live(root), c),
                 c, EncAll(cx.env, cx.ma, fuel, [], elem, kids[j..], Place(c)))
    decreases fuel, 0, elem, 0, 2, |kids| - j
  {
    hide *;
    if j == |kids| {
      LoopDone(cx, cx.env, fuel, [], elem, OverIndex(depth),
               TypeOps(cx.env, cx.mode, elem, Element(acc, depth), depth + 1, true),
               scope, Live(root), c, kids);
    } else {
      var body := TypeOps(cx.env, cx.mode, elem, Element(acc, depth), depth + 1, true);
      var inner := Bind(scope, OverIndex(depth), j);
      ElementOfAll(cx.env, cx.ma, fuel, elem, kids, j, Place(c));
      EncAllStep(cx.env, cx.ma, fuel, [], elem, kids, j, Place(c));
      ElementFetched(acc, scope, depth, root, kids, j);
      RunType(cx, fuel, elem, Element(acc, depth), depth + 1, true, inner, root, c, kids[j]);
      var enc := EncArray(cx.env, cx.ma, fuel, [], elem, kids[j], Place(c));
      var first := RunOps(cx, fuel, body, inner, Live(root), c);
      if first.Some? {
        EndsSome(cx, first, c, enc);
        RunVectorLoop(cx, fuel, elem, acc, depth, scope, root, first.value, kids, j + 1);
      }
      ForStep(cx, fuel, OverIndex(depth), body, j, |kids|, scope, Live(root), c,
              enc, EncAll(cx.env, cx.ma, fuel, [], elem, kids[j + 1..], Place(c) + |enc|));
    }
  }

  lemma LoopDone(cx: Context, env: Env, fuel: nat, dims: seq<nat>, ty: Type, loop: Loop, body: seq<Op>,
                 scope: Scope, root: Target, c: Cursor, kids: seq<Val>)
    requires Consistent(cx, c)
    ensures Ends(cx, RunFor(cx, fuel, loop, body, |kids|, |kids|, scope, root, c), c,
                 EncAll(env, cx.ma, fuel, dims, ty, kids[|kids|..], Place(c)))
  {
    assert kids[|kids|..] == [];
    hide RunOps; hide EncArray;
  }

  lemma FetchedPath(acc: Accessor, scope: Scope, root: Val, kids: seq<Val>)
    requires Fetch(Live(root), acc, scope) == Live(VNode(kids))
    ensures Eval(acc, scope).Some? && Get(root, Eval(acc, scope).value) == Some(VNode(kids))
  {
  }

  /** Inside the loop over an array, `a_n` names the element the loop has come to. */
  lemma ItemFetched(acc: Accessor, scope: Scope, n: nat, root: Val, kids: seq<Val>, j: nat)
    requires Fetch(Live(root), acc, scope) == Live(VNode(kids)) && j < |kids|
    ensures Eval(acc, scope).Some? && Below(ArrayVar(n + 1), 1)
    ensures Fetch(Live(root), ArrayVar(n + 1), Bind(scope, OverArray(n + 1, Eval(acc, scope).value), j)) ==
            Live(kids[j])
  {
    GetChild(root, Eval(acc, scope).value, j);
  }

  lemma ItemOfAll(env: Env, fuel: nat, dims: seq<nat>, ty: Type, kids: seq<Val>, j: nat)
    requires HasTypeAll(env, fuel, dims, ty, kids) && j < |kids|
    ensures HasArray(env, fuel, dims, ty, kids[j])
  {
    hide HasArray;
  }

  lemma ElementOfAll(env: Env, ma: MaxAlign, fuel: nat, elem: Type, kids: seq<Val>, j: nat, pos: nat)
    requires HasTypeAll(env, fuel, [], elem, kids) && j < |kids|
    ensures HasType(env, fuel, elem, kids[j])
    ensures EncArray(env, ma, fuel, [], elem, kids[j], pos) == Enc(env, ma, fuel, elem, kids[j], pos)
  {
    hide HasType; hide Enc;
    assert HasArray(env, fuel, [], elem, kids[j]);
  }

  /** Inside the loop, `accessor[i]` names the element the loop has come to. */
  lemma ElementFetched(acc: Accessor, scope: Scope, depth: nat, root: Val, kids: seq<Val>, j: nat)
    requires Below(acc, depth) && Fetch(Live(root), acc, scope) == Live(VNode(kids)) && j < |kids|
    ensures Below(Element(acc, depth), depth + 1)
    ensures Fetch(Live(root), Element(acc, depth), Bind(scope, OverIndex(depth), j)) == Live(kids[j])
  {
    NoCapture(acc, scope, depth, j, 0);
    GetChild(root, Eval(acc, scope).value, j);
    BelowDeeper(acc, depth, depth + 1);
  }

  lemma {:induction false} RunArray(cx: Context, fuel: nat, dims: seq<nat>, ty: Type, n: nat, acc: Accessor,
                                    scope: Scope, root: Val, c: Cursor, v: Val)
    requires Sound(cx) && cx.mode != Max && cx.mode != Read && Consistent(cx, c)
    requires HasArray(cx.env, fuel, dims, ty, v) && Streamable(cx.env, fuel, ty)
    requires Below(acc, 1) && Fetch(Live(root), acc, scope) == Live(v)
    ensures Ends(cx, RunOps(cx, fuel, ArrayOps(cx.env, cx.mode, dims, ty, n, acc), scope, Live(root), c),
                 c, EncArray(cx.env, cx.ma, fuel, dims, ty, v, Place(c)))
    decreases fuel, 0, ty, |dims|, 1, 0
  {
    if dims == [] {
      RunType(cx, fuel, ty, acc, 1, false, scope, root, c, v);
    } else if |dims| == 1 && Strip(cx.env, ty).Num? {
      assert dims[1..] == [];
      RunBulkArray(cx, fuel, dims[0], ty, acc, scope, root, c, v.kids);
    } else {
      ArrayUnfold(cx, fuel, dims, ty, n, acc, scope, root, c);
      RunArrayLoop(cx, fuel, dims[1..], ty, n, acc, scope, root, c, v.kids, 0);
      assert v.kids[0..] == v.kids;
      hide RunFor; hide RunOps; hide EncAll; hide ArrayOps;
    }
  }

  lemma RunBulkArray(cx: Context, fuel: nat, dim: nat, ty: Type, acc: Accessor, scope: Scope, root: Val, c: Cursor,
                     kids: seq<Val>)
    requires cx.mode != Max && Consistent(cx, c) && |kids| == dim > 0
    requires HasTypeAll(cx.env, fuel, [], ty, kids) && Strip(cx.env, ty).Num?
    requires Fetch(Live(root), acc, scope) == Live(VNode(kids))
    ensures Ends(cx, RunOps(cx, fuel, [BulkArray(acc, Strip(cx.env, ty).num, dim)], scope, Live(root), c),
                 c, EncAll(cx.env, cx.ma, fuel, [], ty, kids, Place(c)))
  {
    var num := Strip(cx.env, ty).num;
    NumsOfType(cx.env, cx.ma, fuel, ty, kids);
    BulkIsEach(cx.env, cx.ma, fuel, ty, kids, Place(c));
    hide EncAll; hide HasTypeAll; hide Strip;
    AdvanceEnds(cx, c, num.width, BulkBytes(kids, num.width), |kids|);
    RunSingle(cx, fuel, BulkArray(acc, num, dim), scope, Live(root), c);
  }

  lemma ArrayUnfold(cx: Context, fuel: nat, dims: seq<nat>, ty: Type, n: nat, acc: Accessor, scope: Scope, root: Val,
                    c: Cursor)
    requires dims != [] && !(|dims| == 1 && Strip(cx.env, ty).Num?) && Eval(acc, scope).Some?
    requires Fetch(Live(root), acc, scope).Live?
    ensures RunOps(cx, fuel, ArrayOps(cx.env, cx.mode, dims, ty, n, acc), scope, Live(root), c) ==
            RunFor(cx, fuel, OverArray(n + 1, Eval(acc, scope).value),
                   ArrayOps(cx.env, cx.mode, dims[1..], ty, n + 1, ArrayVar(n + 1)), 0, dims[0], scope, Live(root), c)
  {
    var body := ArrayOps(cx.env, cx.mode, dims[1..], ty, n + 1, ArrayVar(n + 1));
    hide RunFor;
    RunSingle(cx, fuel, ForArray(n + 1, acc, dims[0], body), scope, Live(root), c);
  }

  lemma {:induction false} RunArrayLoop(cx: Context, fuel: nat, dims: seq<nat>, ty: Type, n: nat, acc: Accessor,
                                        scope: Scope, root: Val, c: Cursor, kids: seq<Val>, j: nat)
    requires Sound(cx) && cx.mode != Max && cx.mode != Read && Consistent(cx, c)
    requires HasTypeAll(cx.env, fuel, dims, ty, kids) && j <= |kids| && Streamable(cx.env, fuel, ty)
    requires Fetch(Live(root), acc, scope) == Live(VNode(kids))
    ensures Ends(cx, RunFor(cx, fuel, OverArray(n + 1, Eval(acc, scope).value),
                            ArrayOps(cx.env, cx.mode, dims, ty, n + 1,
                                     ArrayVar(n + 1)), j, |kids|, scope, Live(root), c),
                 c, EncAll(cx.env, cx.ma, fuel, dims, ty, kids[j..], Place(c)))
    decreases fuel, 0, ty, |dims|, 2, |kids| - j
  {
    hide *;
    FetchedPath(acc, scope, root, kids);
    var path := Eval(acc, scope).value;
    if j == |kids| {
      LoopDone(cx, cx.env, fuel, dims, ty, OverArray(n + 1, path),
               ArrayOps(cx.env, cx.mode, dims, ty, n + 1, ArrayVar(n + 1)),
               scope, Live(root), c, kids);
    } else {
      var body := ArrayOps(cx.env, cx.mode, dims, ty, n + 1, ArrayVar(n + 1));
      var inner := Bind(scope, OverArray(n + 1, path), j);
      ItemFetched(acc, scope, n, root, kids, j);
      ItemOfAll(cx.env, fuel, dims, ty, kids, j);
      EncAllStep(cx.env, cx.ma, fuel, dims, ty, kids, j, Place(c));
      RunArray(cx, fuel, dims, ty, n + 1, ArrayVar(n + 1), inner, root, c, kids[j]);
      var enc := EncArray(cx.env, cx.ma, fuel, dims, ty, kids[j], Place(c));
      var first := RunOps(cx, fuel, body, inner, Live(root), c);
      if first.Some? {
        EndsSome(cx, first, c, enc);
        RunArrayLoop(cx, fuel, dims, ty, n, acc, scope, root, first.value, kids, j + 1);
      }
      ForStep(cx, fuel, OverArray(n + 1, path), body, j, |kids|, scope, Live(root), c,
              enc, EncAll(cx.env, cx.ma, fuel, dims, ty, kids[j + 1..], Place(c) + |enc|));
    }
  }

  lemma {:induction false} RunEntity(cx: Context, fuel: nat, dims: seq<nat>, ty: Type, acc: Accessor, root: Val,
                                     c: Cursor, v: Val)
    requires Sound(cx) && cx.mode != Max && cx.mode != Read && Consistent(cx, c)
    requires HasArray(cx.env, fuel, dims, ty, v) && Streamable(cx.env, fuel, ty)
    requires Below(acc, 1) && Fetch(Live(root), acc, EMPTY_SCOPE) == Live(v)
    ensures Ends(cx, RunOps(cx, fuel, EntityOps(cx.env, cx.mode, dims, ty, acc), EMPTY_SCOPE, Live(root), c),
                 c, EncArray(cx.env, cx.ma, fuel, dims, ty, v, Place(c)))
    decreases fuel, 0, ty, |dims|, 3, 0
  {
    hide Sound; hide Fetch; hide Ends; hide Consistent; hide HasArray; hide EncArray; hide RunOps; hide TypeOps;
    RunArray(cx, fuel, dims, ty, 0, acc, EMPTY_SCOPE, root, c, v);
    if dims != [] {
      var op := EntityOps(cx.env, cx.mode, dims, ty, acc)[0];
      RunSingle(cx, fuel, op, EMPTY_SCOPE, Live(root), c);
      ConsecutiveUnfold(cx, fuel, true, op.primitive, op.body, EMPTY_SCOPE, Live(root), c);
    }
  }

  /** The function emitted for a definition writes, or moves over, the encoding of the object. */
  lemma {:induction false} RunDefinition(cx: Context, fuel: nat, def: Def, v: Val, c: Cursor)
    requires Sound(cx) && cx.mode != Max && cx.mode != Read && Consistent(cx, c) && WellFormedDef(def)
    requires HasDef(cx.env, fuel, def, v) && StreamableDef(cx.env, fuel, def)
    ensures Ends(cx, RunProg(cx, fuel, ProgOf(cx.env, cx.mode, def), Live(v), c), c,
                 EncDef(cx.env, cx.ma, fuel, def, v, Place(c)))
    decreases fuel, 2
  {
    hide Sound; hide Advance; hide Streamable;
    match def
    case Struct(_, _) =>
      var fs := Fields(def);
      RunFields(cx, fuel, fs, v, c, 0);
      assert Ids(fs)[0..] == Ids(fs) && fs[0..] == fs && v.kids[0..] == v.kids;
      hide RunEntities; hide EncFields; hide HasFields;
    case Typedef(ty, dims, _) =>
      hide RunOps; hide EncArray; hide HasArray; hide EntityOps;
      RunEntity(cx, fuel, dims, ty, Instance, v, c, v);
    case Union(_, _, _, _) => RunUnion(cx, fuel, def, v, c);
  }

  lemma {:induction false} RunUnion(cx: Context, fuel: nat, def: Def, v: Val, c: Cursor)
    requires Sound(cx) && cx.mode != Max && cx.mode != Read && Consistent(cx, c) && WellFormedDef(def)
    requires def.Union? && HasDef(cx.env, fuel, def, v) && StreamableDef(cx.env, fuel, def)
    ensures Ends(cx, RunProg(cx, fuel, ProgOf(cx.env, cx.mode, def), Live(v), c), c,
                 EncDef(cx.env, cx.ma, fuel, def, v, Place(c)))
    decreases fuel, 1, 0
  {
    hide *;
    UnionUnfold(cx, fuel, def, v, c);
    UnionParts(cx.env, cx.ma, fuel, def, v, Place(c));
    var d := EncNum(cx.ma, def.disc, v.d, Place(c));
    NumEnds(cx, c, def.disc, v.d);
    var first := Advance(cx, c, def.disc.width, Bytes(v.d, def.disc.width));
    match ArmOf(ShapeOf(def), v.d)
    case Some(i) =>
      var x := v.payload.value;
      var branch := def.cases[i];
      if first.Some? {
        EndsSome(cx, first, c, d);
        BranchFetched(i, x);
        CaseStreamable(cx.env, fuel, def, i);
        RunEntity(cx, fuel, branch.dims, branch.ty, Branch(i), x, first.value, x);
      }
      EndsTrans(cx, c, d, EncArray(cx.env, cx.ma, fuel, branch.dims, branch.ty, x, Place(c) + |d|), first,
                RunProg(cx, fuel, ProgOf(cx.env, cx.mode, def), Live(v), c));
    case None =>
  }

  lemma CaseStreamable(env: Env, fuel: nat, def: Def, i: nat)
    requires def.Union? && StreamableDef(env, fuel, def) && i < |def.cases|
    ensures Streamable(env, fuel, def.cases[i].ty)
  {
    hide Streamable;
  }

  lemma BranchFetched(i: nat, x: Val)
    ensures Below(Branch(i), 1) && Fetch(Live(x), Branch(i), EMPTY_SCOPE) == Live(x)
  {
  }

  lemma UnionParts(env: Env, ma: MaxAlign, fuel: nat, def: Def, v: Val, pos: nat)
    requires def.Union? && HasDef(env, fuel, def, v)
    ensures v.VUnion? && HasNum(def.disc, v.d)
    ensures var d := EncNum(ma, def.disc, v.d, pos);
            match ArmOf(ShapeOf(def), v.d)
            case Some(i) =>
              && v.payload.Some? && HasArray(env, fuel, def.cases[i].dims, def.cases[i].ty, v.payload.value)
              && EncDef(env, ma, fuel, def, v, pos) == d
                + EncArray(env, ma, fuel, def.cases[i].dims, def.cases[i].ty, v.payload.value, pos + |d|)
            case None => EncDef(env, ma, fuel, def, v, pos) == d && v == VUnion(v.d, None)
  {
    hide HasArray; hide EncArray; hide EncNum; hide ArmOf; hide HasNum;
  }

  /** The getter used by the selected branch never throws. */
  lemma UnionUnfold(cx: Context, fuel: nat, def: Def, v: Val, c: Cursor)
    requires cx.mode == Write || cx.mode == Move
    requires def.Union? && WellFormedDef(def) && HasDef(cx.env, fuel, def, v)
    ensures RunProg(cx, fuel, ProgOf(cx.env, cx.mode, def), Live(v), c) ==
            match Advance(cx, c, def.disc.width, Bytes(v.d, def.disc.width))
            case None => None
            case Some(c') =>
              match ArmOf(ShapeOf(def), v.d)
              case Some(i) =>
                RunOps(cx, fuel, EntityOps(cx.env, cx.mode, def.cases[i].dims, def.cases[i].ty, Branch(i)),
                       EMPTY_SCOPE, Live(v.payload.value), c')
              case None => Some(c')
  {
    hide RunOps; hide HasArray; hide EntityOps; hide Advance; hide ArmOf; hide EncNum;
    var shape := ShapeOf(def);
    match ArmOf(shape, v.d)
    case Some(i) =>
      LabelSelectsArm(shape, i, 0);
      assert BranchTarget(shape, v.d, v.payload, i) == Live(v.payload.value);
      hide BranchTarget; hide WellFormed;
    case None =>
  }

  lemma {:induction false} RunFields(cx: Context, fuel: nat, fs: seq<Field>, v: Val, c: Cursor, k: nat)
    requires Sound(cx) && cx.mode != Max && cx.mode != Read && Consistent(cx, c)
    requires v.VNode? && HasFields(cx.env, fuel, fs, v.kids) && k <= |fs| == |v.kids|
    requires Numbered(fs) && DistinctIds(fs) && forall i :: 0 <= i < |fs| ==> Streamable(cx.env, fuel, fs[i].ty)
    ensures Ends(cx, RunEntities(cx, fuel, Ids(fs)[k..], Entries(cx.env, cx.mode, fs), Live(v), c),
                 c, EncFields(cx.env, cx.ma, fuel, fs[k..], v.kids[k..], Place(c)))
    decreases fuel, 1, |fs| - k
  {
    hide *;
    if k == |fs| {
      FieldsDone(cx, fuel, fs, v, c);
    } else {
      var f := fs[k];
      EntitiesUnfold(cx, fuel, fs, k, v, c);
      EncFieldsStep(cx.env, cx.ma, fuel, fs, v.kids, k, Place(c));
      FieldFetched(cx.env, cx.mode, fuel, fs, v, k);
      RunEntity(cx, fuel, f.decl.dims, f.ty, Programs.Accessor.Member(k), v, c, v.kids[k]);
      var enc := EncArray(cx.env, cx.ma, fuel, f.decl.dims, f.ty, v.kids[k], Place(c));
      var first := RunOps(cx, fuel, EntryOf(cx.env, cx.mode, f).body, EMPTY_SCOPE, Live(v), c);
      if first.Some? {
        EndsSome(cx, first, c, enc);
        RunFields(cx, fuel, fs, v, first.value, k + 1);
      }
      EndsTrans(cx, c, enc, EncFields(cx.env, cx.ma, fuel, fs[k + 1..], v.kids[k + 1..], Place(c) + |enc|), first,
                RunEntities(cx, fuel, Ids(fs)[k..], Entries(cx.env, cx.mode, fs), Live(v), c));
    }
  }

  lemma FieldsDone(cx: Context, fuel: nat, fs: seq<Field>, v: Val, c: Cursor)
    requires Consistent(cx, c) && v.VNode? && |v.kids| == |fs|
    ensures Ends(cx, RunEntities(cx, fuel, Ids(fs)[|fs|..], Entries(cx.env, cx.mode, fs), Live(v), c),
                 c, EncFields(cx.env, cx.ma, fuel, fs[|fs|..], v.kids[|fs|..], Place(c)))
  {
    assert Ids(fs)[|fs|..] == [] && fs[|fs|..] == [];
    hide RunOps; hide EncArray;
  }

  lemma FieldFetched(env: Env, mode: Mode, fuel: nat, fs: seq<Field>, v: Val, k: nat)
    requires v.VNode? && HasFields(env, fuel, fs, v.kids) && k < |fs| && Numbered(fs)
    ensures |v.kids| == |fs| && HasArray(env, fuel, fs[k].decl.dims, fs[k].ty, v.kids[k])
    ensures var acc := Programs.Accessor.Member(k);
            && Below(acc, 1) && Fetch(Live(v), acc, EMPTY_SCOPE) == Live(v.kids[k])
            && EntryOf(env, mode, fs[k]).body == EntityOps(env, mode, fs[k].decl.dims, fs[k].ty, acc)
  {
    hide HasArray; hide EntityOps;
    assert [k][1..] == [];
    assert Get(v.kids[k], []) == Some(v.kids[k]);
  }

  lemma EncFieldsStep(env: Env, ma: MaxAlign, fuel: nat, fs: seq<Field>, kids: seq<Val>, k: nat, pos: nat)
    requires |fs| == |kids| && k < |fs|
    ensures var enc := EncArray(env, ma, fuel, fs[k].decl.dims, fs[k].ty, kids[k], pos);
            EncFields(env, ma, fuel, fs[k..], kids[k..], pos) ==
            enc + EncFields(env, ma, fuel, fs[k + 1..], kids[k + 1..], pos + |enc|)
  {
    hide EncArray;
    assert fs[k..][0] == fs[k] && fs[k..][1..] == fs[k + 1..];
    assert kids[k..][0] == kids[k] && kids[k..][1..] == kids[k + 1..];
  }

  lemma EntitiesUnfold(cx: Context, fuel: nat, fs: seq<Field>, k: nat, v: Val, c: Cursor)
    requires k < |fs|
    requires DistinctIds(fs)
    ensures var entries := Entries(cx.env, cx.mode, fs);
            RunEntities(cx, fuel, Ids(fs)[k..], entries, Live(v), c) ==
            match RunOps(cx, fuel, EntryOf(cx.env, cx.mode, fs[k]).body, EMPTY_SCOPE, Live(v), c)
            case None => None
            case Some(c') => RunEntities(cx, fuel, Ids(fs)[k + 1..], entries, Live(v), c')
  {
    hide RunOps; hide EntryOf;
    EntryFound(cx.env, cx.mode, fs, k);
    assert Ids(fs)[k..][0] == fs[k].decl.id && Ids(fs)[k..][1..] == Ids(fs)[k + 1..];
  }

  /**
    With distinct ids, the switch over member ids finds for the k-th property the code of the
    k-th field: the two orders in which the generator walks the bases agree.
   */
  lemma EntryFound(env: Env, mode: Mode, fs: seq<Field>, k: nat)
    requires k < |fs|
    requires DistinctIds(fs)
    ensures Ids(fs)[k] == Entries(env, mode, fs)[k].id
    ensures EntryFor(Entries(env, mode, fs), Ids(fs)[k]) == Some(k)
  {
    var entries := Entries(env, mode, fs);
    assert entries[k].id == fs[k].decl.id;
    match EntryFor(entries, fs[k].decl.id)
    case Some(i) => assert entries[i].id == fs[i].decl.id;
    case None =>
  }

  // ----- main results -----

  const START := Cursor(At(0), 0, [])

  /**
    Writing an object into a buffer yields its encoding when the buffer has room for it, and
    fails otherwise.
   */
  lemma WriteIsEncoding(env: Env, ma: MaxAlign, capacity: nat, fuel: nat, def: Def, v: Val)
    requires WellFormedEnv(env) && WellFormedDef(def) && StreamableDef(env, fuel, def) && HasDef(env, fuel, def, v)
    ensures var r := RunProg(Context(Write, env, Linked(env, Write), ma, capacity), fuel, ProgOf(env, Write, def),
                             Live(v), START);
            var enc := EncDef(env, ma, fuel, def, v, 0);
            if |enc| <= capacity then r.Some? && r.value.out == enc && r.value.pos == At(|enc|) else r.None?
  {
    var cx := Context(Write, env, Linked(env, Write), ma, capacity);
    RunDefinition(cx, fuel, def, v, START);
    assert START.out + EncDef(env, ma, fuel, def, v, 0) == EncDef(env, ma, fuel, def, v, 0);
  }

  /**
    From every position, moving over an object ends exactly where writing it ends; so a buffer
    of the size found by moving is the smallest one that writing succeeds with.
   */
  lemma MoveEndsWhereWriteEnds(env: Env, ma: MaxAlign, capacity: nat, fuel: nat, def: Def, v: Val, prefix: seq<byte>,
                               al: nat)
    requires WellFormedEnv(env) && WellFormedDef(def) && StreamableDef(env, fuel, def) && HasDef(env, fuel, def, v)
    requires Aligned(|prefix|, al, ma) && |prefix| <= capacity
    ensures var c := Cursor(At(|prefix|), al, prefix);
            var moved := RunProg(Context(Move, env, Linked(env, Move), ma, capacity), fuel, ProgOf(env, Move, def),
                                 Live(v), c);
            var written := RunProg(Context(Write, env, Linked(env, Write), ma, capacity), fuel,
                                   ProgOf(env, Write, def), Live(v), c);
            && moved.Some? && moved.value.pos.At? && moved.value.out == prefix
            && (written.Some? <==> moved.value.pos.n <= capacity)
            && (written.Some? ==> written.value.pos == moved.value.pos && |written.value.out| == moved.value.pos.n)
  {
    var c := Cursor(At(|prefix|), al, prefix);
    RunDefinition(Context(Move, env, Linked(env, Move), ma, capacity), fuel, def, v, c);
    RunDefinition(Context(Write, env, Linked(env, Write), ma, capacity), fuel, def, v, c);
  }
}
