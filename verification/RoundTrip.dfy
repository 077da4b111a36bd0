/**
  The read program inverts the write program: from the encoding of a value it restores the
  value in any receptive object, and it consumes exactly the encoding.
 */
module RoundTrip {
  import opened Wrappers
  import opened Wire
  import opened Unions
  import opened Idl
  import opened Encoding
  import opened Programs
  import opened Emitter
  import opened Objects
  import opened Machine
  import opened WriteMove

  predicate Ready(cx: Context, r: Reader) {
    Aligned(r.pos, r.al, cx.ma) && r.pos <= |r.buf|
  }

  /** From this position on, the buffer continues with these bytes. */
  predicate Holds(buf: seq<byte>, pos: nat, enc: seq<byte>) {
    pos + |enc| <= |buf| && buf[pos..pos + |enc|] == enc
  }

  /**
    The type is streamable, and elements of vectors of booleans can be read: by way of a variable, which
    takes an element type that is the boolean or a bare typedef of it. A function for another typedef
    of it could not refer to them.
   */
  ghost predicate Readable(env: Env, fuel: nat, ty: Type)
    decreases fuel, 0, ty
  {
    match ty
    case Sequence(elem, _) =>
      && (elem.Named? && IsBoolean(Strip(env, elem)) ==> IsBareTypedef(env, elem.name))
      && Readable(env, fuel, elem)
    case Named(n) => fuel > 0 && n in env ==> AliasAgrees(env[n]) && ReadableDef(env, fuel - 1, env[n])
    case _ => true
  }

  ghost predicate ReadableDef(env: Env, fuel: nat, def: Def)
    decreases fuel, 1
  {
    match def
    case Struct(_, _) => forall k :: 0 <= k < |Fields(def)| ==> Readable(env, fuel, Fields(def)[k].ty)
    case Union(_, cases, _, _) => forall i :: 0 <= i < |cases| ==> Readable(env, fuel, cases[i].ty)
    case Typedef(ty, _, _) => Readable(env, fuel, ty)
  }

  lemma {:induction false} ReadableIsStreamable(env: Env, fuel: nat, ty: Type)
    requires Readable(env, fuel, ty)
    ensures Streamable(env, fuel, ty)
    decreases fuel, 0, ty
  {
    hide ReadableDef; hide StreamableDef; hide Strip;
    match ty
    case Sequence(elem, _) => ReadableIsStreamable(env, fuel, elem);
    case Named(n) => if fuel > 0 && n in env { ReadableDefIsStreamable(env, fuel - 1, env[n]); }
    case _ =>
  }

  lemma {:induction false} ReadableDefIsStreamable(env: Env, fuel: nat, def: Def)
    requires ReadableDef(env, fuel, def)
    ensures StreamableDef(env, fuel, def)
    decreases fuel, 1
  {
    hide Readable; hide Streamable;
    match def
    case Struct(_, _) =>
      forall k | 0 <= k < |Fields(def)| ensures Streamable(env, fuel, Fields(def)[k].ty) {
        ReadableIsStreamable(env, fuel, Fields(def)[k].ty);
      }
    case Union(_, cases, _, _) =>
      forall i | 0 <= i < |cases| ensures Streamable(env, fuel, cases[i].ty) {
        ReadableIsStreamable(env, fuel, cases[i].ty);
      }
    case Typedef(ty, _, _) => ReadableIsStreamable(env, fuel, ty);
  }

  ghost predicate Reading(cx: Context) {
    Sound(cx) && cx.mode == Read
  }

  /** Reading succeeded with this object and consumed so many bytes. */
  predicate Yields(cx: Context, res: Option<(Val, Reader)>, root: Val, r: Reader, len: nat) {
    && res.Some? && res.value.0 == root && Ready(cx, res.value.1)
    && res.value.1.buf == r.buf && res.value.1.pos == r.pos + len
  }

  lemma HoldsSplit(buf: seq<byte>, pos: nat, a: seq<byte>, b: seq<byte>)
    requires Holds(buf, pos, a + b)
    ensures Holds(buf, pos, a) && Holds(buf, pos + |a|, b)
  {
    var all := buf[pos..pos + |a + b|];
    assert all[..|a|] == a && all[|a|..] == b;
    assert buf[pos..pos + |a|] == all[..|a|];
    assert buf[pos + |a|..pos + |a| + |b|] == all[|a|..];
  }

  lemma YieldsTrans(cx: Context, r: Reader, a: nat, b: nat, mid: Val, root: Val,
                    first: Option<(Val, Reader)>, whole: Option<(Val, Reader)>)
    requires Yields(cx, first, mid, r, a) && first.Some?
    requires Yields(cx, whole, root, first.value.1, b)
    ensures Yields(cx, whole, root, r, a + b)
  {
  }

  // ----- stream primitives -----

  lemma TakeHeld(cx: Context, r: Reader, w: Width, data: seq<byte>, count: nat)
    requires Ready(cx, r) && |data| == w * count
    requires Holds(r.buf, r.pos, Zeros(Padding(r.pos, w, cx.ma)) + data)
    ensures var t := Take(cx, r, w, |data|);
            t.Some? && t.value.0 == data && Ready(cx, t.value.1) && t.value.1.buf == r.buf
            && t.value.1.pos == r.pos + Padding(r.pos, w, cx.ma) + |data|
  {
    var pad := Zeros(Padding(r.pos, w, cx.ma));
    AlignStepRoundsUp(r.pos, r.al, w, cx.ma);
    PaddingRoundsUp(r.pos, w, cx.ma);
    AlignedAdvance(r.pos + |pad|, w, count, cx.ma);
    hide Padding;
    HoldsSplit(r.buf, r.pos, pad, data);
  }

  lemma ConvertKeeps(num: NumType, n: nat)
    requires HasNum(num, n)
    ensures Convert(num, n) == Some(n)
  {
  }

  lemma TakeNumHeld(cx: Context, r: Reader, num: NumType, n: nat)
    requires Ready(cx, r) && HasNum(num, n) && Holds(r.buf, r.pos, EncNum(cx.ma, num, n, r.pos))
    ensures var t := TakeNum(cx, r, num);
            t.Some? && t.value.0 == n && Ready(cx, t.value.1) && t.value.1.buf == r.buf
            && t.value.1.pos == r.pos + |EncNum(cx.ma, num, n, r.pos)|
  {
    hide Padding; hide Range; hide AlignStep;
    TakeHeld(cx, r, num.width, Bytes(n, num.width), 1);
    NumberOfBytes(n, num.width);
    ConvertKeeps(num, n);
  }

  lemma TakeTextHeld(cx: Context, r: Reader, bound: nat, s: seq<byte>)
    requires Ready(cx, r) && (bound > 0 ==> |s| <= bound) && |s| + 1 < UINT32_LIMIT
    requires Holds(r.buf, r.pos, EncText(cx.ma, s, r.pos))
    ensures var t := TakeText(cx, r, bound);
            t.Some? && t.value.0 == s && Ready(cx, t.value.1) && t.value.1.buf == r.buf
            && t.value.1.pos == r.pos + |EncText(cx.ma, s, r.pos)|
  {
    hide EncNum;
    var len := EncNum(cx.ma, LENGTH, |s| + 1, r.pos);
    assert EncText(cx.ma, s, r.pos) == len + (s + [0]);
    HoldsSplit(r.buf, r.pos, len, s + [0]);
    Ranges();
    TakeNumHeld(cx, r, LENGTH, |s| + 1);
    var r' := TakeNum(cx, r, LENGTH).value.1;
    hide TakeNum;
    assert Holds(r'.buf, r'.pos, s + [0]);
    HoldsSplit(r'.buf, r'.pos, s, [0]);
    assert r'.buf[r'.pos..r'.pos + |s|] == s;
  }

  lemma BulkParts(kids: seq<Val>, w: Width)
    requires AllNums(kids) && kids != []
    ensures AllNums(kids[1..])
    ensures BulkBytes(kids, w)[..w] == Bytes(kids[0].n, w) && BulkBytes(kids, w)[w..] == BulkBytes(kids[1..], w)
  {
    hide Bytes;
    assert BulkBytes(kids, w) == Bytes(kids[0].n, w) + BulkBytes(kids[1..], w);
  }

  lemma ChopParts(bytes: seq<byte>, w: Width, count: nat)
    requires count > 0 && |bytes| == w * count
    ensures |bytes[w..]| == w * (count - 1)
    ensures Chop(bytes, w, count) == [VNum(Number(bytes[..w]))] + Chop(bytes[w..], w, count - 1)
  {
    hide Number;
  }

  /** One block read out of memory is cut into the numbers it was put together from. */
  lemma {:induction false} ChopBulk(kids: seq<Val>, w: Width)
    requires forall k :: 0 <= k < |kids| ==> kids[k].VNum? && kids[k].n < Range(w)
    ensures AllNums(kids) && Chop(BulkBytes(kids, w), w, |kids|) == kids
  {
    hide Range; hide Number; hide Bytes; hide BulkBytes;
    if kids == [] {
      assert Chop(BulkBytes(kids, w), w, 0) == [];
    } else {
      assert forall k :: 0 <= k < |kids[1..]| ==> kids[1..][k] == kids[k + 1];
      ChopBulk(kids[1..], w);
      NumberOfBytes(kids[0].n, w);
      BulkParts(kids, w);
      ChopParts(BulkBytes(kids, w), w, |kids|);
      hide Chop;
      assert [VNum(kids[0].n)] + kids[1..] == kids;
    }
  }

  predicate AllHave(num: NumType, kids: seq<Val>) {
    AllNums(kids) && forall k :: 0 <= k < |kids| ==> HasNum(num, kids[k].n)
  }

  lemma AllHaveTail(num: NumType, kids: seq<Val>)
    requires AllHave(num, kids) && kids != []
    ensures AllNums(kids) && kids[0].VNum? && HasNum(num, kids[0].n) && AllNums(kids[1..]) && AllHave(num, kids[1..])
    ensures [VNum(kids[0].n)] + kids[1..] == kids
  {
    hide HasNum;
    assert forall k :: 0 <= k < |kids[1..]| ==> kids[1..][k] == kids[k + 1];
  }

  /** Taking from the stream gave this and consumed so many bytes. */
  predicate Takes<T(==)>(cx: Context, t: Option<(T, Reader)>, x: T, r: Reader, len: nat) {
    t.Some? && t.value.0 == x && Ready(cx, t.value.1) && t.value.1.buf == r.buf && t.value.1.pos == r.pos + len
  }

  lemma TakeEachNone(cx: Context, r: Reader, num: NumType, kids: seq<Val>)
    requires Ready(cx, r) && kids == []
    ensures Takes(cx, TakeEach(cx, r, num, |kids|), kids, r, |Bulk(cx.ma, kids, num.width, r.pos)|)
  {
    hide Ready;
  }

  lemma TakeEachStep(cx: Context, r: Reader, num: NumType, kids: seq<Val>, r': Reader, len: nat, rest: nat)
    requires kids != [] && kids[0].VNum? && [VNum(kids[0].n)] + kids[1..] == kids
    requires TakeNum(cx, r, num) == Some((kids[0].n, r')) && r'.buf == r.buf && r'.pos == r.pos + len
    requires Takes(cx, TakeEach(cx, r', num, |kids[1..]|), kids[1..], r', rest)
    ensures Takes(cx, TakeEach(cx, r, num, |kids|), kids, r, len + rest)
  {
    hide TakeNum; hide Ready;
  }

  /** An enum vector is converted one by one; what was written as a block is read back all the same. */
  lemma {:induction false} TakeEachHeld(cx: Context, r: Reader, num: NumType, kids: seq<Val>)
    requires Ready(cx, r) && AllHave(num, kids) && Holds(r.buf, r.pos, Bulk(cx.ma, kids, num.width, r.pos))
    ensures Takes(cx, TakeEach(cx, r, num, |kids|), kids, r, |Bulk(cx.ma, kids, num.width, r.pos)|)
    decreases |kids|
  {
    hide *;
    if kids == [] {
      TakeEachNone(cx, r, num, kids);
    } else {
      AllHaveTail(num, kids);
      var first := EncNum(cx.ma, num, kids[0].n, r.pos);
      var rest := Bulk(cx.ma, kids[1..], num.width, r.pos + |first|);
      BulkStep(cx.ma, num, kids, r.pos);
      HoldsSplit(r.buf, r.pos, first, rest);
      TakeNumHeld(cx, r, num, kids[0].n);
      var r' := TakeNum(cx, r, num).value.1;
      TakeEachHeld(cx, r', num, kids[1..]);
      TakeEachStep(cx, r, num, kids, r', |first|, |rest|);
    }
  }

  lemma TakeNumsHeld(cx: Context, r: Reader, num: NumType, kids: seq<Val>)
    requires Ready(cx, r) && kids != [] && AllHave(num, kids) &&
             Holds(r.buf, r.pos, Bulk(cx.ma, kids, num.width, r.pos))
    ensures Takes(cx, TakeNums(cx, r, num, |kids|), kids, r, |Bulk(cx.ma, kids, num.width, r.pos)|)
  {
    if num.kind.Enumeration? {
      TakeEachHeld(cx, r, num, kids);
    } else {
      TakeHeld(cx, r, num.width, BulkBytes(kids, num.width), |kids|);
      ChopBulk(kids, num.width);
    }
  }

  // ----- programs -----

  lemma ReadSingle(cx: Context, fuel: nat, op: Op, scope: Scope, root: Val, r: Reader)
    ensures ReadOps(cx, fuel, [op], scope, root, r) == ReadOp(cx, fuel, op, scope, root, r)
  {
    hide ReadOp;
    assert [op][1..] == [];
    var t := ReadOp(cx, fuel, op, scope, root, r);
    if t.Some? {
      assert ReadOps(cx, fuel, [], scope, t.value.0, t.value.1) == Some((t.value.0, t.value.1));
    }
  }

  /** The accessor names a part of the object. */
  predicate Denotes(acc: Accessor, scope: Scope, root: Val, x: Val) {
    Eval(acc, scope).Some? && Get(root, Eval(acc, scope).value) == Some(x)
  }

  /** The object with the part the accessor names replaced. */
  function Stored(root: Val, acc: Accessor, scope: Scope, x: Val): Val {
    if Eval(acc, scope).Some? then Put(root, Eval(acc, scope).value, x) else root
  }

  /** The accessor names a place for a number or a string. */
  predicate IsScalar(acc: Accessor, scope: Scope, root: Val) {
    Eval(acc, scope).Some? && !IsNode(root, Eval(acc, scope).value)
  }

  lemma BareIsScalar(env: Env, fuel: nat, ty: Type, acc: Accessor, scope: Scope, root: Val, x: Val)
    requires Readable(env, fuel, ty) && !ty.Sequence? && (ty.Named? ==> IsBareTypedef(env, ty.name))
    requires Receptive(env, fuel, ty, x) && Denotes(acc, scope, root, x)
    ensures IsScalar(acc, scope, root)
  {
    if ty.Named? {
      var target := env[ty.name].ty;
      assert ReceptiveArray(env, fuel - 1, [], target, x) && Receptive(env, fuel - 1, target, x);
    }
  }

  lemma ReadNumber(cx: Context, fuel: nat, num: NumType, acc: Accessor, inVector: bool, scope: Scope, root: Val,
                   r: Reader, n: nat)
    requires HasNum(num, n) && Ready(cx, r) && IsScalar(acc, scope, root) &&
             Holds(r.buf, r.pos, EncNum(cx.ma, num, n, r.pos))
    ensures Yields(cx, ReadOps(cx, fuel, NumOps(num, acc, inVector), scope, root, r),
                   Stored(root, acc, scope, VNum(n)), r, |EncNum(cx.ma, num, n, r.pos)|)
  {
    hide TakeNum; hide EncNum; hide Holds; hide Aligned; hide Put; hide Eval; hide Get;
    TakeNumHeld(cx, r, num, n);
    ReadSingle(cx, fuel, NumOps(num, acc, inVector)[0], scope, root, r);
    hide ReadOps;
  }

  lemma ReadString(cx: Context, fuel: nat, bound: nat, acc: Accessor, scope: Scope, root: Val, r: Reader, s: seq<byte>)
    requires (bound > 0 ==> |s| <= bound) && |s| + 1 < UINT32_LIMIT && Ready(cx, r)
    requires IsScalar(acc, scope, root) && Holds(r.buf, r.pos, EncText(cx.ma, s, r.pos))
    ensures Yields(cx, ReadOps(cx, fuel, [Text(acc, bound)], scope, root, r),
                   Stored(root, acc, scope, VText(s)), r, |EncText(cx.ma, s, r.pos)|)
  {
    hide TakeText; hide EncText; hide Holds; hide Aligned; hide Put; hide Eval; hide Get;
    TakeTextHeld(cx, r, bound, s);
    ReadSingle(cx, fuel, Text(acc, bound), scope, root, r);
    hide ReadOps;
  }

  lemma ReadBare(cx: Context, fuel: nat, ty: Type, acc: Accessor, inVector: bool, scope: Scope, root: Val, r: Reader,
                 v: Val)
    requires (ty.Num? || ty.Str?) && HasType(cx.env, fuel, ty, v) && Ready(cx, r)
    requires IsScalar(acc, scope, root) && Holds(r.buf, r.pos, Enc(cx.env, cx.ma, fuel, ty, v, r.pos))
    ensures Yields(cx, ReadOps(cx, fuel, StreamOps(cx.env, ty, acc, inVector), scope, root, r),
                   Stored(root, acc, scope, v), r, |Enc(cx.env, cx.ma, fuel, ty, v, r.pos)|)
  {
    hide ReadOps; hide Holds; hide Ready; hide Yields; hide Stored; hide EncNum; hide EncText; hide NumOps;
    hide IsScalar;
    match ty
    case Num(num) => ReadNumber(cx, fuel, num, acc, inVector, scope, root, r, v.n);
    case Str(bound) => ReadString(cx, fuel, bound, acc, scope, root, r, v.s);
  }

  lemma ReadCallUnfold(cx: Context, fuel: nat, n: Name, acc: Accessor, scope: Scope, root: Val, r: Reader, x: Val)
    requires fuel > 0 && n in cx.code && Denotes(acc, scope, root, x) && !IsBit(cx.env, acc, n)
    ensures ReadOps(cx, fuel, [Call(n, acc)], scope, root, r) ==
            match ReadProg(cx, fuel - 1, cx.code[n], x, r)
            case None => None
            case Some((x', r')) => Some((Stored(root, acc, scope, x'), r'))
  {
    hide ReadProg;
    ReadSingle(cx, fuel, Call(n, acc), scope, root, r);
  }

  /** Code for one object reads the value into the place its accessor names, and nowhere else. */
  lemma {:induction false} ReadType(cx: Context, fuel: nat, ty: Type, acc: Accessor, depth: nat, inVector: bool,
                                    scope: Scope, root: Val, r: Reader, x: Val, v: Val)
    requires Reading(cx) && Ready(cx, r)
    requires HasType(cx.env, fuel, ty, v) && Receptive(cx.env, fuel, ty, x) && Readable(cx.env, fuel, ty)
    requires ty.Named? && IsBit(cx.env, acc, ty.name) ==> IsBareTypedef(cx.env, ty.name)
    requires Below(acc, depth) && Denotes(acc, scope, root, x)
    requires Holds(r.buf, r.pos, Enc(cx.env, cx.ma, fuel, ty, v, r.pos))
    ensures Yields(cx, ReadOps(cx, fuel, TypeOps(cx.env, Read, ty, acc, depth, inVector), scope, root, r),
                   Stored(root, acc, scope, v), r, |Enc(cx.env, cx.ma, fuel, ty, v, r.pos)|)
    decreases fuel, 0, ty, 0, 0, 0
  {
    hide ReadOps; hide ReadOp; hide ReadProg; hide EncDef; hide EncAll; hide ProgOf; hide VectorOps; hide WellFormedDef;
    hide Get; hide Eval; hide Stored; hide Ready; hide Holds; hide HasDef; hide ReceptiveDef; hide HasTypeAll;
    hide AllReceptive; hide ReadableDef;
    if ty.Sequence? {
      ReadVector(cx, fuel, ty.elem, ty.bound, acc, depth, scope, root, r, x.kids, v.kids);
    } else if ty.Named? && !IsBareTypedef(cx.env, ty.name) {
      ReadCallUnfold(cx, fuel, ty.name, acc, scope, root, r, x);
      ReadDefinition(cx, fuel - 1, cx.env[ty.name], x, r, v);
    } else {
      ReadableIsStreamable(cx.env, fuel, ty);
      BareKeepsMeaning(cx.env, cx.ma, fuel, ty, v, r.pos);
      BareIsScalar(cx.env, fuel, ty, acc, scope, root, x);
      ReadBare(cx, fuel, Bare(cx.env, ty), acc, inVector, scope, root, r, v);
    }
  }

  /** The bound is compared with the size the vector has, before the new length is read. */
  lemma ReadVectorUnfold(cx: Context, fuel: nat, elem: Type, bound: nat, acc: Accessor, depth: nat,
                         scope: Scope, root: Val, r: Reader, cur: seq<Val>)
    requires Denotes(acc, scope, root, VNode(cur))
    ensures ReadOps(cx, fuel, VectorOps(cx.env, Read, elem, bound, depth, acc), scope, root, r) ==
            if bound > 0 && |cur| % UINT32_LIMIT > bound then None
            else match TakeNum(cx, r, LENGTH)
              case None => None
              case Some((n, r')) =>
                ReadOp(cx, fuel, ElementOps(cx.env, Read, elem, depth, acc)[0], WithLength(scope, depth, n),
                       Stored(root, acc, scope, VNode(Resized(cur, n, Default(cx.env, fuel, elem)))), r')
  {
    var ops := VectorOps(cx.env, Read, elem, bound, depth, acc);
    var body := ElementOps(cx.env, Read, elem, depth, acc);
    var counted := ops[0].body[0];
    assert ops == [ops[0]] && ops[0].body == [counted] && counted.body == body == [body[0]];
    hide ElementOps; hide TakeNum; hide VectorOps; hide Eval; hide Get; hide Put; hide Default; hide Resized;
    ReadSingle(cx, fuel, ops[0], scope, root, r);
    ReadSingle(cx, fuel, counted, scope, root, r);
    hide ReadOps;
    var t := TakeNum(cx, r, LENGTH);
    if t.Some? {
      var n := t.value.0;
      ReadSingle(cx, fuel, body[0], WithLength(scope, depth, n),
                 Stored(root, acc, scope, VNode(Resized(cur, n, Default(cx.env, fuel, elem)))), t.value.1);
    }
  }

  lemma {:induction false} ReadVector(cx: Context, fuel: nat, elem: Type, bound: nat, acc: Accessor, depth: nat,
                                      scope: Scope, root: Val, r: Reader, cur: seq<Val>, kids: seq<Val>)
    requires Reading(cx) && Ready(cx, r)
    requires HasTypeAll(cx.env, fuel, [], elem, kids) && |kids| < UINT32_LIMIT
    requires Readable(cx.env, fuel, Sequence(elem, bound))
    requires Below(acc, depth) && Denotes(acc, scope, root, VNode(cur)) && AllReceptive(cx.env, fuel, [], elem, cur, 0)
    requires bound > 0 ==> |cur| % UINT32_LIMIT <= bound
    requires var len := EncNum(cx.ma, LENGTH, |kids|, r.pos);
             Holds(r.buf, r.pos, len + EncAll(cx.env, cx.ma, fuel, [], elem, kids, r.pos + |len|))
    ensures var len := EncNum(cx.ma, LENGTH, |kids|, r.pos);
            Yields(cx, ReadOps(cx, fuel, VectorOps(cx.env, Read, elem, bound, depth, acc), scope, root, r),
                   Stored(root, acc, scope, VNode(kids)), r, |len|
                     + |EncAll(cx.env, cx.ma, fuel, [], elem, kids, r.pos + |len|)|)
    decreases fuel, 0, elem, 0, 4, 0
  {
    hide Reading; hide ReadOps; hide ReadOp; hide EncAll; hide VectorOps; hide ElementOps; hide TakeNum; hide EncNum;
    hide HasTypeAll; hide Default; hide Resized;
    var len := EncNum(cx.ma, LENGTH, |kids|, r.pos);
    ReadVectorUnfold(cx, fuel, elem, bound, acc, depth, scope, root, r, cur);
    HoldsSplit(r.buf, r.pos, len, EncAll(cx.env, cx.ma, fuel, [], elem, kids, r.pos + |len|));
    Ranges();
    TakeNumHeld(cx, r, LENGTH, |kids|);
    var r' := TakeNum(cx, r, LENGTH).value.1;
    var init := Resized(cur, |kids|, Default(cx.env, fuel, elem));
    ResizedIsReceptive(cx.env, fuel, elem, cur, kids);
    NoCapture(acc, scope, depth, 0, |kids|);
    var p := Eval(acc, scope).value;
    GetPut(root, p, VNode(init));
    PutPut(root, p, VNode(init), VNode(kids));
    hide Get; hide Put; hide Eval; hide AllReceptive;
    ReadElements(cx, fuel, elem, acc, depth, WithLength(scope, depth, |kids|), Stored(root, acc, scope, VNode(init)),
                 r', init, kids);
  }

  /** Making room keeps elements and fills up with default-constructed ones. */
  lemma ResizedIsReceptive(env: Env, fuel: nat, elem: Type, cur: seq<Val>, kids: seq<Val>)
    requires HasTypeAll(env, fuel, [], elem, kids) && AllReceptive(env, fuel, [], elem, cur, 0)
    ensures AllReceptive(env, fuel, [], elem, Resized(cur, |kids|, Default(env, fuel, elem)), 0)
  {
    if kids != [] {
      assert HasArray(env, fuel, [], elem, kids[0]);
      DefaultIsReceptive(env, fuel, [], elem, kids[0]);
    }
    hide Receptive; hide ReceptiveArray;
    var filler := Default(env, fuel, elem);
    assert kids != [] ==> ReceptiveArray(env, fuel, [], elem, filler);
    forall k | 0 <= k < |kids| ensures ReceptiveArray(env, fuel, [], elem, Resized(cur, |kids|, filler)[k]) {
      if k < |cur| { assert ReceptiveArray(env, fuel, [], elem, cur[k]); }
    }
  }

  lemma {:induction false} ReadElements(cx: Context, fuel: nat, elem: Type, acc: Accessor, depth: nat,
                                        scope: Scope, root: Val, r: Reader, init: seq<Val>, kids: seq<Val>)
    requires Reading(cx) && Ready(cx, r)
    requires HasTypeAll(cx.env, fuel, [], elem, kids) && |init| == |kids| &&
             AllReceptive(cx.env, fuel, [], elem, init, 0)
    requires Readable(cx.env, fuel, Sequence(elem, 0))
    requires depth in scope.length && scope.length[depth] == |kids|
    requires Below(acc, depth) && Denotes(acc, scope, root, VNode(init))
    requires Holds(r.buf, r.pos, EncAll(cx.env, cx.ma, fuel, [], elem, kids, r.pos))
    ensures Yields(cx, ReadOp(cx, fuel, ElementOps(cx.env, Read, elem, depth, acc)[0], scope, root, r),
                   Stored(root, acc, scope, VNode(kids)), r, |EncAll(cx.env, cx.ma, fuel, [], elem, kids, r.pos)|)
    decreases fuel, 0, elem, 0, 3, 1
  {
    hide Reading; hide ReadFor; hide EncAll; hide TypeOps; hide AllReceptive; hide HasTypeAll; hide TakeNums;
    if Contiguous(elem) {
      ReadBulkVector(cx, fuel, elem, acc, depth, scope, root, r, init, kids);
    } else {
      assert kids[0..] == kids;
      ReadVectorLoop(cx, fuel, elem, acc, depth, scope, root, r, init, kids, 0);
    }
  }

  lemma ReadBulkVector(cx: Context, fuel: nat, elem: Type, acc: Accessor, depth: nat,
                       scope: Scope, root: Val, r: Reader, init: seq<Val>, kids: seq<Val>)
    requires Ready(cx, r) && Contiguous(elem)
    requires HasTypeAll(cx.env, fuel, [], elem, kids) && |init| == |kids| && depth in scope.length &&
             scope.length[depth] == |kids|
    requires Denotes(acc, scope, root, VNode(init)) &&
             Holds(r.buf, r.pos, EncAll(cx.env, cx.ma, fuel, [], elem, kids, r.pos))
    ensures Yields(cx, ReadOp(cx, fuel, BulkVector(acc, depth, elem.num), scope, root, r),
                   Stored(root, acc, scope, VNode(kids)), r, |EncAll(cx.env, cx.ma, fuel, [], elem, kids, r.pos)|)
  {
    NumsOfType(cx.env, cx.ma, fuel, elem, kids);
    BulkIsEach(cx.env, cx.ma, fuel, elem, kids, r.pos);
    hide *;
    DenotesPath(acc, scope, root, init);
    if kids == [] {
      NothingInBulk(cx, fuel, elem.num, acc, depth, scope, root, r, init);
    } else {
      NumbersHave(elem.num, kids);
      TakeNumsHeld(cx, r, elem.num, kids);
      BulkRead(cx, fuel, elem.num, acc, depth, scope, root, r, kids, |Bulk(cx.ma, kids, elem.num.width, r.pos)|);
    }
  }

  lemma NumbersHave(num: NumType, kids: seq<Val>)
    requires forall k :: 0 <= k < |kids| ==> kids[k].VNum? && HasNum(num, kids[k].n)
    ensures AllHave(num, kids)
  {
    hide HasNum;
  }

  lemma NothingInBulk(cx: Context, fuel: nat, num: NumType, acc: Accessor, depth: nat, scope: Scope, root: Val,
                      r: Reader, init: seq<Val>)
    requires Ready(cx, r) && |init| == 0 && depth in scope.length && scope.length[depth] == 0 &&
             Denotes(acc, scope, root, VNode(init))
    ensures Yields(cx, ReadOp(cx, fuel, BulkVector(acc, depth, num), scope, root, r),
                   Stored(root, acc, scope, VNode([])), r,
                   |Bulk(cx.ma, [], num.width, r.pos)|)
  {
    hide Ready; hide Get; hide Put; hide Eval;
    assert init == [];
    PutGet(root, Eval(acc, scope).value);
  }

  lemma BulkRead(cx: Context, fuel: nat, num: NumType, acc: Accessor, depth: nat, scope: Scope, root: Val, r: Reader,
                 kids: seq<Val>, len: nat)
    requires depth in scope.length && scope.length[depth] == |kids| > 0 && Eval(acc, scope).Some?
    requires Takes(cx, TakeNums(cx, r, num, |kids|), kids, r, len)
    ensures Yields(cx, ReadOp(cx, fuel, BulkVector(acc, depth, num), scope, root, r),
                   Stored(root, acc, scope, VNode(kids)), r, len)
  {
    hide TakeNums; hide Ready; hide Put; hide Eval;
  }

  lemma YieldsParts(cx: Context, res: Option<(Val, Reader)>, root: Val, r: Reader, len: nat)
    requires Yields(cx, res, root, r, len)
    ensures res.Some? && res.value.0 == root && Ready(cx, res.value.1)
    ensures res.value.1.buf == r.buf && res.value.1.pos == r.pos + len
  {
  }

  lemma DenotesPath(acc: Accessor, scope: Scope, root: Val, cur: seq<Val>)
    requires Denotes(acc, scope, root, VNode(cur))
    ensures Eval(acc, scope).Some?
  {
  }

  lemma ReadForStep(cx: Context, fuel: nat, loop: Loop, body: seq<Op>, j: nat, n: nat, scope: Scope, root: Val,
                    r: Reader,
                    mid: Val, last: Val, a: nat, b: nat)
    requires j < n
    requires var first := ReadOps(cx, fuel, body, Bind(scope, loop, j), root, r);
             Yields(cx, first, mid, r, a) &&
             Yields(cx, ReadFor(cx, fuel, loop, body, j + 1, n, scope, mid, first.value.1), last, first.value.1, b)
    ensures Yields(cx, ReadFor(cx, fuel, loop, body, j, n, scope, root, r), last, r, a + b)
  {
    hide ReadOps;
  }

  /** After a round of a loop over `cur`, one more element holds its final value. */
  lemma NextElement(env: Env, fuel: nat, dims: seq<nat>, ty: Type, acc: Accessor, scope: Scope, root: Val,
                    cur: seq<Val>, kids: seq<Val>, j: nat)
    requires Denotes(acc, scope, root, VNode(cur)) && j < |cur| == |kids| && cur[..j] == kids[..j]
    requires AllReceptive(env, fuel, dims, ty, cur, j)
    ensures Eval(acc, scope).Some?
    ensures var p := Eval(acc, scope).value;
            var next := cur[j := kids[j]];
            && Get(root, p + [j]) == Some(cur[j]) && ReceptiveArray(env, fuel, dims, ty, cur[j])
            && Put(root, p + [j], kids[j]) == Stored(root, acc, scope, VNode(next))
            && Denotes(acc, scope, Stored(root, acc, scope, VNode(next)), VNode(next))
            && next[..j + 1] == kids[..j + 1] && AllReceptive(env, fuel, dims, ty, next, j + 1)
            && Stored(Stored(root, acc, scope, VNode(next)), acc, scope, VNode(kids)) ==
              Stored(root, acc, scope, VNode(kids))
  {
    hide ReceptiveArray; hide Eval;
    var p := Eval(acc, scope).value;
    var next := cur[j := kids[j]];
    GetChild(root, p, j);
    PutChild(root, p, cur, j, kids[j]);
    GetPut(root, p, VNode(next));
    PutPut(root, p, VNode(next), VNode(kids));
    assert forall k :: j < k < |cur| ==> next[k] == cur[k];
    assert next[..j + 1] == cur[..j] + [kids[j]] == kids[..j + 1];
  }

  lemma ReadDone(cx: Context, env: Env, fuel: nat, dims: seq<nat>, ty: Type, loop: Loop, body: seq<Op>, acc: Accessor,
                 scope: Scope, root: Val, r: Reader, cur: seq<Val>, kids: seq<Val>)
    requires Ready(cx, r) && Denotes(acc, scope, root, VNode(cur)) && |cur| == |kids| && cur[..|kids|] == kids[..|kids|]
    ensures Yields(cx, ReadFor(cx, fuel, loop, body, |kids|, |kids|, scope, root, r),
                   Stored(root, acc, scope, VNode(kids)), r,
                   |EncAll(env, cx.ma, fuel, dims, ty, kids[|kids|..], r.pos)|)
  {
    hide ReadOps; hide EncArray;
    assert cur == kids && kids[|kids|..] == [];
    PutGet(root, Eval(acc, scope).value);
  }

  lemma FirstOfReceptive(env: Env, fuel: nat, ty: Type, x: Val)
    requires ReceptiveArray(env, fuel, [], ty, x)
    ensures Receptive(env, fuel, ty, x)
  {
  }

  lemma ReadableElement(env: Env, fuel: nat, elem: Type, acc: Accessor, depth: nat)
    requires Readable(env, fuel, Sequence(elem, 0))
    ensures Readable(env, fuel, elem)
    ensures elem.Named? && IsBit(env, Element(acc, depth), elem.name) ==> IsBareTypedef(env, elem.name)
  {
  }

  /** The part a round of a loop works on, named as the body names it. */
  lemma VectorPart(acc: Accessor, depth: nat, scope: Scope, root: Val, j: nat, x: Val, y: Val)
    requires Below(acc, depth) && Eval(acc, scope).Some? && Get(root, Eval(acc, scope).value + [j]) == Some(x)
    ensures var inner := Bind(scope, OverIndex(depth), j);
            && Below(Element(acc, depth), depth + 1) && Denotes(Element(acc, depth), inner, root, x)
            && Stored(root, Element(acc, depth), inner, y) == Put(root, Eval(acc, scope).value + [j], y)
  {
    NoCapture(acc, scope, depth, j, 0);
    BelowDeeper(acc, depth, depth + 1);
  }

  lemma ArrayPart(n: nat, path: Path, scope: Scope, root: Val, j: nat, x: Val, y: Val)
    requires Get(root, path + [j]) == Some(x)
    ensures var inner := Bind(scope, OverArray(n + 1, path), j);
            && Below(ArrayVar(n + 1), 1) && Denotes(ArrayVar(n + 1), inner, root, x)
            && Stored(root, ArrayVar(n + 1), inner, y) == Put(root, path + [j], y)
  {
  }

  lemma {:induction false} ReadVectorLoop(cx: Context, fuel: nat, elem: Type, acc: Accessor, depth: nat,
                                          scope: Scope, root: Val, r: Reader, cur: seq<Val>, kids: seq<Val>, j: nat)
    requires Reading(cx) && Ready(cx, r)
    requires HasTypeAll(cx.env, fuel, [], elem, kids) && j <= |cur| == |kids| && cur[..j] == kids[..j]
    requires AllReceptive(cx.env, fuel, [], elem, cur, j) && Readable(cx.env, fuel, Sequence(elem, 0))
    requires Below(acc, depth) && Denotes(acc, scope, root, VNode(cur))
    requires Holds(r.buf, r.pos, EncAll(cx.env, cx.ma, fuel, [], elem, kids[j..], r.pos))
    ensures Yields(cx, ReadFor(cx, fuel, OverIndex(depth),
                               TypeOps(cx.env, Read, elem, Element(acc, depth), depth + 1, true),
                               j, |kids|, scope, root, r),
                   Stored(root, acc, scope, VNode(kids)), r, |EncAll(cx.env, cx.ma, fuel, [], elem, kids[j..], r.pos)|)
    decreases fuel, 0, elem, 0, 2, |kids| - j
  {
    hide *;
    var loop := OverIndex(depth);
    var body := TypeOps(cx.env, Read, elem, Element(acc, depth), depth + 1, true);
    if j == |kids| {
      ReadDone(cx, cx.env, fuel, [], elem, loop, body, acc, scope, root, r, cur, kids);
    } else {
      var next := cur[j := kids[j]];
      var mid := Stored(root, acc, scope, VNode(next));
      ElementOfAll(cx.env, cx.ma, fuel, elem, kids, j, r.pos);
      EncAllStep(cx.env, cx.ma, fuel, [], elem, kids, j, r.pos);
      NextElement(cx.env, fuel, [], elem, acc, scope, root, cur, kids, j);
      FirstOfReceptive(cx.env, fuel, elem, cur[j]);
      ReadableElement(cx.env, fuel, elem, acc, depth);
      VectorPart(acc, depth, scope, root, j, cur[j], kids[j]);
      var inner := Bind(scope, loop, j);
      var enc := EncArray(cx.env, cx.ma, fuel, [], elem, kids[j], r.pos);
      var rest := EncAll(cx.env, cx.ma, fuel, [], elem, kids[j + 1..], r.pos + |enc|);
      HoldsSplit(r.buf, r.pos, enc, rest);
      ReadType(cx, fuel, elem, Element(acc, depth), depth + 1, true, inner, root, r, cur[j], kids[j]);
      var first := ReadOps(cx, fuel, body, inner, root, r);
      YieldsParts(cx, first, mid, r, |enc|);
      ReadVectorLoop(cx, fuel, elem, acc, depth, scope, mid, first.value.1, next, kids, j + 1);
      ReadForStep(cx, fuel, loop, body, j, |kids|, scope, root, r, mid, Stored(root, acc, scope, VNode(kids)), |enc|,
                  |rest|);
    }
  }

  lemma {:induction false} ReadArray(cx: Context, fuel: nat, dims: seq<nat>, ty: Type, n: nat, acc: Accessor,
                                     scope: Scope, root: Val, r: Reader, x: Val, v: Val)
    requires Reading(cx) && Ready(cx, r)
    requires HasArray(cx.env, fuel, dims, ty, v) && ReceptiveArray(cx.env, fuel, dims, ty, x)
    requires Below(acc, 1) && Denotes(acc, scope, root, x) && !acc.Element? && Readable(cx.env, fuel, ty)
    requires Holds(r.buf, r.pos, EncArray(cx.env, cx.ma, fuel, dims, ty, v, r.pos))
    ensures Yields(cx, ReadOps(cx, fuel, ArrayOps(cx.env, Read, dims, ty, n, acc), scope, root, r),
                   Stored(root, acc, scope, v), r, |EncArray(cx.env, cx.ma, fuel, dims, ty, v, r.pos)|)
    decreases fuel, 0, ty, |dims|, 1, 0
  {
    hide Reading; hide ReadOps; hide Get; hide Put; hide Eval;
    if dims == [] {
      ReadType(cx, fuel, ty, acc, 1, false, scope, root, r, x, v);
    } else if |dims| == 1 && Strip(cx.env, ty).Num? {
      assert dims[1..] == [];
      ReadBulkArray(cx, fuel, dims[0], ty, acc, scope, root, r, v.kids);
    } else {
      ReadArrayUnfold(cx, fuel, dims, ty, n, acc, scope, root, r);
      assert v.kids[0..] == v.kids;
      hide ReadFor; hide EncAll; hide ArrayOps; hide HasTypeAll;
      ReadArrayLoop(cx, fuel, dims[1..], ty, n, acc, scope, root, r, x.kids, v.kids, 0);
    }
  }

  lemma ReadBulkArray(cx: Context, fuel: nat, dim: nat, ty: Type, acc: Accessor, scope: Scope, root: Val, r: Reader,
                      kids: seq<Val>)
    requires Ready(cx, r) && |kids| == dim > 0
    requires HasTypeAll(cx.env, fuel, [], ty, kids) && Strip(cx.env, ty).Num?
    requires Eval(acc, scope).Some? && Holds(r.buf, r.pos, EncAll(cx.env, cx.ma, fuel, [], ty, kids, r.pos))
    ensures Yields(cx, ReadOps(cx, fuel, [BulkArray(acc, Strip(cx.env, ty).num, dim)], scope, root, r),
                   Stored(root, acc, scope, VNode(kids)), r, |EncAll(cx.env, cx.ma, fuel, [], ty, kids, r.pos)|)
  {
    var num := Strip(cx.env, ty).num;
    NumsOfType(cx.env, cx.ma, fuel, ty, kids);
    BulkIsEach(cx.env, cx.ma, fuel, ty, kids, r.pos);
    hide EncAll; hide HasTypeAll; hide Strip; hide TakeNums;
    TakeNumsHeld(cx, r, num, kids);
    ReadSingle(cx, fuel, BulkArray(acc, num, dim), scope, root, r);
    hide ReadOps;
  }

  lemma ReadArrayUnfold(cx: Context, fuel: nat, dims: seq<nat>, ty: Type, n: nat, acc: Accessor, scope: Scope,
                        root: Val, r: Reader)
    requires dims != [] && !(|dims| == 1 && Strip(cx.env, ty).Num?) && Eval(acc, scope).Some?
    ensures ReadOps(cx, fuel, ArrayOps(cx.env, Read, dims, ty, n, acc), scope, root, r) ==
            ReadFor(cx, fuel, OverArray(n + 1, Eval(acc, scope).value),
                    ArrayOps(cx.env, Read, dims[1..], ty, n + 1, ArrayVar(n + 1)), 0, dims[0], scope, root, r)
  {
    var body := ArrayOps(cx.env, Read, dims[1..], ty, n + 1, ArrayVar(n + 1));
    hide ReadFor;
    ReadSingle(cx, fuel, ForArray(n + 1, acc, dims[0], body), scope, root, r);
  }

  lemma {:induction false} ReadArrayLoop(cx: Context, fuel: nat, dims: seq<nat>, ty: Type, n: nat, acc: Accessor,
                                         scope: Scope, root: Val, r: Reader, cur: seq<Val>, kids: seq<Val>, j: nat)
    requires Reading(cx) && Ready(cx, r)
    requires HasTypeAll(cx.env, fuel, dims, ty, kids) && j <= |cur| == |kids| && cur[..j] == kids[..j]
    requires AllReceptive(cx.env, fuel, dims, ty, cur, j) && Readable(cx.env, fuel, ty)
    requires Denotes(acc, scope, root, VNode(cur))
    requires Holds(r.buf, r.pos, EncAll(cx.env, cx.ma, fuel, dims, ty, kids[j..], r.pos))
    ensures Yields(cx, ReadFor(cx, fuel, OverArray(n + 1, Eval(acc, scope).value),
                               ArrayOps(cx.env, Read, dims, ty, n + 1, ArrayVar(n + 1)), j, |kids|, scope, root, r),
                   Stored(root, acc, scope, VNode(kids)), r, |EncAll(cx.env, cx.ma, fuel, dims, ty, kids[j..], r.pos)|)
    decreases fuel, 0, ty, |dims|, 2, |kids| - j
  {
    hide *;
    DenotesPath(acc, scope, root, cur);
    var path := Eval(acc, scope).value;
    var loop := OverArray(n + 1, path);
    var body := ArrayOps(cx.env, Read, dims, ty, n + 1, ArrayVar(n + 1));
    if j == |kids| {
      ReadDone(cx, cx.env, fuel, dims, ty, loop, body, acc, scope, root, r, cur, kids);
    } else {
      var next := cur[j := kids[j]];
      var mid := Stored(root, acc, scope, VNode(next));
      ItemOfAll(cx.env, fuel, dims, ty, kids, j);
      EncAllStep(cx.env, cx.ma, fuel, dims, ty, kids, j, r.pos);
      NextElement(cx.env, fuel, dims, ty, acc, scope, root, cur, kids, j);
      ArrayPart(n, path, scope, root, j, cur[j], kids[j]);
      var inner := Bind(scope, loop, j);
      var enc := EncArray(cx.env, cx.ma, fuel, dims, ty, kids[j], r.pos);
      var rest := EncAll(cx.env, cx.ma, fuel, dims, ty, kids[j + 1..], r.pos + |enc|);
      HoldsSplit(r.buf, r.pos, enc, rest);
      ReadArray(cx, fuel, dims, ty, n + 1, ArrayVar(n + 1), inner, root, r, cur[j], kids[j]);
      var first := ReadOps(cx, fuel, body, inner, root, r);
      YieldsParts(cx, first, mid, r, |enc|);
      ReadArrayLoop(cx, fuel, dims, ty, n, acc, scope, mid, first.value.1, next, kids, j + 1);
      ReadForStep(cx, fuel, loop, body, j, |kids|, scope, root, r, mid, Stored(root, acc, scope, VNode(kids)), |enc|,
                  |rest|);
    }
  }

  lemma {:induction false} ReadEntity(cx: Context, fuel: nat, dims: seq<nat>, ty: Type, acc: Accessor,
                                      root: Val, r: Reader, x: Val, v: Val)
    requires Reading(cx) && Ready(cx, r)
    requires HasArray(cx.env, fuel, dims, ty, v) && ReceptiveArray(cx.env, fuel, dims, ty, x)
    requires Below(acc, 1) && Denotes(acc, EMPTY_SCOPE, root, x) && !acc.Element? && Readable(cx.env, fuel, ty)
    requires Holds(r.buf, r.pos, EncArray(cx.env, cx.ma, fuel, dims, ty, v, r.pos))
    ensures Yields(cx, ReadOps(cx, fuel, EntityOps(cx.env, Read, dims, ty, acc), EMPTY_SCOPE, root, r),
                   Stored(root, acc, EMPTY_SCOPE, v), r, |EncArray(cx.env, cx.ma, fuel, dims, ty, v, r.pos)|)
    decreases fuel, 0, ty, |dims|, 3, 0
  {
    hide Reading; hide Eval; hide Get; hide Put;
    ReadArray(cx, fuel, dims, ty, 0, acc, EMPTY_SCOPE, root, r, x, v);
    hide EncArray; hide HasArray; hide ReceptiveArray;
    if dims != [] {
      ReadSingle(cx, fuel, EntityOps(cx.env, Read, dims, ty, acc)[0], EMPTY_SCOPE, root, r);
    }
  }

  /** The function emitted for a definition restores the value in any receptive object. */
  lemma {:induction false} ReadDefinition(cx: Context, fuel: nat, def: Def, x: Val, r: Reader, v: Val)
    requires Reading(cx) && Ready(cx, r) && WellFormedDef(def) && ReadableDef(cx.env, fuel, def)
    requires HasDef(cx.env, fuel, def, v) && ReceptiveDef(cx.env, fuel, def, x)
    requires Holds(r.buf, r.pos, EncDef(cx.env, cx.ma, fuel, def, v, r.pos))
    ensures Yields(cx, ReadProg(cx, fuel, ProgOf(cx.env, Read, def), x, r), v, r,
                   |EncDef(cx.env, cx.ma, fuel, def, v, r.pos)|)
    decreases fuel, 2
  {
    hide Reading;
    match def
    case Struct(_, _) =>
      var fs := Fields(def);
      assert Ids(fs)[0..] == Ids(fs) && fs[0..] == fs && v.kids[0..] == v.kids;
      hide ReadEntities; hide EncFields;
      ReadFields(cx, fuel, fs, x.kids, v.kids, r, 0);
    case Typedef(ty, dims, _) =>
      hide ReadOps; hide EncArray; hide HasArray; hide EntityOps; hide ReceptiveArray;
      ReadEntity(cx, fuel, dims, ty, Instance, x, r, x, v);
    case Union(_, _, _, _) => ReadUnion(cx, fuel, def, x, r, v);
  }

  /** The members from number `k` on can be read into. */
  ghost predicate ReceptiveFrom(env: Env, fuel: nat, fs: seq<Field>, cur: seq<Val>, k: nat) {
    |cur| == |fs| && forall i :: k <= i < |fs| ==> ReceptiveArray(env, fuel, fs[i].decl.dims, fs[i].ty, cur[i])
  }

  lemma NextField(env: Env, fuel: nat, fs: seq<Field>, cur: seq<Val>, kids: seq<Val>, k: nat)
    requires ReceptiveFrom(env, fuel, fs, cur, k) && k < |fs| == |kids| && cur[..k] == kids[..k]
    ensures ReceptiveArray(env, fuel, fs[k].decl.dims, fs[k].ty, cur[k])
    ensures ReceptiveFrom(env, fuel, fs, cur[k := kids[k]], k + 1) && cur[k := kids[k]][..k + 1] == kids[..k + 1]
  {
    hide ReceptiveArray;
    assert cur[k := kids[k]][..k + 1] == cur[..k] + [kids[k]] == kids[..k + 1];
  }

  lemma ReadFieldsDone(cx: Context, fuel: nat, fs: seq<Field>, cur: seq<Val>, kids: seq<Val>, r: Reader)
    requires Ready(cx, r) && |fs| == |cur| == |kids| && cur[..|fs|] == kids[..|fs|]
    ensures Yields(cx, ReadEntities(cx, fuel, Ids(fs)[|fs|..], Entries(cx.env, Read, fs), VNode(cur), r),
                   VNode(kids), r, |EncFields(cx.env, cx.ma, fuel, fs[|fs|..], kids[|fs|..], r.pos)|)
  {
    hide ReadOps; hide EncArray;
    assert cur == kids && fs[|fs|..] == [] && Ids(fs)[|fs|..] == [];
  }

  lemma {:induction false} ReadFields(cx: Context, fuel: nat, fs: seq<Field>, cur: seq<Val>, kids: seq<Val>,
                                      r: Reader, k: nat)
    requires Reading(cx) && Ready(cx, r)
    requires HasFields(cx.env, fuel, fs, kids) && k <= |fs| == |cur| == |kids| && cur[..k] == kids[..k]
    requires ReceptiveFrom(cx.env, fuel, fs, cur, k)
    requires Numbered(fs) && DistinctIds(fs) && forall i :: 0 <= i < |fs| ==> Readable(cx.env, fuel, fs[i].ty)
    requires Holds(r.buf, r.pos, EncFields(cx.env, cx.ma, fuel, fs[k..], kids[k..], r.pos))
    ensures Yields(cx, ReadEntities(cx, fuel, Ids(fs)[k..], Entries(cx.env, Read, fs), VNode(cur), r),
                   VNode(kids), r, |EncFields(cx.env, cx.ma, fuel, fs[k..], kids[k..], r.pos)|)
    decreases fuel, 1, |fs| - k
  {
    hide *;
    if k == |fs| {
      ReadFieldsDone(cx, fuel, fs, cur, kids, r);
    } else {
      var f := fs[k];
      var next := cur[k := kids[k]];
      var acc := Programs.Accessor.Member(k);
      NextField(cx.env, fuel, fs, cur, kids, k);
      ReadEntitiesUnfold(cx, fuel, fs, k, VNode(cur), r);
      EncFieldsStep(cx.env, cx.ma, fuel, fs, kids, k, r.pos);
      FieldFetched(cx.env, Read, fuel, fs, VNode(kids), k);
      MemberStored(cur, k, kids[k]);
      var enc := EncArray(cx.env, cx.ma, fuel, f.decl.dims, f.ty, kids[k], r.pos);
      var rest := EncFields(cx.env, cx.ma, fuel, fs[k + 1..], kids[k + 1..], r.pos + |enc|);
      HoldsSplit(r.buf, r.pos, enc, rest);
      ReadEntity(cx, fuel, f.decl.dims, f.ty, acc, VNode(cur), r, cur[k], kids[k]);
      var first := ReadOps(cx, fuel, EntryOf(cx.env, Read, f).body, EMPTY_SCOPE, VNode(cur), r);
      YieldsParts(cx, first, VNode(next), r, |enc|);
      ReadFields(cx, fuel, fs, next, kids, first.value.1, k + 1);
      YieldsTrans(cx, r, |enc|, |rest|, VNode(next), VNode(kids), first,
                  ReadEntities(cx, fuel, Ids(fs)[k..], Entries(cx.env, Read, fs), VNode(cur), r));
    }
  }

  lemma MemberStored(cur: seq<Val>, k: nat, x: Val)
    requires k < |cur|
    ensures var acc := Programs.Accessor.Member(k);
            Denotes(acc, EMPTY_SCOPE, VNode(cur), cur[k]) &&
              Stored(VNode(cur), acc, EMPTY_SCOPE, x) == VNode(cur[k := x])
  {
    assert [k][1..] == [];
    assert Put(cur[k], [], x) == x;
  }

  lemma ReadEntitiesUnfold(cx: Context, fuel: nat, fs: seq<Field>, k: nat, root: Val, r: Reader)
    requires k < |fs|
    requires DistinctIds(fs)
    ensures var entries := Entries(cx.env, Read, fs);
            ReadEntities(cx, fuel, Ids(fs)[k..], entries, root, r) ==
            match ReadOps(cx, fuel, EntryOf(cx.env, Read, fs[k]).body, EMPTY_SCOPE, root, r)
            case None => None
            case Some((root', r')) => ReadEntities(cx, fuel, Ids(fs)[k + 1..], entries, root', r')
  {
    hide ReadOps; hide EntryOf;
    EntryFound(cx.env, Read, fs, k);
    assert Ids(fs)[k..][0] == fs[k].decl.id && Ids(fs)[k..][1..] == Ids(fs)[k + 1..];
  }

  /** The discriminator a setter stores is the one that was read, whether it is passed on or left out. */
  lemma SetterKeepsDiscriminator(u: Shape, i: nat, d: nat)
    requires WellFormed(u) && ArmOf(u, d) == Some(i)
    ensures Single(u.arms[i]) ==> u.arms[i][0].value == d
    ensures Compatible(u, u.arms[i][0].value, d)
  {
    LabelSelectsArm(u, i, 0);
  }

  lemma {:induction false} ReadUnion(cx: Context, fuel: nat, def: Def, x: Val, r: Reader, v: Val)
    requires Reading(cx) && Ready(cx, r) && WellFormedDef(def) && def.Union? && ReadableDef(cx.env, fuel, def)
    requires HasDef(cx.env, fuel, def, v) && ReceptiveDef(cx.env, fuel, def, x)
    requires Holds(r.buf, r.pos, EncDef(cx.env, cx.ma, fuel, def, v, r.pos))
    ensures Yields(cx, ReadProg(cx, fuel, ProgOf(cx.env, Read, def), x, r), v, r,
                   |EncDef(cx.env, cx.ma, fuel, def, v, r.pos)|)
    decreases fuel, 1, 0
  {
    hide Reading; hide ReadOps; hide EncArray; hide HasArray; hide EntityOps; hide ArmOf; hide ReceptiveArray;
    hide EncNum;
    hide TakeNum; hide DefaultArray; hide HasNum;
    var u := ShapeOf(def);
    assert Labelled(u);
    hide WellFormed;
    var d := EncNum(cx.ma, def.disc, v.d, r.pos);
    match ArmOf(u, v.d)
    case Some(i) =>
      var y := v.payload.value;
      var b := def.cases[i];
      var enc := EncArray(cx.env, cx.ma, fuel, b.dims, b.ty, y, r.pos + |d|);
      HoldsSplit(r.buf, r.pos, d, enc);
      TakeNumHeld(cx, r, def.disc, v.d);
      var r' := TakeNum(cx, r, def.disc).value.1;
      var obj := DefaultArray(cx.env, fuel, b.dims, b.ty);
      DefaultIsReceptive(cx.env, fuel, b.dims, b.ty, y);
      SetterKeepsDiscriminator(u, i, v.d);
      hide Compatible;
      ReadEntity(cx, fuel, b.dims, b.ty, Obj, obj, r', obj, y);
      assert Stored(obj, Obj, EMPTY_SCOPE, y) == y;
    case None =>
      assert d + [] == d;
      TakeNumHeld(cx, r, def.disc, v.d);
      DefaultDiscriminator(u);
  }

  // ----- main result -----

  /**
    Writing a value and reading the bytes back yields the value, its discriminators included, and
    consumes exactly the bytes that were written, wherever in a buffer they stand. The object read
    into is a default-constructed one, or one that was used before and is receptive.
   */
  lemma ReadInvertsWrite(env: Env, ma: MaxAlign, capacity: nat, fuel: nat, def: Def, v: Val, x: Val,
                         prefix: seq<byte>, al: nat, suffix: seq<byte>)
    requires WellFormedEnv(env) && WellFormedDef(def) && ReadableDef(env, fuel, def) && HasDef(env, fuel, def, v) &&
             ReceptiveDef(env, fuel, def, x)
    requires Aligned(|prefix|, al, ma) && |prefix| <= capacity
    ensures var written := RunProg(Context(Write, env, Linked(env, Write), ma, capacity), fuel,
                                   ProgOf(env, Write, def), Live(v),
                                   Cursor(At(|prefix|), al, prefix));
            written.Some? ==>
              var r := Reader(written.value.out + suffix, |prefix|, al);
              var read := ReadProg(Context(Read, env, Linked(env, Read), ma, capacity), fuel, ProgOf(env, Read, def),
                                   x, r);
              read.Some? && read.value.0 == v && read.value.1.pos == |written.value.out|
  {
    hide RunProg; hide ReadProg; hide ProgOf; hide Linked; hide HasDef; hide ReceptiveDef; hide EncDef;
    hide WellFormedDef; hide ReadableDef; hide StreamableDef;
    var w := Context(Write, env, Linked(env, Write), ma, capacity);
    var cx := Context(Read, env, Linked(env, Read), ma, capacity);
    var c := Cursor(At(|prefix|), al, prefix);
    var enc := EncDef(env, ma, fuel, def, v, |prefix|);
    ReadableDefIsStreamable(env, fuel, def);
    RunDefinition(w, fuel, def, v, c);
    var written := RunProg(w, fuel, ProgOf(env, Write, def), Live(v), c);
    if written.Some? {
      var r := Reader(written.value.out + suffix, |prefix|, al);
      assert r.buf[|prefix|..|prefix| + |enc|] == enc;
      ReadDefinition(cx, fuel, def, x, r, v);
    }
  }
}
