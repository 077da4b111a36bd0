/**
  What becomes of the bound of a sequence: the write program refuses a vector that exceeds it,
  and the read program looks at the vector it is given instead of the one it reads.
 */
module ReadBound {
  import opened Wrappers
  import opened Wire
  import opened Idl
  import opened Encoding
  import opened Programs
  import opened Emitter
  import opened Objects
  import opened Machine
  import opened WriteMove
  import opened RoundTrip

  function SequenceType(elem: Type, bound: nat): Def {
    Typedef(Sequence(elem, bound), [], [])
  }

  function ReadContext(env: Env, ma: MaxAlign): Context {
    Context(Read, env, Linked(env, Read), ma, 0)
  }

  /** The reader stands at the encoding of a vector of any length. */
  ghost predicate AtVector(env: Env, ma: MaxAlign, fuel: nat, elem: Type, bound: nat, kids: seq<Val>, r: Reader) {
    && HasTypeAll(env, fuel, [], elem, kids) && |kids| < UINT32_LIMIT && Aligned(r.pos, r.al, ma) && r.pos <= |r.buf|
    && Holds(r.buf, r.pos, EncDef(env, ma, fuel, SequenceType(elem, bound), VNode(kids), r.pos))
  }

  lemma VectorEncoding(env: Env, ma: MaxAlign, fuel: nat, elem: Type, bound: nat, kids: seq<Val>, pos: nat)
    ensures EncDef(env, ma, fuel, SequenceType(elem, bound), VNode(kids), pos) ==
            var len := EncNum(ma, LENGTH, |kids|, pos); len + EncAll(env, ma, fuel, [], elem, kids, pos + |len|)
  {
    hide EncAll; hide EncNum;
    assert EncArray(env, ma, fuel, [], Sequence(elem, bound), VNode(kids), pos) ==
           Enc(env, ma, fuel, Sequence(elem, bound), VNode(kids), pos);
  }

  lemma SequenceBody(env: Env, mode: Mode, elem: Type, bound: nat)
    ensures ProgOf(env, mode, SequenceType(elem, bound)) == TypedefProg(VectorOps(env, mode, elem, bound, 1, Instance))
  {
    hide VectorOps;
  }

  /**
    The exact condition under which an encoded vector is accepted, whatever its length: the
    vector that is read into must not exceed the bound, in 32 bits. What was read is the result.
   */
  lemma BoundOfReceiver(env: Env, ma: MaxAlign, fuel: nat, elem: Type, bound: nat, kids: seq<Val>, cur: seq<Val>,
                        r: Reader)
    requires WellFormedEnv(env) && Readable(env, fuel, Sequence(elem, bound))
    requires AtVector(env, ma, fuel, elem, bound, kids, r)
    requires AllReceptive(env, fuel, [], elem, cur, 0)
    ensures var read := ReadProg(ReadContext(env, ma), fuel, ProgOf(env, Read, SequenceType(elem, bound)), VNode(cur),
                                 r);
            && (read.Some? <==> bound == 0 || |cur| % UINT32_LIMIT <= bound)
            && (read.Some? ==> read.value.0 == VNode(kids))
  {
    hide *;
    var cx := ReadContext(env, ma);
    ReaderSound(env, ma);
    VectorProgram(cx, fuel, elem, bound, cur, r);
    AtVectorParts(env, ma, fuel, elem, bound, kids, r);
    InstanceDenotes(cur, kids);
    if bound == 0 || |cur| % UINT32_LIMIT <= bound {
      var len := EncNum(ma, LENGTH, |kids|, r.pos);
      ReadVector(cx, fuel, elem, bound, Instance, 1, EMPTY_SCOPE, VNode(cur), r, cur, kids);
      YieldsParts(cx, ReadOps(cx, fuel, VectorOps(env, Read, elem, bound, 1, Instance), EMPTY_SCOPE, VNode(cur), r),
                  VNode(kids), r,
                  |len| + |EncAll(env, ma, fuel, [], elem, kids, r.pos + |len|)|);
    } else {
      ReadVectorUnfold(cx, fuel, elem, bound, Instance, 1, EMPTY_SCOPE, VNode(cur), r, cur);
    }
  }

  lemma VectorProgram(cx: Context, fuel: nat, elem: Type, bound: nat, cur: seq<Val>, r: Reader)
    ensures ReadProg(cx, fuel, ProgOf(cx.env, Read, SequenceType(elem, bound)), VNode(cur), r) ==
            ReadOps(cx, fuel, VectorOps(cx.env, Read, elem, bound, 1, Instance), EMPTY_SCOPE, VNode(cur), r)
  {
    SequenceBody(cx.env, Read, elem, bound);
    hide ProgOf; hide ReadOps; hide VectorOps;
  }

  lemma AtVectorParts(env: Env, ma: MaxAlign, fuel: nat, elem: Type, bound: nat, kids: seq<Val>, r: Reader)
    requires AtVector(env, ma, fuel, elem, bound, kids, r)
    ensures HasTypeAll(env, fuel, [], elem, kids) && |kids| < UINT32_LIMIT && Ready(ReadContext(env, ma), r)
    ensures var len := EncNum(ma, LENGTH, |kids|, r.pos);
            Holds(r.buf, r.pos, len + EncAll(env, ma, fuel, [], elem, kids, r.pos + |len|))
  {
    hide EncDef; hide EncAll; hide EncNum; hide Holds; hide Linked; hide HasTypeAll; hide Aligned;
    VectorEncoding(env, ma, fuel, elem, bound, kids, r.pos);
  }

  lemma InstanceDenotes(cur: seq<Val>, kids: seq<Val>)
    ensures Below(Instance, 1) && Denotes(Instance, EMPTY_SCOPE, VNode(cur), VNode(cur))
    ensures Stored(VNode(cur), Instance, EMPTY_SCOPE, VNode(kids)) == VNode(kids)
  {
  }

  lemma ReaderSound(env: Env, ma: MaxAlign)
    requires WellFormedEnv(env)
    ensures Reading(ReadContext(env, ma)) && ReadContext(env, ma).mode == Read
    ensures ReadContext(env, ma).env == env && ReadContext(env, ma).ma == ma
  {
  }

  /** So a default-constructed vector accepts any length, and ends up as no value of the type. */
  lemma BoundNotEnforced(env: Env, ma: MaxAlign, fuel: nat, deep: nat, elem: Type, bound: nat, kids: seq<Val>,
                         r: Reader)
    requires WellFormedEnv(env) && Readable(env, fuel, Sequence(elem, bound))
    requires AtVector(env, ma, fuel, elem, bound, kids, r) && 0 < bound < |kids|
    ensures var read := ReadProg(ReadContext(env, ma), fuel, ProgOf(env, Read, SequenceType(elem, bound)), VNode([]),
                                 r);
            read.Some? && read.value.0 == VNode(kids) && !HasDef(env, deep, SequenceType(elem, bound), read.value.0)
  {
    assert AllReceptive(env, fuel, [], elem, [], 0);
    BoundOfReceiver(env, ma, fuel, elem, bound, kids, [], r);
    hide ReadProg; hide ProgOf; hide AtVector;
    if HasDef(env, deep, SequenceType(elem, bound), VNode(kids)) {
      ValueWithinBound(env, deep, elem, bound, kids);
    }
  }

  lemma ValueWithinBound(env: Env, fuel: nat, elem: Type, bound: nat, kids: seq<Val>)
    requires HasDef(env, fuel, SequenceType(elem, bound), VNode(kids)) && bound > 0
    ensures |kids| <= bound
  {
    assert HasArray(env, fuel, [], Sequence(elem, bound), VNode(kids)) ==
           HasType(env, fuel, Sequence(elem, bound), VNode(kids));
  }

  /** The writer does check the vector it is given, so what it writes stays within the bound. */
  lemma BoundOfWriter(env: Env, ma: MaxAlign, capacity: nat, fuel: nat, elem: Type, bound: nat, kids: seq<Val>,
                      c: Cursor)
    requires 0 < bound < |kids| % UINT32_LIMIT
    ensures RunProg(Context(Write, env, Linked(env, Write), ma, capacity), fuel,
                    ProgOf(env, Write, SequenceType(elem, bound)),
                    Live(VNode(kids)), c).None?
  {
    var cx := Context(Write, env, Linked(env, Write), ma, capacity);
    var ops := VectorOps(env, Write, elem, bound, 1, Instance);
    var counted := ops[0].body[0];
    SequenceBody(env, Write, elem, bound);
    assert ops == [ops[0]] && ops[0].body == [counted];
    hide Linked; hide ProgOf; hide ElementOps; hide Advance;
    RunSingle(cx, fuel, ops[0], EMPTY_SCOPE, Live(VNode(kids)), c);
    RunSingle(cx, fuel, counted, EMPTY_SCOPE, Live(VNode(kids)), c);
    assert RunOp(cx, fuel, counted, EMPTY_SCOPE, Live(VNode(kids)), c).None?;
  }

  // ----- strings -----

  function StringType(bound: nat): Def {
    Typedef(Str(bound), [], [])
  }

  lemma StringBody(env: Env, mode: Mode, bound: nat)
    ensures ProgOf(env, mode, StringType(bound)) == TypedefProg([Text(Instance, bound)])
  {
  }

  lemma LongText(cx: Context, r: Reader, bound: nat, s: seq<byte>)
    requires Ready(cx, r) && 0 < bound < |s| && |s| + 1 < UINT32_LIMIT && Holds(r.buf, r.pos, EncText(cx.ma, s, r.pos))
    ensures TakeText(cx, r, bound).None?
  {
    hide EncNum;
    var len := EncNum(cx.ma, LENGTH, |s| + 1, r.pos);
    assert EncText(cx.ma, s, r.pos) == len + (s + [0]);
    HoldsSplit(r.buf, r.pos, len, s + [0]);
    Ranges();
    TakeNumHeld(cx, r, LENGTH, |s| + 1);
    hide TakeNum;
  }

  /** The bound of a string counts for what is read: an encoded string is accepted exactly when it keeps its bound. */
  lemma StringBoundOfReader(env: Env, ma: MaxAlign, fuel: nat, bound: nat, s: seq<byte>, x: Val, r: Reader)
    requires Aligned(r.pos, r.al, ma) && r.pos <= |r.buf| && !x.VNode? && |s| + 1 < UINT32_LIMIT
    requires Holds(r.buf, r.pos, EncText(ma, s, r.pos))
    ensures var read := ReadProg(ReadContext(env, ma), fuel, ProgOf(env, Read, StringType(bound)), x, r);
            && (read.Some? <==> bound == 0 || |s| <= bound)
            && (read.Some? ==> read.value.0 == VText(s) && read.value.1.pos == r.pos + |EncText(ma, s, r.pos)|)
  {
    var cx, op := ReadContext(env, ma), Text(Instance, bound);
    StringBody(env, Read, bound);
    if bound == 0 || |s| <= bound { TakeTextHeld(cx, r, bound, s); } else { LongText(cx, r, bound, s); }
    hide TakeText; hide EncText; hide ProgOf; hide Holds; hide Linked;
    assert Eval(Instance, EMPTY_SCOPE) == Some([]);
    assert !IsNode(x, []) && forall v :: Put(x, [], v) == v;
    assert [op][1..] == [];
    match ReadOp(cx, fuel, op, EMPTY_SCOPE, x, r)
    case None =>
    case Some((v, r')) => assert ReadOps(cx, fuel, [], EMPTY_SCOPE, v, r') == Some((v, r'));
  }

  /** A string that exceeds its bound is not written either, wherever the stream stands. */
  lemma StringBoundOfWriter(env: Env, ma: MaxAlign, capacity: nat, fuel: nat, bound: nat, s: seq<byte>, c: Cursor)
    requires 0 < bound < |s|
    ensures RunProg(Context(Write, env, Linked(env, Write), ma, capacity), fuel, ProgOf(env, Write, StringType(bound)),
                    Live(VText(s)), c).None?
  {
    var cx := Context(Write, env, Linked(env, Write), ma, capacity);
    StringBody(env, Write, bound);
    hide Linked; hide ProgOf; hide Advance;
    RunSingle(cx, fuel, Text(Instance, bound), EMPTY_SCOPE, Live(VText(s)), c);
    assert RunOp(cx, fuel, Text(Instance, bound), EMPTY_SCOPE, Live(VText(s)), c).None?;
  }
}
