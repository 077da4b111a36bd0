/**
  Typedefs of base types and strings: they are streamed as the type they are of, unless the first
  declarator of the typedef is an array, whatever the other declarators are.
 */
module Aliases {
  import opened Wrappers
  import opened Wire
  import opened Idl
  import opened Encoding
  import opened Programs
  import opened Emitter
  import opened Objects
  import opened Machine
  import opened WriteMove

  /** The second declarator of such a typedef is an array that is streamed as one number or string: nothing works. */
  lemma ArrayStreamedAsOne(cx: Context, fuel: nat, n: Name, acc: Accessor, inVector: bool, scope: Scope, kids: seq<Val>,
                           root: Val, c: Cursor, r: Reader)
    requires IsBareTypedef(cx.env, n) && Fetch(Live(root), acc, scope) == Live(VNode(kids))
    ensures RunOps(cx, fuel, StreamOps(cx.env, Named(n), acc, inVector), scope, Live(root), c).None?
    ensures ReadOps(cx, fuel, StreamOps(cx.env, Named(n), acc, inVector), scope, root, r).None?
  {
    var op := StreamOps(cx.env, Named(n), acc, inVector)[0];
    assert StreamOps(cx.env, Named(n), acc, inVector) == [op];
    FetchedPath(acc, scope, root, kids);
    hide StreamOps; hide Fetch; hide Eval; hide Get;
    NodeNotStreamed(cx, fuel, op, scope, kids, root, c, r);
    hide RunOp; hide ReadOp;
  }

  lemma NodeNotStreamed(cx: Context, fuel: nat, op: Op, scope: Scope, kids: seq<Val>, root: Val, c: Cursor, r: Reader)
    requires op.Prim? || op.BoolElement? || op.Text?
    requires Fetch(Live(root), op.acc, scope) == Live(VNode(kids))
    requires Eval(op.acc, scope).Some? && Get(root, Eval(op.acc, scope).value) == Some(VNode(kids))
    ensures RunOp(cx, fuel, op, scope, Live(root), c).None? && ReadOp(cx, fuel, op, scope, root, r).None?
  {
    hide Fetch; hide Eval; hide Get; hide RunOps; hide ReadOps;
  }

  // typedef long B, A[3];
  const LONG := Num(NumType(4, Integer))
  const DECLARED: Env := map[0 := Typedef(LONG, [3], [])]

  // struct S { A a; };
  const MEMBER := Declarator(0, 0, [], Required)
  const USER := Def.Struct(NoBase, [Idl.Member.Member(Named(0), [MEMBER])])

  /** No value of the struct is written, moved over, measured or read. */
  lemma LaterArray(ma: MaxAlign, mode: Mode, fuel: nat, v: Val, c: Cursor, r: Reader)
    requires HasDef(DECLARED, fuel, USER, v)
    ensures var cx := Context(mode, DECLARED, Linked(DECLARED, mode), ma, |c.out|);
            var p := ProgOf(DECLARED, mode, USER);
            RunProg(cx, fuel, p, Live(v), c).None? && ReadProg(cx, fuel, p, v, r).None?
  {
    var f := Field(MEMBER, Named(0));
    var acc := Programs.Accessor.Member(0);
    OneField(f);
    var cx := Context(mode, DECLARED, Linked(DECLARED, mode), ma, |c.out|);
    var kids := MemberIsArray(fuel, v);
    ArrayStreamedAsOne(cx, fuel, 0, acc, false, EMPTY_SCOPE, kids, v, c, r);
    hide RunOps; hide StreamOps; hide ReadOps; hide HasDef;
    assert Ids([f])[0] == 0 && Entries(DECLARED, mode, [f])[0] == EntryOf(DECLARED, mode, f);
  }

  lemma MemberIsArray(fuel: nat, v: Val) returns (kids: seq<Val>)
    requires HasDef(DECLARED, fuel, USER, v)
    ensures Fetch(Live(v), Programs.Accessor.Member(0), EMPTY_SCOPE) == Live(VNode(kids))
  {
    var f := Field(MEMBER, Named(0));
    OneField(f);
    assert HasFields(DECLARED, fuel, [f], v.kids);
    assert HasArray(DECLARED, fuel, [], Named(0), v.kids[0]) && HasType(DECLARED, fuel, Named(0), v.kids[0]);
    assert HasDef(DECLARED, fuel - 1, DECLARED[0], v.kids[0]) && HasArray(DECLARED, fuel - 1, [3], LONG, v.kids[0]);
    kids := v.kids[0].kids;
    assert [0][1..] == [] && Get(v.kids[0], []) == Some(v.kids[0]);
  }

  lemma OneField(f: Field)
    ensures FieldsOf([Idl.Member.Member(f.ty, [f.decl])]) == [f]
  {
    var m := Idl.Member.Member(f.ty, [f.decl]);
    assert MemberFields(m) == [f] && [m][1..] == [] && FieldsOf([]) == [];
  }

  // ----- exactly then -----

  predicate IsBaseAlias(env: Env, n: Name) {
    n in env && env[n].Typedef? && (IsBaseType(env[n].ty) || env[n].ty.Str?)
  }

  /** What a use of the alias is streamed by. */
  function Use(n: Name): Def {
    Typedef(Named(n), [], [])
  }

  /** A value of the alias is written as its encoding where there is room for it, and is moved over in full. */
  ghost predicate Streamed(env: Env, ma: MaxAlign, fuel: nat, n: Name, v: Val) {
    var enc := EncDef(env, ma, fuel, Use(n), v, 0);
    var written := RunProg(Context(Write, env, Linked(env, Write), ma, |enc|), fuel, ProgOf(env, Write, Use(n)),
                           Live(v), START);
    var moved := RunProg(Context(Move, env, Linked(env, Move), ma, |enc|), fuel, ProgOf(env, Move, Use(n)), Live(v),
                         START);
    written.Some? && written.value.out == enc && moved.Some? && moved.value.pos == At(|enc|)
  }

  lemma UseStreamable(env: Env, fuel: nat, n: Name)
    requires IsBaseAlias(env, n) && AliasAgrees(env[n])
    ensures StreamableDef(env, fuel, Use(n))
  {
    assert fuel > 0 ==> StreamableDef(env, fuel - 1, env[n]);
    assert Streamable(env, fuel, Named(n));
  }

  lemma AgreeingIsStreamed(env: Env, ma: MaxAlign, fuel: nat, n: Name, v: Val)
    requires WellFormedEnv(env) && IsBaseAlias(env, n) && AliasAgrees(env[n]) && HasDef(env, fuel, Use(n), v)
    ensures Streamed(env, ma, fuel, n, v)
  {
    var enc := EncDef(env, ma, fuel, Use(n), v, 0);
    UseStreamable(env, fuel, n);
    assert WellFormedDef(Use(n));
    hide EncDef; hide HasDef; hide RunProg; hide Linked; hide ProgOf; hide WellFormedDef; hide Use; hide StreamableDef;
    hide WellFormedEnv; hide AliasAgrees; hide IsBaseAlias;
    WriteIsEncoding(env, ma, |enc|, fuel, Use(n), v);
    MoveEndsWhereWriteEnds(env, ma, |enc|, fuel, Use(n), v, [], 0);
  }

  predicate Positive(dims: seq<nat>) {
    forall k :: 0 <= k < |dims| ==> dims[k] > 0
  }

  lemma {:induction false} ZerosHaveType(env: Env, fuel: nat, dims: seq<nat>, ty: Type)
    requires (IsBaseType(ty) || ty.Str?) && Positive(dims)
    ensures HasArray(env, fuel, dims, ty, DefaultArray(env, fuel, dims, ty))
    decreases |dims|
  {
    if dims != [] {
      ZerosHaveType(env, fuel, dims[1..], ty);
    }
  }

  lemma UseFails(cx: Context, fuel: nat, n: Name, kids: seq<Val>)
    requires IsBareTypedef(cx.env, n)
    ensures RunProg(cx, fuel, ProgOf(cx.env, cx.mode, Use(n)), Live(VNode(kids)), START).None?
  {
    assert Get(VNode(kids), []) == Some(VNode(kids));
    ArrayStreamedAsOne(cx, fuel, n, Instance, false, EMPTY_SCOPE, kids, VNode(kids), START, Reader([], 0, 0));
    hide RunOps; hide StreamOps; hide IsBareTypedef;
  }

  lemma DisagreeingIsNot(env: Env, ma: MaxAlign, fuel: nat, n: Name) returns (v: Val)
    requires fuel > 0 && n in env && !AliasAgrees(env[n]) && Positive(env[n].dims)
    ensures HasDef(env, fuel, Use(n), v) && !Streamed(env, ma, fuel, n, v)
  {
    var dims, ty := env[n].dims, env[n].ty;
    v := DefaultArray(env, fuel - 1, dims, ty);
    ZerosHaveType(env, fuel - 1, dims, ty);
    assert HasDef(env, fuel - 1, env[n], v) && HasType(env, fuel, Named(n), v);
    assert HasArray(env, fuel, [], Named(n), v);
    hide RunProg; hide ProgOf; hide Linked; hide EncDef; hide HasArray; hide Use; hide Positive;
    UseFails(Context(Move, env, Linked(env, Move), ma, |EncDef(env, ma, fuel, Use(n), v, 0)|), fuel, n, v.kids);
  }

  /**
    The values of an alias of a base type or string are streamed as they are encoded if and only if
    the alias is no array or the first declarator of its typedef is one.
   */
  lemma FirstDeclaratorDecides(env: Env, ma: MaxAlign, fuel: nat, n: Name)
    requires WellFormedEnv(env) && fuel > 0 && IsBaseAlias(env, n) && Positive(env[n].dims)
    ensures (forall v | HasDef(env, fuel, Use(n), v) :: Streamed(env, ma, fuel, n, v)) <==>
            env[n].dims == [] || env[n].first != []
  {
    hide Streamed; hide HasDef;
    if AliasAgrees(env[n]) {
      forall v | HasDef(env, fuel, Use(n), v) ensures Streamed(env, ma, fuel, n, v) {
        AgreeingIsStreamed(env, ma, fuel, n, v);
      }
    } else {
      var v := DisagreeingIsNot(env, ma, fuel, n);
    }
  }
}
