/**
  Objects whose bounded strings are not full: when they give a bound all the same, and that padding
  after a string can make up for what is missing.
 */
module FullStrings {
  import opened Wrappers
  import opened Wire
  import opened Idl
  import opened Programs
  import opened Emitter
  import opened Objects
  import opened Machine
  import opened WriteMove
  import opened MaxBound
  import opened MaxTight
  import opened Targets

  // ----- exactly when there is a bound -----

  function MaxContext(env: Env, ma: MaxAlign, capacity: nat): Context {
    Context(Max, env, Linked(env, Max), ma, capacity)
  }

  function MeasuredTo(env: Env, ma: MaxAlign, capacity: nat, fuel: nat, def: Def, x: Val, c: Cursor): Option<Cursor> {
    RunProg(MaxContext(env, ma, capacity), fuel, ProgOf(env, Max, def), Live(x), c)
  }

  function MovedTo(env: Env, ma: MaxAlign, capacity: nat, fuel: nat, def: Def, v: Val, c: Cursor): Option<Cursor> {
    RunProg(Context(Move, env, Linked(env, Move), ma, capacity), fuel, ProgOf(env, Move, def), Live(v), c)
  }

  /**
    Where measuring an object ends is a bound of all values if and only if it is at or after where
    measuring a full object ends.
   */
  lemma BoundsLikeFull(env: Env, ma: MaxAlign, capacity: nat, fm: nat, names: nat, def: Def, x: Val, full: Val, q: nat,
                       ql: nat)
    requires WellFormedEnv(env) && WellFormedDef(def) && InhabitedDef(def) && Aligned(q, ql, ma)
    requires forall depth: nat :: StreamableDef(env, depth, def)
    requires forall n {:trigger env[n]} :: n in env ==> n < names && InhabitedDef(env[n])
    requires FullDef(MaxContext(env, ma, capacity), fm, def, Live(full))
    requires Ended(MeasuredTo(env, ma, capacity, fm, def, full, Cursor(At(q), ql, [])))
    requires MeasuredTo(env, ma, capacity, fm, def, x, Cursor(At(q), ql, [])).Some?
    ensures var c := Cursor(At(q), ql, []);
            var bound := MeasuredTo(env, ma, capacity, fm, def, x, c).value.pos;
            (forall fv: nat, v | HasDef(env, fv, def, v) ::
               var moved := MovedTo(env, ma, capacity, fv, def, v, c);
               moved.Some? && !Before(bound, moved.value.pos)) <==>
            !Before(bound, MeasuredTo(env, ma, capacity, fm, def, full, c).value.pos)
  {
    hide RunProg; hide ProgOf; hide Linked; hide HasDef; hide WellFormedDef; hide InhabitedDef; hide FullDef;
    hide WellFormedEnv; hide StreamableDef;
    var c := Cursor(At(q), ql, []);
    var bound := MeasuredTo(env, ma, capacity, fm, def, x, c).value.pos;
    var best := MeasuredTo(env, ma, capacity, fm, def, full, c).value.pos;
    forall fv: nat, v | HasDef(env, fv, def, v)
      ensures var moved := MovedTo(env, ma, capacity, fv, def, v, c);
              moved.Some? && !Before(best, moved.value.pos)
    {
      MaxBoundsMove(env, ma, capacity, fm, fv, def, full, v, q, ql, q, ql, true);
    }
    var v := MaxIsReached(env, ma, capacity, fm, names, def, full, q, ql, true);
    assert MovedTo(env, ma, capacity, fm + names, def, v, c).value.pos == best;
  }

  // ----- padding -----

  // struct { string<3> s; long l; };
  const LONG := NumType(4, Integer)
  const TEXT := Field(Declarator(0, 0, [], Required), Str(3))
  const NUMBER := Field(Declarator(1, 1, [], Required), Num(LONG))
  const PADDED := Def.Struct(NoBase, [Idl.Member.Member(TEXT.ty, [TEXT.decl]),
                                      Idl.Member.Member(NUMBER.ty, [NUMBER.decl])])

  function Padded(s: seq<byte>, n: nat): Val {
    VNode([VText(s), VNum(n)])
  }

  lemma PaddedFields()
    ensures Fields(PADDED) == [TEXT, NUMBER]
  {
    var ms := PADDED.members;
    assert MemberFields(ms[0]) == [TEXT] && MemberFields(ms[1]) == [NUMBER];
    assert ms[1..][0] == ms[1] && ms[1..][1..] == [] && FieldsOf([]) == [];
    assert FieldsOf(ms[1..]) == [NUMBER];
  }

  lemma NextMultiple(q: nat, len: nat, ma: MaxAlign)
    requires q % 4 == 0 && 4 < len <= 8
    ensures q + len + Padding(q + len, 4, ma) == q + 8
  {
    assert len < 8 ==> (q + len) % 4 == len - 4;
  }

  lemma TextMeasured(cx: Context, s: seq<byte>, c: Cursor)
    requires cx.mode == Max && |s| <= 3 && c.pos.At? && Aligned(c.pos.n, c.al, cx.ma)
    ensures var r := AdvanceText(cx, c, 3, s);
            && r.Some? && r.value.pos == At(c.pos.n + Padding(c.pos.n, 4, cx.ma) + 4 + |s| + 1) && r.value.al == 1
  {
    hide Padding; hide Advance; hide Aligned;
    AdvanceMax(cx, c, 4, Bytes(|s| + 1, 4), 1, c.pos.n, 0);
  }

  lemma NumberMeasured(cx: Context, n: nat, c: Cursor)
    requires cx.mode == Max && c.pos.At? && Aligned(c.pos.n, c.al, cx.ma)
    ensures var r := Advance(cx, c, 4, Bytes(n, 4));
            r.Some? && r.value.pos == At(c.pos.n + Padding(c.pos.n, 4, cx.ma) + 4)
  {
    hide Padding; hide Aligned;
    AdvanceMax(cx, c, 4, Bytes(n, 4), 1, c.pos.n, 0);
  }

  lemma Rounded(q: nat, ma: MaxAlign)
    ensures (q + Padding(q, 4, ma)) % 4 == 0
  {
    PaddingRoundsUp(q, 4, ma);
  }

  lemma FirstMember(cx: Context, fuel: nat, s: seq<byte>, n: nat, c: Cursor)
    requires cx.mode == Max
    ensures RunOps(cx, fuel, EntryOf(cx.env, Max, TEXT).body, EMPTY_SCOPE, Live(Padded(s, n)), c) ==
            AdvanceText(cx, c, 3, s)
  {
    RootFetched(Live(Padded(s, n)), Programs.Accessor.Member(0), 1);
    RunSingle(cx, fuel, Text(Programs.Accessor.Member(0), 3), EMPTY_SCOPE, Live(Padded(s, n)), c);
    hide RunOps; hide Fetch; hide AdvanceText;
    assert EntryOf(cx.env, Max, TEXT).body == [Text(Programs.Accessor.Member(0), 3)];
  }

  lemma SecondMember(cx: Context, fuel: nat, s: seq<byte>, n: nat, c: Cursor)
    requires cx.mode == Max
    ensures RunOps(cx, fuel, EntryOf(cx.env, Max, NUMBER).body, EMPTY_SCOPE, Live(Padded(s, n)), c) ==
            Advance(cx, c, 4, Bytes(n, 4))
  {
    RootFetched(Live(Padded(s, n)), Programs.Accessor.Member(1), 1);
    RunSingle(cx, fuel, Prim(Programs.Accessor.Member(1), LONG), EMPTY_SCOPE, Live(Padded(s, n)), c);
    hide RunOps; hide Fetch; hide Advance;
    assert EntryOf(cx.env, Max, NUMBER).body == [Prim(Programs.Accessor.Member(1), LONG)];
  }

  lemma BothMembers(cx: Context, fuel: nat, s: seq<byte>, n: nat, c: Cursor)
    requires cx.mode == Max
    ensures RunProg(cx, fuel, ProgOf(cx.env, Max, PADDED), Live(Padded(s, n)), c) ==
            match AdvanceText(cx, c, 3, s)
            case None => None
            case Some(c') => Advance(cx, c', 4, Bytes(n, 4))
  {
    PaddedFields();
    var fs := [TEXT, NUMBER];
    var root := Live(Padded(s, n));
    assert DistinctIds(fs) && Ids(fs)[0..] == Ids(fs) && Ids(fs)[2..] == [];
    EntitiesMeasured(cx, fuel, fs, 0, root, c);
    FirstMember(cx, fuel, s, n, c);
    hide AdvanceText; hide Advance; hide RunOps; hide EntryOf; hide Copied;
    var first := AdvanceText(cx, c, 3, s);
    if first.Some? {
      EntitiesMeasured(cx, fuel, fs, 1, root, first.value);
      SecondMember(cx, fuel, s, n, first.value);
    }
  }

  /** Strings of all lengths are measured the same. */
  lemma PaddedMeasured(cx: Context, fuel: nat, s: seq<byte>, n: nat, c: Cursor)
    requires cx.mode == Max && |s| <= 3 && c.pos.At? && Aligned(c.pos.n, c.al, cx.ma)
    ensures var r := RunProg(cx, fuel, ProgOf(cx.env, Max, PADDED), Live(Padded(s, n)), c);
            r.Some? && r.value.pos == At(c.pos.n + Padding(c.pos.n, 4, cx.ma) + 12)
  {
    hide RunProg; hide ProgOf; hide AdvanceText; hide Advance; hide Padding;
    BothMembers(cx, fuel, s, n, c);
    TextMeasured(cx, s, c);
    Rounded(c.pos.n, cx.ma);
    var mid := AdvanceText(cx, c, 3, s).value;
    NextMultiple(c.pos.n + Padding(c.pos.n, 4, cx.ma), 4 + |s| + 1, cx.ma);
    NumberMeasured(cx, n, mid);
  }

  lemma OnlyThreeIsFull(cx: Context, fuel: nat, s: seq<byte>, n: nat)
    requires |s| <= 3
    ensures FullDef(cx, fuel, PADDED, Live(Padded(s, n))) <==> |s| == 3
  {
    PaddedFields();
    var t := Live(Padded(s, n));
    assert Child(t, 0) == Live(VText(s)) && Child(t, 1) == Live(VNum(n));
    assert FullArray(cx, fuel, [], TEXT.ty, Child(t, 0)) == Full(cx, fuel, TEXT.ty, Child(t, 0));
    assert FullArray(cx, fuel, [], NUMBER.ty, Child(t, 1)) == Full(cx, fuel, NUMBER.ty, Child(t, 1));
  }

  lemma PaddedIsProper(env: Env, fuel: nat)
    ensures WellFormedDef(PADDED) && StreamableDef(env, fuel, PADDED)
  {
    PaddedFields();
  }

  /** Every object gives a bound of every value, whether its string is full or not. */
  lemma FullNotNecessary(env: Env, ma: MaxAlign, capacity: nat, fm: nat, fv: nat, s: seq<byte>, n: nat, v: Val, q: nat,
                         ql: nat, p: nat, pl: nat)
    requires WellFormedEnv(env) && HasDef(env, fv, PADDED, v) && |s| < 3
    requires p <= q && Aligned(q, ql, ma) && Aligned(p, pl, ma)
    ensures var cx := Context(Max, env, Linked(env, Max), ma, capacity);
            var bound := RunProg(cx, fm, ProgOf(env, Max, PADDED), Live(Padded(s, n)), Cursor(At(q), ql, []));
            var moved := RunProg(Context(Move, env, Linked(env, Move), ma, capacity), fv, ProgOf(env, Move, PADDED),
                                 Live(v), Cursor(At(p), pl, []));
            && !FullDef(cx, fm, PADDED, Live(Padded(s, n)))
            && bound.Some? && moved.Some? && !Before(bound.value.pos, moved.value.pos)
  {
    var cx := Context(Max, env, Linked(env, Max), ma, capacity);
    var c := Cursor(At(q), ql, []);
    var full: seq<byte> := Zeros(3);
    hide RunProg; hide ProgOf; hide Linked; hide HasDef; hide WellFormedDef; hide FullDef; hide Padding; hide Aligned;
    hide StreamableDef; hide PADDED;
    PaddedIsProper(env, fv);
    OnlyThreeIsFull(cx, fm, s, n);
    OnlyThreeIsFull(cx, fm, full, n);
    PaddedMeasured(cx, fm, s, n, c);
    PaddedMeasured(cx, fm, full, n, c);
    MaxBoundsMove(env, ma, capacity, fm, fv, PADDED, Padded(full, n), v, q, ql, p, pl, true);
  }
}
