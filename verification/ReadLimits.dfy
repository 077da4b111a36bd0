/**
  What reading takes of the type and of the object that is read into, and that nothing less will do:
  elements of vectors of booleans, and unions that were used before.
 */
module ReadLimits {
  import opened Wrappers
  import opened Wire
  import opened Unions
  import opened Idl
  import opened Encoding
  import opened Programs
  import opened Emitter
  import opened Objects
  import opened Machine
  import opened RoundTrip
  import opened ReadBound
  import EnumDecl

  // ----- vectors of booleans -----

  /** The first round of the loop ends the reading: no function is given a reference to a bit. */
  lemma BitNotRead(cx: Context, fuel: nat, n: Name, scope: Scope, root: Val, r: Reader)
    requires IsBoolean(Strip(cx.env, Named(n))) && !IsBareTypedef(cx.env, n)
    requires 1 in scope.length && scope.length[1] > 0
    ensures ReadOp(cx, fuel, ElementOps(cx.env, Read, Named(n), 1, Instance)[0], scope, root, r).None?
  {
    var body := [Call(n, Element(Instance, 1))];
    assert ElementOps(cx.env, Read, Named(n), 1, Instance)[0] == ForVector(1, body);
    hide ElementOps; hide Strip;
    var inner := Bind(scope, OverIndex(1), 0);
    assert ReadOp(cx, fuel, body[0], inner, root, r).None?;
    ReadSingle(cx, fuel, body[0], inner, root, r);
    hide ReadOps;
    assert ReadFor(cx, fuel, OverIndex(1), body, 0, scope.length[1], scope, root, r).None?;
  }

  lemma BitsNotRead(env: Env, ma: MaxAlign, fuel: nat, n: Name, bound: nat, kids: seq<Val>, cur: seq<Val>, r: Reader)
    requires IsBoolean(Strip(env, Named(n))) && !IsBareTypedef(env, n) && kids != []
    requires AtVector(env, ma, fuel, Named(n), bound, kids, r)
    ensures ReadProg(ReadContext(env, ma), fuel, ProgOf(env, Read, SequenceType(Named(n), bound)), VNode(cur), r).None?
  {
    hide *;
    var cx := ReadContext(env, ma);
    ContextParts(env, ma);
    VectorProgram(cx, fuel, Named(n), bound, cur, r);
    InstanceDenotes(cur, kids);
    ReadVectorUnfold(cx, fuel, Named(n), bound, Instance, 1, EMPTY_SCOPE, VNode(cur), r, cur);
    AtVectorParts(env, ma, fuel, Named(n), bound, kids, r);
    HoldsSplit(r.buf, r.pos, EncNum(ma, LENGTH, |kids|, r.pos),
               EncAll(env, ma, fuel, [], Named(n), kids, r.pos + |EncNum(ma, LENGTH, |kids|, r.pos)|));
    LengthTaken(cx, r, |kids|);
    var r' := TakeNum(cx, r, LENGTH).value.1;
    LengthIn(EMPTY_SCOPE, |kids|);
    BitNotRead(cx, fuel, n, WithLength(EMPTY_SCOPE, 1, |kids|),
               Stored(VNode(cur), Instance, EMPTY_SCOPE,
                      VNode(Resized(cur, |kids|, Default(env, fuel, Named(n))))), r');
  }

  lemma ContextParts(env: Env, ma: MaxAlign)
    ensures ReadContext(env, ma).env == env && ReadContext(env, ma).ma == ma
  {
  }

  lemma LengthTaken(cx: Context, r: Reader, n: nat)
    requires Ready(cx, r) && n < UINT32_LIMIT && Holds(r.buf, r.pos, EncNum(cx.ma, LENGTH, n, r.pos))
    ensures TakeNum(cx, r, LENGTH).Some? && TakeNum(cx, r, LENGTH).value.0 == n
  {
    Ranges();
    TakeNumHeld(cx, r, LENGTH, n);
    hide TakeNum;
  }

  lemma LengthIn(scope: Scope, n: nat)
    ensures 1 in WithLength(scope, 1, n).length && WithLength(scope, 1, n).length[1] == n
  {
  }

  lemma BareIsReadable(env: Env, fuel: nat, n: Name, bound: nat)
    requires IsBareTypedef(env, n) && IsBoolean(Strip(env, Named(n)))
    ensures Readable(env, fuel, Sequence(Named(n), bound))
  {
    assert Readable(env, fuel, Named(n));
  }

  /**
    A vector whose elements are a typedef that comes down to the boolean is read if and only if it
    is empty or the typedef is bare. A typedef of a typedef is not.
   */
  lemma BooleanAliasRead(env: Env, ma: MaxAlign, fuel: nat, n: Name, bound: nat, kids: seq<Val>, cur: seq<Val>,
                         r: Reader)
    requires WellFormedEnv(env) && IsBoolean(Strip(env, Named(n)))
    requires AtVector(env, ma, fuel, Named(n), bound, kids, r) && AllReceptive(env, fuel, [], Named(n), cur, 0)
    requires bound == 0 || |cur| % UINT32_LIMIT <= bound
    ensures var read := ReadProg(ReadContext(env, ma), fuel, ProgOf(env, Read, SequenceType(Named(n), bound)),
                                 VNode(cur), r);
            && (read.Some? <==> IsBareTypedef(env, n) || kids == [])
            && (read.Some? ==> read.value.0 == VNode(kids))
  {
    hide ReadProg; hide ProgOf; hide AtVector; hide AllReceptive; hide WellFormedEnv;
    if IsBareTypedef(env, n) {
      BareIsReadable(env, fuel, n, bound);
      BoundOfReceiver(env, ma, fuel, Named(n), bound, kids, cur, r);
    } else if kids != [] {
      BitsNotRead(env, ma, fuel, n, bound, kids, cur, r);
    } else {
      NothingRead(env, ma, fuel, n, bound, cur, r);
    }
  }

  lemma NothingRead(env: Env, ma: MaxAlign, fuel: nat, n: Name, bound: nat, cur: seq<Val>, r: Reader)
    requires AtVector(env, ma, fuel, Named(n), bound, [], r) && (bound == 0 || |cur| % UINT32_LIMIT <= bound)
    ensures var read := ReadProg(ReadContext(env, ma), fuel, ProgOf(env, Read, SequenceType(Named(n), bound)),
                                 VNode(cur), r);
            read.Some? && read.value.0 == VNode([])
  {
    hide *;
    var cx := ReadContext(env, ma);
    ContextParts(env, ma);
    VectorProgram(cx, fuel, Named(n), bound, cur, r);
    InstanceDenotes(cur, []);
    ReadVectorUnfold(cx, fuel, Named(n), bound, Instance, 1, EMPTY_SCOPE, VNode(cur), r, cur);
    AtVectorParts(env, ma, fuel, Named(n), bound, [], r);
    HoldsSplit(r.buf, r.pos, EncNum(ma, LENGTH, 0, r.pos),
               EncAll(env, ma, fuel, [], Named(n), [], r.pos + |EncNum(ma, LENGTH, 0, r.pos)|));
    LengthTaken(cx, r, 0);
    var r' := TakeNum(cx, r, LENGTH).value.1;
    var filler := Default(env, fuel, Named(n));
    assert Resized(cur, 0, filler) == [];
    NoRounds(cx, fuel, n, VNode([]), r');
  }

  lemma NoRounds(cx: Context, fuel: nat, n: Name, root: Val, r: Reader)
    ensures ReadOp(cx, fuel, ElementOps(cx.env, Read, Named(n), 1, Instance)[0], WithLength(EMPTY_SCOPE, 1, 0), root,
                   r) == Some((root, r))
  {
    hide ReadOps; hide TypeOps;
  }

  // ----- used unions -----

  /**
    Reading a value of the implicit default into a union that was used before succeeds if and only
    if no branch is active in it: the setter of the discriminator does not leave a branch.
   */
  lemma DefaultIntoUsedUnion(env: Env, ma: MaxAlign, fuel: nat, def: Def, d: nat, x: Val, r: Reader)
    requires def.Union? && WellFormedDef(def) && HasDef(env, fuel, def, VUnion(d, None)) && x.VUnion?
    requires Ready(ReadContext(env, ma), r) && Holds(r.buf, r.pos, EncDef(env, ma, fuel, def, VUnion(d, None), r.pos))
    requires def.implicit
    ensures var read := ReadProg(ReadContext(env, ma), fuel, ProgOf(env, Read, def), x, r);
            && (read.Some? <==> ArmOf(ShapeOf(def), x.d).None?)
            && (read.Some? ==> read.value.0 == VUnion(d, None))
  {
    hide ReadOps; hide EncArray; hide HasArray; hide EntityOps; hide ArmOf; hide EncNum; hide TakeNum; hide HasNum;
    hide DefaultArray;
    var cx := ReadContext(env, ma);
    var u := ShapeOf(def);
    assert Labelled(u);
    assert EncNum(ma, def.disc, d, r.pos) + [] == EncNum(ma, def.disc, d, r.pos);
    TakeNumHeld(cx, r, def.disc, d);
    CompatibleIsSameBranch(u, x.d, d);
    hide WellFormed; hide Compatible;
  }

  // ----- enums -----

  /** Numbers are taken for enumerators as by the conversion that is emitted with the enum. */
  lemma EnumsAreConverted(width: Width, values: seq<nat>, dflt: Option<nat>, labels: seq<EnumDecl.Label>, n: nat)
    requires forall v :: EnumDecl.Convert(labels, v) ==
                         if EnumDecl.FirstIndex(values, v).Some? then EnumDecl.FirstIndex(values, v)
                         else EnumDecl.EffectiveDefault(values, dflt)
    ensures var unknown := match EnumDecl.EffectiveDefault(values,
                                                           dflt) case None => None case Some(k) => Some(values[k]);
            Convert(NumType(width, Enumeration(values, unknown)), n) ==
            match EnumDecl.Convert(labels, n)
            case None => None
            case Some(k) => if k < |values| then Some(values[k]) else None
  {
    hide EnumDecl.Convert;
    assert EnumDecl.Convert(labels, n) == if EnumDecl.FirstIndex(values, n).Some? then EnumDecl.FirstIndex(values, n)
                                          else EnumDecl.EffectiveDefault(values, dflt);
  }
}
