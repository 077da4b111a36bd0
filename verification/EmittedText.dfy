/**
  The emitted text in the pieces in which the generator puts it together, and how the pieces add
  up to the text of the programs.
 */
module EmittedText {
  import opened Wrappers
  import opened Unions
  import opened Idl
  import opened Programs
  import opened Emitter

  const ALL := {Write, Read, Move, Max}
  const CONST := {Write, Move, Max}
  const NOMAX := {Write, Read, Move}

  lemma Masks()
    ensures forall m ::
            m in ALL && (m in CONST <==> m != Read) && (m in NOMAX <==> m != Max) &&
            (m in {Write, Read, Move, Max})
  {
    forall m: Mode ensures m in ALL && (m in CONST <==> m != Read) && (m in NOMAX <==> m != Max) &&
      (m in {Write, Read, Move, Max}) {
      match m case Write => case Read => case Move => case Max =>
    }
  }

  predicate Leaf(op: Op) {
    !op.Counted? && !op.ForVector? && !op.ForArray? && !op.Consecutive?
  }

  lemma LeafText(op: Op)
    requires Leaf(op)
    ensures FlattenAll([op]) == [Stmt(op)]
  {
    assert [op][1..] == [];
    assert FlattenAll([]) == [];
  }

  /** Only the read stream uses the second accessor. */
  function Pick(m: Mode, acc: Accessor, readAcc: Accessor): Accessor {
    if m == Read then readAcc else acc
  }

  // ----- text of sequences -----

  function SequenceHead(env: Env, m: Mode, elem: Type, bound: nat, depth: nat, acc: Accessor): seq<Token> {
    [Open(ConsecutiveOf(false, IsBaseType(Strip(env, elem)))), Open(SequenceBlock(depth))]
    + LengthText(depth, if m == Max then Constant(bound) else SizeOf(acc),
                 if bound > 0 && m != Max then Some(bound) else None,
                 if m == Read then Some(elem) else None, acc)
  }

  /** The check of the declared length, the length itself, and room for so many elements. */
  function WithLengthStreamed(o: seq<Token>, m: Mode, elem: Type, bound: nat, depth: nat, acc: Accessor): seq<Token> {
    var c := if bound > 0 && m != Max then o + [CheckBound(depth, bound)] else o;
    var d := c + [StreamLength(depth)];
    if m == Read then d + [Resize(acc, depth, elem)] else d
  }

  lemma HeadText(o: seq<Token>, env: Env, m: Mode, elem: Type, bound: nat, depth: nat, acc: Accessor)
    ensures var a := o + [Open(ConsecutiveOf(false, IsBaseType(Strip(env, elem))))];
            var b := a + [Open(SequenceBlock(depth)),
                          DeclareLength(depth, if m == Max then Constant(bound) else SizeOf(acc))];
            WithLengthStreamed(b, m, elem, bound, depth, acc) == o + SequenceHead(env, m, elem, bound, depth, acc)
  {
    hide IsBaseType;
  }

  lemma SequenceTailText(o: seq<Token>, env: Env, m: Mode, elem: Type, bound: nat, depth: nat)
    ensures var a := o + [Close(SequenceBlock(depth))] + [Close(ConsecutiveOf(false, IsBaseType(Strip(env, elem))))];
            o + SequenceTail(env, m, elem, bound, depth) == if bound == 0 && m == Max then a + [Stmt(Unbounded)] else a
  {
    hide IsBaseType;
  }

  function SequenceTail(env: Env, m: Mode, elem: Type, bound: nat, depth: nat): seq<Token> {
    [Close(SequenceBlock(depth)), Close(ConsecutiveOf(false, IsBaseType(Strip(env, elem))))]
    + (if bound == 0 && m == Max then [Stmt(Unbounded)] else [])
  }

  lemma FlattenOne(op: Op)
    ensures FlattenAll([op]) == Flatten(op)
  {
    assert [op][1..] == [];
    assert FlattenAll([]) == [];
  }

  lemma VectorText(env: Env, m: Mode, elem: Type, bound: nat, depth: nat, acc: Accessor)
    ensures FlattenAll(VectorOps(env, m, elem, bound, depth, acc))
            == SequenceHead(env, m, elem, bound, depth, acc) + FlattenAll(ElementOps(env, m, elem, depth, acc))
               + SequenceTail(env, m, elem, bound, depth)
  {
    var primitive := IsBaseType(Strip(env, elem));
    var len := if m == Max then Constant(bound) else SizeOf(acc);
    var check := if bound > 0 && m != Max then Some(bound) else None;
    var resize := if m == Read then Some(elem) else None;
    var body := ElementOps(env, m, elem, depth, acc);
    var tail := if bound == 0 && m == Max then [Unbounded] else [];
    hide ElementOps; hide IsBaseType; hide LengthText; hide FlattenAll; hide Flatten;
    var counted := Counted(depth, len, check, resize, acc, body);
    var whole := Consecutive(false, primitive, [counted]);
    FlattenAllAppend([whole], tail);
    FlattenOne(whole);
    CountedText(primitive, depth, len, check, resize, acc, body);
    TailText(tail);
    WrapTwice(ConsecutiveOf(false, primitive), SequenceBlock(depth), LengthText(depth, len, check, resize, acc),
              FlattenAll(body), FlattenAll(tail));
  }

  lemma CountedText(primitive: bool, depth: nat, len: Length, check: Option<nat>, resize: Option<Type>, acc: Accessor,
                    body: seq<Op>)
    ensures Flatten(Consecutive(false, primitive, [Counted(depth, len, check, resize, acc, body)]))
            == Wrap(ConsecutiveOf(false, primitive),
                    Wrap(SequenceBlock(depth), LengthText(depth, len, check, resize, acc) + FlattenAll(body)))
  {
    FlattenOne(Counted(depth, len, check, resize, acc, body));
    hide FlattenAll; hide LengthText;
  }

  lemma TailText(tail: seq<Op>)
    requires tail == [] || tail == [Unbounded]
    ensures FlattenAll(tail) == if tail == [] then [] else [Stmt(Unbounded)]
  {
    LeafText(Unbounded);
  }

  lemma WrapTwice(a: Bracket, b: Bracket, head: seq<Token>, body: seq<Token>, tail: seq<Token>)
    ensures Wrap(a, Wrap(b, head + body)) + tail == [Open(a), Open(b)] + head + body + ([Close(b), Close(a)] + tail)
  {
  }

  /** The code for one element of a vector, on each stream. */
  function InnerText(env: Env, m: Mode, elem: Type, depth: nat, acc: Accessor, readAcc: Accessor): seq<Token> {
    FlattenAll(TypeOps(env, m, elem, Pick(m, Element(acc, depth), Element(readAcc, depth)), depth + 1, true))
  }

  lemma ElementText(env: Env, elem: Type, depth: nat, acc: Accessor, readAcc: Accessor)
    ensures forall m :: FlattenAll(ElementOps(env, m, elem, depth, Pick(m, acc, readAcc))) ==
                        if !elem.Num? || elem.num.kind.Boolean? then [Open(VectorLoop(depth))]
                          + InnerText(env, m, elem, depth, acc, readAcc) + [Close(VectorLoop(depth))]
                        else [Stmt(if m == Move || m == Max then BulkDefault(depth, elem.num)
                                   else if m == Read then BulkVector(readAcc, depth, elem.num)
                                   else BulkVector(acc, depth, elem.num))]
    ensures forall m :: InnerText(env, m, elem, depth, acc, readAcc) ==
                        if elem.Sequence?
                        then FlattenAll(VectorOps(env, m, elem.elem, elem.bound, depth + 1,
                                                  Pick(m, Element(acc, depth), Element(readAcc, depth))))
                        else FlattenAll(StreamOps(env, elem, Pick(m, Element(acc, depth), Element(readAcc, depth)),
                                                  true))
  {
    forall m: Mode {
      FlattenOne(ElementOps(env, m, elem, depth, Pick(m, acc, readAcc))[0]);
    }
    hide FlattenAll; hide VectorOps; hide StreamOps;
  }

  // ----- text of arrays -----

  /** The openings of the first `n` array loops. */
  function Opens(n: nat, acc: Accessor): seq<Token> {
    if n == 0 then []
    else Opens(n - 1, acc) + [Open(ArrayLoop(n)), Over(if n == 1 then acc else ArrayVar(n - 1))]
  }

  /** The closings of the first `n` array loops, innermost first. */
  function Closes(n: nat): seq<Token> {
    if n == 0 then [] else [Close(ArrayLoop(n))] + Closes(n - 1)
  }

  /** The number of loops around the code for the elements of an array. */
  function Loops(env: Env, dims: seq<nat>, ty: Type): nat {
    if dims != [] && Strip(env, ty).Num? then |dims| - 1 else |dims|
  }

  /** The code inside these loops. */
  function InnerOps(env: Env, m: Mode, dims: seq<nat>, ty: Type, acc: Accessor): seq<Op> {
    if dims != [] && Strip(env, ty).Num? then [BulkArray(acc, Strip(env, ty).num, dims[|dims| - 1])]
    else TypeOps(env, m, ty, acc, 1, false)
  }

  function Inside(n: nat, acc: Accessor): Accessor {
    if n == 0 then acc else ArrayVar(n)
  }

  lemma OpensNone(acc: Accessor)
    ensures Opens(0, acc) == []
  {
  }

  lemma OpensNext(o: seq<Token>, n: nat, acc: Accessor)
    ensures o + Opens(n + 1, acc) == o + Opens(n, acc)
            + [Open(ArrayLoop(n + 1)), Over(if n == 0 then acc else ArrayVar(n))]
  {
  }

  lemma Inner(acc: Accessor, readAcc: Accessor)
    ensures forall m, n: nat {:trigger Inside(n, Pick(m, acc, readAcc))} ::
              Inside(n, Pick(m, acc, readAcc)) == if n > 0 then ArrayVar(n) else Pick(m, acc, readAcc)
    ensures forall m, a :: Pick(m, a, a) == a
  {
  }

  /** The text of a declarator, appended piece by piece. */
  lemma EntityText(o: seq<Token>, env: Env, m: Mode, dims: seq<nat>, ty: Type, acc: Accessor)
    ensures var b := ConsecutiveOf(true, IsBaseType(Strip(env, ty)));
            var k := Loops(env, dims, ty);
            var head := if dims == [] then o else o + [Open(b)];
            var body := head + Opens(k, acc) + FlattenAll(InnerOps(env, m, dims, ty, Inside(k, acc))) + Closes(k);
            o + FlattenAll(EntityOps(env, m, dims, ty, acc)) == if dims == [] then body else body + [Close(b)]
  {
    if dims == [] {
      PlainEntityText(o, env, m, ty, acc);
    } else {
      ArrayEntityText(o, env, m, dims, ty, acc);
    }
    hide *;
  }

  lemma PlainEntityText(o: seq<Token>, env: Env, m: Mode, ty: Type, acc: Accessor)
    ensures var k := Loops(env, [], ty);
            o + FlattenAll(EntityOps(env, m, [], ty, acc))
            == o + Opens(k, acc) + FlattenAll(InnerOps(env, m, [], ty, Inside(k, acc))) + Closes(k)
  {
    EntityIsWrapped(env, m, [], ty, acc);
    Zeroth(env, m, ty, acc);
    hide *;
    Units(o, FlattenAll(TypeOps(env, m, ty, acc, 1, false)));
  }

  lemma ArrayEntityText(o: seq<Token>, env: Env, m: Mode, dims: seq<nat>, ty: Type, acc: Accessor)
    requires dims != []
    ensures var b := ConsecutiveOf(true, IsBaseType(Strip(env, ty)));
            var k := Loops(env, dims, ty);
            o + FlattenAll(EntityOps(env, m, dims, ty, acc))
            == o + [Open(b)] + Opens(k, acc) + FlattenAll(InnerOps(env, m, dims, ty, Inside(k, acc))) + Closes(k)
              + [Close(b)]
  {
    var k := Loops(env, dims, ty);
    WholeArrayText(env, m, dims, ty, acc);
    EntityIsWrapped(env, m, dims, ty, acc);
    hide *;
    Enclosed(o, ConsecutiveOf(true, IsBaseType(Strip(env, ty))), Opens(k, acc),
             FlattenAll(InnerOps(env, m, dims, ty, Inside(k, acc))), Closes(k));
  }

  lemma WholeArrayText(env: Env, m: Mode, dims: seq<nat>, ty: Type, acc: Accessor)
    ensures var k := Loops(env, dims, ty);
            FlattenAll(ArrayOps(env, m, dims, ty, 0, acc)) == Opens(k, acc)
              + FlattenAll(InnerOps(env, m, dims, ty, Inside(k, acc))) + Closes(k)
  {
    hide *;
    ArrayText(env, m, dims, ty, 0, acc);
    Zeroth(env, m, ty, acc);
    assert 0 + Loops(env, dims, ty) == Loops(env, dims, ty);
    Units([], FlattenAll(ArrayOps(env, m, dims, ty, 0, acc)));
  }

  lemma Units(o: seq<Token>, text: seq<Token>)
    ensures o + [] + text + [] == o + text
    ensures [] + text == text
  {
  }

  lemma EntityIsWrapped(env: Env, m: Mode, dims: seq<nat>, ty: Type, acc: Accessor)
    ensures FlattenAll(EntityOps(env, m, dims, ty, acc)) ==
            if dims == [] then FlattenAll(TypeOps(env, m, ty, acc, 1, false))
            else Wrap(ConsecutiveOf(true, IsBaseType(Strip(env, ty))), FlattenAll(ArrayOps(env, m, dims, ty, 0, acc)))
  {
    FlattenOne(Consecutive(true, IsBaseType(Strip(env, ty)), ArrayOps(env, m, dims, ty, 0, acc)));
    hide FlattenAll; hide ArrayOps;
  }

  lemma Zeroth(env: Env, m: Mode, ty: Type, acc: Accessor)
    ensures Loops(env, [], ty) == 0 && Inside(0, acc) == acc && Opens(0, acc) == [] && Closes(0) == []
    ensures InnerOps(env, m, [], ty, acc) == TypeOps(env, m, ty, acc, 1, false)
  {
  }

  lemma Enclosed(o: seq<Token>, b: Bracket, x: seq<Token>, y: seq<Token>, z: seq<Token>)
    ensures o + Wrap(b, x + y + z) == o + [Open(b)] + x + y + z + [Close(b)]
  {
  }

  lemma {:induction false} ArrayText(env: Env, m: Mode, dims: seq<nat>, ty: Type, n: nat, acc: Accessor)
    ensures var k := n + Loops(env, dims, ty);
            Opens(n, acc) + FlattenAll(ArrayOps(env, m, dims, ty, n, Inside(n, acc))) + Closes(n)
            == Opens(k, acc) + FlattenAll(InnerOps(env, m, dims, ty, Inside(k, acc))) + Closes(k)
    decreases |dims|
  {
    hide FlattenAll; hide Flatten; hide TypeOps; hide Strip; hide Opens; hide Closes;
    if Loops(env, dims, ty) > 0 {
      ArrayText(env, m, dims[1..], ty, n + 1, acc);
      assert dims[1..] != [] ==> dims[1..][|dims| - 2] == dims[|dims| - 1];
      var body := ArrayOps(env, m, dims[1..], ty, n + 1, ArrayVar(n + 1));
      ForArrayText(n + 1, Inside(n, acc), dims[0], body);
      LoopText(n, acc, FlattenAll(body));
    }
  }

  lemma ForArrayText(depth: nat, acc: Accessor, dim: nat, body: seq<Op>)
    ensures FlattenAll([ForArray(depth, acc, dim, body)]) == Wrap(ArrayLoop(depth), [Over(acc)] + FlattenAll(body))
  {
    FlattenOne(ForArray(depth, acc, dim, body));
  }

  lemma LoopText(n: nat, acc: Accessor, body: seq<Token>)
    ensures Opens(n, acc) + Wrap(ArrayLoop(n + 1), [Over(Inside(n, acc))] + body) + Closes(n)
            == Opens(n + 1, acc) + body + Closes(n + 1)
  {
  }

  // ----- inheritance -----

  predicate Inheritance(def: Def) {
    def.Struct? && (def.base.Inherits? ==> Inheritance(def.base.def))
  }

  function Depth(def: Def): nat
    requires Inheritance(def)
  {
    if def.base.Inherits? then 1 + Depth(def.base.def) else 0
  }

  function Ancestor(def: Def, k: nat): (r: Def)
    requires Inheritance(def) && k <= Depth(def)
    ensures Inheritance(r) && Depth(r) == Depth(def) - k
    decreases k
  {
    if k == 0 then def else Ancestor(def.base.def, k - 1)
  }

  lemma {:induction false} AncestorStep(def: Def, k: nat)
    requires Inheritance(def) && k < Depth(def)
    ensures Ancestor(def, k).base.Inherits? && Ancestor(def, k).base.def == Ancestor(def, k + 1)
    decreases k
  {
    if k > 0 { AncestorStep(def.base.def, k - 1); }
  }

  /** The fields of the ancestor at distance `k`; an ancestor too far away has none. */
  function Inherited(def: Def, k: nat): seq<Field>
    requires Inheritance(def) && k <= Depth(def) + 1
  {
    if k <= Depth(def) then Fields(Ancestor(def, k)) else []
  }

  lemma InheritedStep(def: Def, k: nat)
    requires Inheritance(def) && k <= Depth(def)
    ensures Inherited(def, k) == Inherited(def, k + 1) + AncestorFields(def, k)
  {
    if k < Depth(def) { AncestorStep(def, k); }
  }

  /** The members an ancestor has itself. */
  function AncestorFields(def: Def, k: nat): seq<Field>
    requires Inheritance(def) && k <= Depth(def)
  {
    FieldsOf(Ancestor(def, k).members)
  }

  /** The cases of the members of an ancestor, and of all it inherits as well. */
  function AncestorText(env: Env, m: Mode, def: Def, k: nat): seq<Token>
    requires Inheritance(def) && k <= Depth(def)
  {
    FieldsText(env, m, AncestorFields(def, k))
  }

  function InheritedText(env: Env, m: Mode, def: Def, k: nat): seq<Token>
    requires Inheritance(def) && k <= Depth(def) + 1
  {
    FieldsText(env, m, Inherited(def, k))
  }

  lemma AncestorMembers(env: Env, m: Mode, def: Def, k: nat, base: Def)
    requires Inheritance(def) && k <= Depth(def) && base == Ancestor(def, k)
    ensures base.Struct? && AncestorText(env, m, def, k) == FieldsText(env, m, FieldsOf(base.members))
  {
    hide FieldsText;
  }

  lemma InheritedTextNone(o: seq<Token>, env: Env, m: Mode, def: Def)
    requires Inheritance(def)
    ensures o + InheritedText(env, m, def, Depth(def) + 1) == o
  {
    InheritedEnds(def);
    FieldsTextNone(o, env, m);
  }

  lemma InheritedTextAll(env: Env, m: Mode, def: Def)
    requires Inheritance(def)
    ensures InheritedText(env, m, def, 0) == FieldsText(env, m, Fields(def))
  {
    InheritedEnds(def);
    hide FieldsText;
  }

  lemma InheritedEnds(def: Def)
    requires Inheritance(def)
    ensures Inherited(def, Depth(def) + 1) == [] && Inherited(def, 0) == Fields(def)
  {
  }

  lemma {:induction false} FieldsOfAppend(a: seq<Member>, b: seq<Member>)
    ensures FieldsOf(a + b) == FieldsOf(a) + FieldsOf(b)
  {
    if a == [] {
      assert a + b == b;
    } else {
      assert (a + b)[1..] == a[1..] + b;
      FieldsOfAppend(a[1..], b);
    }
  }

  lemma FieldsOfNext(members: seq<Member>, k: nat)
    requires k < |members|
    ensures FieldsOf(members[..k + 1]) == FieldsOf(members[..k]) + MemberFields(members[k])
  {
    assert members[..k + 1] == members[..k] + [members[k]];
    FieldsOfAppend(members[..k], [members[k]]);
    assert FieldsOf([members[k]][1..]) == [];
  }

  lemma {:induction false} EntriesTextAppend(m: Mode, a: seq<Entry>, b: seq<Entry>)
    ensures EntriesText(m, a + b) == EntriesText(m, a) + EntriesText(m, b)
  {
    hide EntryText;
    if a == [] {
      assert a + b == b;
    } else {
      assert (a + b)[1..] == a[1..] + b;
      EntriesTextAppend(m, a[1..], b);
      Associative(EntryText(m, a[0]), EntriesText(m, a[1..]), EntriesText(m, b));
    }
  }

  function FieldsText(env: Env, m: Mode, fs: seq<Field>): seq<Token> {
    EntriesText(m, Entries(env, m, fs))
  }

  lemma FieldsTextAppend(env: Env, m: Mode, a: seq<Field>, b: seq<Field>)
    ensures FieldsText(env, m, a + b) == FieldsText(env, m, a) + FieldsText(env, m, b)
  {
    hide EntriesText; hide EntryOf;
    assert Entries(env, m, a + b) == Entries(env, m, a) + Entries(env, m, b);
    EntriesTextAppend(m, Entries(env, m, a), Entries(env, m, b));
  }

  lemma IdsAppend(a: seq<Field>, b: seq<Field>)
    ensures Ids(a + b) == Ids(a) + Ids(b)
  {
  }

  /** The case of one declarator, appended piece by piece. */
  lemma FieldText(o: seq<Token>, env: Env, m: Mode, f: Field)
    ensures var acc := Programs.Accessor.Member(f.decl.slot);
            o + MemberHead(m, f.decl, acc) + FlattenAll(EntityOps(env, m, f.decl.dims, f.ty, acc))
              + MemberTail(m, f.decl, acc)
            == o + FieldsText(env, m, [f])
  {
    hide FlattenAll; hide EntityOps; hide PresenceHead; hide PresenceTail;
    var e := EntryOf(env, m, f);
    assert Entries(env, m, [f]) == [e];
    assert EntriesText(m, [e][1..]) == [];
    assert EntriesText(m, [e]) == EntryText(m, e);
    MemberWrapped(o, e.id, PresenceHead(m, e.presence, e.acc), FlattenAll(e.body), PresenceTail(m, e.presence, e.acc));
  }

  /** Where the code for a member starts, on each stream. */
  function MemberHead(m: Mode, decl: Declarator, acc: Accessor): seq<Token> {
    [Open(IdCase(decl.id)), Open(MemberOf)] + PresenceHead(m, decl.presence, acc)
  }

  function MemberTail(m: Mode, decl: Declarator, acc: Accessor): seq<Token> {
    PresenceTail(m, decl.presence, acc) + [Close(MemberOf), Close(IdCase(decl.id))]
  }

  lemma MemberWrapped(o: seq<Token>, id: nat, x: seq<Token>, y: seq<Token>, z: seq<Token>)
    ensures o + ([Open(IdCase(id)), Open(MemberOf)] + x) + y + (z + [Close(MemberOf), Close(IdCase(id))])
            == o + Wrap(IdCase(id), Wrap(MemberOf, x + y + z))
  {
  }

  lemma HeadPieces(o: seq<Token>, m: Mode, decl: Declarator, acc: Accessor)
    ensures var a := o + [Open(IdCase(decl.id)), Open(MemberOf)];
            o + MemberHead(m, decl, acc) ==
            match decl.presence
            case Required => a
            case External => if m == Read then a + [Allocate(acc)] else if m == Max then a else a + [RequireTarget(acc)]
            case Optional => if m == Read then a + [Emplace(acc)] else if m == Max then a else a + [Open(HasValue(acc))]
  {
  }

  lemma TailPieces(o: seq<Token>, m: Mode, decl: Declarator, acc: Accessor)
    ensures var a := if decl.presence.Optional? && (m == Write || m == Move) then o + [Close(HasValue(acc))] else o;
            o + MemberTail(m, decl, acc) == a + [Close(MemberOf), Close(IdCase(decl.id))]
  {
  }

  lemma FieldsTextNext(o: seq<Token>, env: Env, m: Mode, fs: seq<Field>, k: nat)
    requires k < |fs|
    ensures o + FieldsText(env, m, fs[..k]) + FieldsText(env, m, [fs[k]]) == o + FieldsText(env, m, fs[..k + 1])
  {
    hide FieldsText;
    assert fs[..k + 1] == fs[..k] + [fs[k]];
    FieldsTextAppend(env, m, fs[..k], [fs[k]]);
    Associative(o, FieldsText(env, m, fs[..k]), FieldsText(env, m, [fs[k]]));
  }

  /** The cases of one more of the ancestors. */
  lemma InheritedTextNext(o: seq<Token>, env: Env, m: Mode, def: Def, k: nat)
    requires Inheritance(def) && k <= Depth(def)
    ensures o + InheritedText(env, m, def, k + 1) + AncestorText(env, m, def, k) == o + InheritedText(env, m, def, k)
  {
    InheritedStep(def, k);
    hide FieldsText; hide Inherited; hide AncestorFields;
    FieldsTextAppend(env, m, Inherited(def, k + 1), AncestorFields(def, k));
    Associative(o, FieldsText(env, m, Inherited(def, k + 1)), FieldsText(env, m, AncestorFields(def, k)));
  }

  lemma FieldsTextNone(o: seq<Token>, env: Env, m: Mode)
    ensures o + FieldsText(env, m, []) == o
  {
    assert Entries(env, m, []) == [];
  }

  lemma MembersTextNext(o: seq<Token>, env: Env, m: Mode, members: seq<Member>, k: nat)
    requires k < |members|
    ensures o + FieldsText(env, m, FieldsOf(members[..k])) + FieldsText(env, m, MemberFields(members[k]))
            == o + FieldsText(env, m, FieldsOf(members[..k + 1]))
  {
    hide FieldsText;
    FieldsOfNext(members, k);
    var a, b := FieldsOf(members[..k]), MemberFields(members[k]);
    FieldsTextAppend(env, m, a, b);
    Associative(o, FieldsText(env, m, a), FieldsText(env, m, b));
  }

  lemma StructText(o: seq<Token>, env: Env, m: Mode, def: Def)
    requires def.Struct?
    ensures o + [Open(Bracket.Function), Open(Bracket.Struct)] + [Open(EntityLoop), Open(IdSwitch)]
            + FieldsText(env, m, Fields(def))
            + [Close(IdSwitch), Close(EntityLoop)] + [Close(Bracket.Struct), Close(Bracket.Function)]
            == o + ProgText(m, ProgOf(env, m, def))
  {
    hide EntriesText; hide Entries; hide Fields; hide Ids;
    Boxed(o, EntriesText(m, Entries(env, m, Fields(def))));
  }

  lemma Boxed(o: seq<Token>, text: seq<Token>)
    ensures o + [Open(Bracket.Function), Open(Bracket.Struct)] + [Open(EntityLoop), Open(IdSwitch)] + text
            + [Close(IdSwitch), Close(EntityLoop)] + [Close(Bracket.Struct), Close(Bracket.Function)]
            == o + Wrap(Bracket.Function, Wrap(Bracket.Struct, Wrap(EntityLoop, Wrap(IdSwitch, text))))
  {
  }

  /** The first labels of a branch. */
  function LabelsTo(labels: Arm, k: nat): seq<Token>
    requires k <= |labels|
  {
    LabelsText(labels)[..k]
  }

  lemma LabelsNone(o: seq<Token>, labels: Arm)
    ensures o + LabelsTo(labels, 0) == o
  {
  }

  lemma LabelsNext(o: seq<Token>, labels: Arm, k: nat)
    requires k < |labels|
    ensures o + LabelsTo(labels, k) + [CaseLabel(labels[k])] == o + LabelsTo(labels, k + 1)
  {
  }

  lemma LabelsAll(labels: Arm)
    ensures LabelsTo(labels, |labels|) == LabelsText(labels)
  {
  }

  function BlockOpening(m: Mode, arm: nat): seq<Token> {
    match m
    case Read => [Open(CaseBlock), DeclareObj(arm)]
    case Max => [Open(CaseBlock), SavePosition]
    case _ => [Open(CaseBlock)]
  }

  function BlockClosing(m: Mode, arm: nat, single: bool): seq<Token> {
    match m
    case Read => [SetBranch(arm, single), Close(CaseBlock), Break]
    case Max => [KeepLarger, RestorePosition, Close(CaseBlock)]
    case _ => [Close(CaseBlock), Break]
  }

  lemma BlockPieces(o: seq<Token>, env: Env, m: Mode, c: Case, arm: nat)
    ensures var single := |c.labels| == 1 && !c.labels[0].isDefault;
            var a := o + BlockOpening(m, arm);
            var b := if c.keyed then a + [Open(NotKey)] else a;
            var d := b + FlattenAll(EntityOps(env, m, c.dims, c.ty, Pick(m, Branch(arm), Obj)));
            var e := if c.keyed then d + [Close(NotKey)] else d;
            e + BlockClosing(m, arm, single) == o + BlockText(m, BranchingOf(env, m, c, arm), arm)
  {
    var single := |c.labels| == 1 && !c.labels[0].isDefault;
    var guarded := KeyGuard(c.keyed, FlattenAll(EntityOps(env, m, c.dims, c.ty, Pick(m, Branch(arm), Obj))));
    BlockParts(env, m, c, arm);
    hide *;
    Guarded(o + [Open(CaseBlock)], c.keyed, FlattenAll(EntityOps(env, m, c.dims, c.ty, Pick(m, Branch(arm), Obj))));
    Guarded(o + [Open(CaseBlock), DeclareObj(arm)], c.keyed,
            FlattenAll(EntityOps(env, m, c.dims, c.ty, Pick(m, Branch(arm), Obj))));
    Guarded(o + [Open(CaseBlock), SavePosition], c.keyed,
            FlattenAll(EntityOps(env, m, c.dims, c.ty, Pick(m, Branch(arm), Obj))));
    match m
    case Read => ReadBlock(o, guarded, arm, single);
    case Max => MaxBlock(o, guarded);
    case _ => PlainBlock(o, guarded);
  }

  lemma BlockParts(env: Env, m: Mode, c: Case, arm: nat)
    ensures var single := |c.labels| == 1 && !c.labels[0].isDefault;
            var guarded := KeyGuard(c.keyed, FlattenAll(EntityOps(env, m, c.dims, c.ty, Pick(m, Branch(arm), Obj))));
            BlockText(m, BranchingOf(env, m, c, arm), arm) ==
            match m
            case Read => Wrap(CaseBlock, [DeclareObj(arm)] + guarded + [SetBranch(arm, single)]) + [Break]
            case Max => Wrap(CaseBlock, [SavePosition] + guarded + [KeepLarger, RestorePosition]) + []
            case _ => Wrap(CaseBlock, [] + guarded + []) + [Break]
  {
    hide FlattenAll; hide EntityOps; hide KeyGuard; hide Wrap;
  }

  lemma Guarded(o: seq<Token>, keyed: bool, body: seq<Token>)
    ensures (if keyed then o + [Open(NotKey)] + body + [Close(NotKey)] else o + body) == o + KeyGuard(keyed, body)
  {
  }

  lemma ReadBlock(o: seq<Token>, body: seq<Token>, arm: nat, single: bool)
    ensures o + [Open(CaseBlock), DeclareObj(arm)] + body + [SetBranch(arm, single), Close(CaseBlock), Break]
            == o + (Wrap(CaseBlock, [DeclareObj(arm)] + body + [SetBranch(arm, single)]) + [Break])
  {
  }

  lemma MaxBlock(o: seq<Token>, body: seq<Token>)
    ensures o + [Open(CaseBlock), SavePosition] + body + [KeepLarger, RestorePosition, Close(CaseBlock)]
            == o + (Wrap(CaseBlock, [SavePosition] + body + [KeepLarger, RestorePosition]) + [])
  {
  }

  lemma PlainBlock(o: seq<Token>, body: seq<Token>)
    ensures o + [Open(CaseBlock)] + body + [Close(CaseBlock), Break]
            == o + (Wrap(CaseBlock, [] + body + []) + [Break])
  {
  }

  lemma BranchPieces(o: seq<Token>, env: Env, m: Mode, c: Case, arm: nat)
    ensures var a := if arm == 0 && m != Max then o + [Open(Bracket.Switch)] else o;
            var b := if m == Max then a else a + LabelsText(c.labels);
            b + BlockText(m, BranchingOf(env, m, c, arm), arm)
            == o + EnterText(m, arm) + BranchText(m, BranchingOf(env, m, c, arm), arm)
  {
    hide FlattenAll; hide EntityOps; hide LabelsText; hide Wrap; hide BranchHead; hide BranchTail;
  }

  lemma LeavePieces(o: seq<Token>, m: Mode, implicit: bool, last: bool)
    ensures var e := if !implicit || m == Max then o
                     else if m == Read then o + [DefaultLabel, SetDiscriminator] else o + [DefaultLabel, Break];
            o + LeaveText(m, implicit, last) == if !last then o else if m != Max then e + [Close(Bracket.Switch)] else e
  {
  }

  lemma CasesNone(o: seq<Token>, env: Env, m: Mode, def: Def)
    requires def.Union?
    ensures o + CasesTo(m, Branchings(env, m, def.cases), def.implicit, 0) == o
  {
  }

  lemma BranchingAt(env: Env, m: Mode, cases: seq<Case>, k: nat)
    requires k < |cases|
    ensures |Branchings(env, m, cases)| == |cases| && Branchings(env, m, cases)[k] == BranchingOf(env, m, cases[k], k)
  {
  }

  lemma UnionText(o: seq<Token>, env: Env, m: Mode, def: Def)
    requires def.Union? && def.cases != []
    ensures var bs := Branchings(env, m, def.cases);
            var a := o + [Open(Bracket.Function), Open(Bracket.Struct)] + DiscriminatorText(m, def.disc)
                     + CasesTo(m, bs, def.implicit, |def.cases|);
            (if m == Max then a + [SetMaximum] else a) + [Close(Bracket.Struct), Close(Bracket.Function)]
            == o + ProgText(m, ProgOf(env, m, def))
  {
    var bs := Branchings(env, m, def.cases);
    var d, sw := DiscriminatorText(m, def.disc), CasesTo(m, bs, def.implicit, |def.cases|);
    var tail := if m == Max then [SetMaximum] else [];
    UnionIsWrapped(env, m, def);
    hide *;
    Wrapped3(o, Bracket.Function, Bracket.Struct, d, sw, tail);
    if m != Max {
      assert o + [Open(Bracket.Function), Open(Bracket.Struct)] + d + sw + [] == o
             + [Open(Bracket.Function), Open(Bracket.Struct)] + d + sw;
    }
  }

  lemma UnionIsWrapped(env: Env, m: Mode, def: Def)
    requires def.Union? && def.cases != []
    ensures var bs := Branchings(env, m, def.cases);
            ProgText(m, ProgOf(env, m, def)) ==
            Wrap(Bracket.Function, Wrap(Bracket.Struct,
              DiscriminatorText(m, def.disc) + CasesTo(m, bs, def.implicit, |def.cases|)
                + if m == Max then [SetMaximum] else []))
  {
    AllCases(m, Branchings(env, m, def.cases), def.implicit);
    hide DiscriminatorText; hide CasesTo; hide SwitchText; hide DefaultText; hide BranchesText; hide Branchings;
    hide Wrap;
  }

  lemma Wrapped3(o: seq<Token>, a: Bracket, b: Bracket, x: seq<Token>, y: seq<Token>, z: seq<Token>)
    ensures o + Wrap(a, Wrap(b, x + y + z)) == o + [Open(a), Open(b)] + x + y + z + [Close(b), Close(a)]
  {
  }

  lemma NoFields(env: Env, def: Def)
    requires !def.Struct?
    ensures Ids(Fields(def)) == []
    ensures def.Typedef? ==> forall m ::
            ProgOf(env, m, def) ==
            TypedefProg(EntityOps(env, m, def.dims, def.ty, Instance))
  {
  }

  lemma Associative4<T>(a: seq<T>, b: seq<T>, c: seq<T>, d: seq<T>)
    ensures a + b + c + d == a + (b + c + d)
  {
  }

  lemma Associative5<T>(a: seq<T>, b: seq<T>, c: seq<T>, d: seq<T>, e: seq<T>)
    ensures a + b + c + d + e == a + (b + c + d + e)
  {
  }

  // ----- unions -----

  /** Everything of a branch but its labels. */
  function BlockText(m: Mode, b: Branching, arm: nat): seq<Token> {
    Wrap(CaseBlock, BranchHead(m, arm) + KeyGuard(b.keyed, FlattenAll(b.body)) + BranchTail(m, arm, b.single))
    + (if m == Max then [] else [Break])
  }

  /** Opens the switch before the first branch. */
  function EnterText(m: Mode, arm: nat): seq<Token> {
    if arm == 0 && m != Max then [Open(Bracket.Switch)] else []
  }

  /** Closes the switch after the last branch. */
  function LeaveText(m: Mode, implicit: bool, last: bool): seq<Token> {
    if last && m != Max then DefaultText(m, implicit) + [Close(Bracket.Switch)] else []
  }

  /** What has been written when `k` branches are done. */
  function CasesTo(m: Mode, bs: seq<Branching>, implicit: bool, k: nat): seq<Token>
    requires k <= |bs|
  {
    if k == 0 then []
    else EnterText(m, 0) + BranchesTo(m, bs, 0, k) + LeaveText(m, implicit, k == |bs|)
  }

  lemma CasesNext(o: seq<Token>, m: Mode, bs: seq<Branching>, implicit: bool, k: nat)
    requires k < |bs|
    ensures o + CasesTo(m, bs, implicit, k) + EnterText(m, k) + BranchText(m, bs[k], k)
            + LeaveText(m, implicit, k + 1 == |bs|)
            == o + CasesTo(m, bs, implicit, k + 1)
  {
    BranchesTextNext(m, bs, 0, k);
    assert k == 0 ==> BranchesTo(m, bs, 0, 0) == [];
    var e, t, b, l := EnterText(m, 0), BranchesTo(m, bs, 0,
                                                  k), BranchText(m, bs[k], k), LeaveText(m, implicit, k + 1 == |bs|);
    if k > 0 { assert EnterText(m, k) == [] && LeaveText(m, implicit, k == |bs|) == []; }
    hide BranchText; hide BranchesTo; hide LeaveText; hide EnterText;
    Appended4(o, e, t, b, l);
  }

  lemma Appended4<T>(o: seq<T>, a: seq<T>, b: seq<T>, c: seq<T>, d: seq<T>)
    ensures o + (a + b + []) + [] + c + d == o + (a + (b + c) + d)
    ensures o + [] + a + c + d == o + (a + ([] + c) + d)
  {
  }

  lemma {:induction false} BranchesTextNext(m: Mode, bs: seq<Branching>, i: nat, k: nat)
    requires i <= k < |bs|
    ensures BranchesTo(m, bs, i, k + 1) == BranchesTo(m, bs, i, k) + BranchText(m, bs[k], k)
    decreases k - i
  {
    hide BranchText;
    if i < k {
      BranchesTextNext(m, bs, i + 1, k);
      Associative(BranchText(m, bs[i], i), BranchesTo(m, bs, i + 1, k), BranchText(m, bs[k], k));
    }
  }

  /** The text of the branches from number `i` up to number `k`. */
  function BranchesTo(m: Mode, bs: seq<Branching>, i: nat, k: nat): seq<Token>
    requires i <= k <= |bs|
    decreases k - i
  {
    if i == k then [] else BranchText(m, bs[i], i) + BranchesTo(m, bs, i + 1, k)
  }

  lemma {:induction false} BranchesToAll(m: Mode, bs: seq<Branching>, i: nat)
    requires i <= |bs|
    ensures BranchesTo(m, bs, i, |bs|) == BranchesText(m, bs, i)
    decreases |bs| - i
  {
    hide BranchText;
    if i < |bs| { BranchesToAll(m, bs, i + 1); }
  }

  lemma AllCases(m: Mode, bs: seq<Branching>, implicit: bool)
    requires bs != []
    ensures CasesTo(m, bs, implicit, |bs|) == SwitchText(m, BranchesText(m, bs, 0) + DefaultText(m, implicit))
  {
    BranchesToAll(m, bs, 0);
    AroundCases(m, BranchesText(m, bs, 0), implicit);
    hide BranchesTo; hide BranchesText; hide EnterText; hide LeaveText; hide SwitchText; hide DefaultText;
  }

  lemma AroundCases(m: Mode, text: seq<Token>, implicit: bool)
    ensures EnterText(m, 0) + text + LeaveText(m, implicit, true) == SwitchText(m, text + DefaultText(m, implicit))
  {
    if m == Max {
      assert [] + text + [] == text == text + DefaultText(m, implicit);
    } else {
      hide DefaultText;
      assert [Open(Bracket.Switch)] + text + (DefaultText(m, implicit) + [Close(Bracket.Switch)])
          == [Open(Bracket.Switch)] + (text + DefaultText(m, implicit)) + [Close(Bracket.Switch)];
    }
  }

  // ----- translation units -----

  /** What a definition adds to the header. */
  function DefText(env: Env, def: Def): seq<Token> {
    ProgText(Write, ProgOf(env, Write, def)) + ProgText(Read, ProgOf(env, Read, def))
    + ProgText(Move, ProgOf(env, Move, def)) + ProgText(Max, ProgOf(env, Max, def))
  }

  function UnitText(env: Env, defs: seq<Def>): seq<Token> {
    if defs == [] then [] else DefText(env, defs[0]) + UnitText(env, defs[1..])
  }

  function UnitIds(defs: seq<Def>): seq<nat> {
    if defs == [] then [] else Ids(Fields(defs[0])) + UnitIds(defs[1..])
  }

  predicate Generable(def: Def) {
    match def
    case Struct(_, _) => Inheritance(def)
    case Union(_, cases, _, _) => cases != []
    case Typedef(_, _, _) => true
  }

  /** The header that a translation unit generates is properly nested as a whole. */
  lemma {:induction false} UnitIsNested(env: Env, defs: seq<Def>)
    ensures Neutral(UnitText(env, defs)) && Nested(UnitText(env, defs))
  {
    if defs != [] {
      var def := defs[0];
      forall m: Mode { TextIsNested(env, m, def); }
      hide ProgText; hide ProgOf; hide Neutral;
      NeutralAppend3(ProgText(Write, ProgOf(env, Write, def)), ProgText(Read, ProgOf(env, Read, def)),
                     ProgText(Move, ProgOf(env, Move, def)));
      NeutralAppend(ProgText(Write, ProgOf(env, Write, def)) + ProgText(Read, ProgOf(env, Read, def))
        + ProgText(Move, ProgOf(env, Move, def)),
                    ProgText(Max, ProgOf(env, Max, def)));
      UnitIsNested(env, defs[1..]);
      NeutralAppend(DefText(env, def), UnitText(env, defs[1..]));
    }
  }
}
