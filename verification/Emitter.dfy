/**
  What the generator emits for every type and each of the four streams: the specification
  that the generator's methods are proved against.
 */
module Emitter {
  import opened Wrappers
  import opened Unions
  import opened Idl
  import opened Programs

  /** Code for one object that is neither an array nor a sequence. */
  function StreamOps(env: Env, ty: Type, acc: Accessor, inVector: bool): seq<Op> {
    match ty
    case Named(n) =>
      if IsBareTypedef(env, n) then
        match env[n].ty
        case Str(bound) => [Text(acc, bound)]
        case Num(num) => NumOps(num, acc, inVector)
        case _ => []
      else [Call(n, acc)]
    case Str(bound) => [Text(acc, bound)]
    case Num(num) => NumOps(num, acc, inVector)
    case Sequence(_, _) => []
  }

  function NumOps(num: NumType, acc: Accessor, inVector: bool): seq<Op> {
    if inVector && num.kind.Boolean? then [BoolElement(acc, num)] else [Prim(acc, num)]
  }

  /** Base types other than booleans, and enums, are copied out of a vector in one go. */
  predicate Contiguous(ty: Type) { ty.Num? && !ty.num.kind.Boolean? }

  function VectorOps(env: Env, mode: Mode, elem: Type, bound: nat, depth: nat, acc: Accessor): seq<Op>
    decreases elem, 2
  {
    [Consecutive(false, IsBaseType(Strip(env, elem)),
       [Counted(depth,
                if mode == Max then Constant(bound) else SizeOf(acc),
                if bound > 0 && mode != Max then Some(bound) else None,
                if mode == Read then Some(elem) else None,
                acc,
                ElementOps(env, mode, elem, depth, acc))])]
    + (if bound == 0 && mode == Max then [Unbounded] else [])
  }

  function ElementOps(env: Env, mode: Mode, elem: Type, depth: nat, acc: Accessor): (r: seq<Op>)
    ensures |r| == 1
    decreases elem, 1
  {
    if Contiguous(elem) then
      [if mode == Move || mode == Max then BulkDefault(depth, elem.num) else BulkVector(acc, depth, elem.num)]
    else
      [ForVector(depth, TypeOps(env, mode, elem, Element(acc, depth), depth + 1, true))]
  }

  function TypeOps(env: Env, mode: Mode, ty: Type, acc: Accessor, depth: nat, inVector: bool): seq<Op>
    decreases ty, 0
  {
    if ty.Sequence? then VectorOps(env, mode, ty.elem, ty.bound, depth, acc)
    else StreamOps(env, ty, acc, inVector)
  }

  /** The loops over the dimensions of an array; `n` of them surround this code already. */
  function ArrayOps(env: Env, mode: Mode, dims: seq<nat>, ty: Type, n: nat, acc: Accessor): seq<Op>
    decreases |dims|
  {
    if dims == [] then TypeOps(env, mode, ty, acc, 1, false)
    else if |dims| == 1 && Strip(env, ty).Num? then [BulkArray(acc, Strip(env, ty).num, dims[0])]
    else [ForArray(n + 1, acc, dims[0], ArrayOps(env, mode, dims[1..], ty, n + 1, ArrayVar(n + 1)))]
  }

  /** Code for a declarator: a member, a union branch or a typedef. */
  function EntityOps(env: Env, mode: Mode, dims: seq<nat>, ty: Type, acc: Accessor): seq<Op> {
    if dims == [] then TypeOps(env, mode, ty, acc, 1, false)
    else [Consecutive(true, IsBaseType(Strip(env, ty)), ArrayOps(env, mode, dims, ty, 0, acc))]
  }

  // ----- programs -----

  /** The getter of a number returns a copy, other getters return references. */
  predicate Copied(env: Env, f: Field) {
    f.decl.presence.Required? && f.decl.dims == [] && Strip(env, f.ty).Num?
  }

  /** Strings, sequences, arrays, structs and unions are not copied, and neither are optional and external members. */
  lemma GettersReturn(env: Env, id: nat, slot: nat, dims: seq<nat>, presence: Presence, ty: Type)
    ensures var f := Field(Declarator(id, slot, dims, presence), ty);
            && (Copied(env, f) ==> dims == [] && presence == Required && !ty.Str? && !ty.Sequence?)
            && (ty.Num? && dims == [] && presence == Required ==> Copied(env, f))
            && (ty.Named? && ty.name in env && !env[ty.name].Typedef? ==> !Copied(env, f))
            && (IsAlias(env, ty) ==> (Copied(env, f) <==> Copied(env, f.(ty := env[ty.name].ty))))
  {
  }

  function EntryOf(env: Env, mode: Mode, f: Field): Entry {
    var acc := Programs.Accessor.Member(f.decl.slot);
    Entry(f.decl.id, acc, f.decl.presence, Copied(env, f), EntityOps(env, mode, f.decl.dims, f.ty, acc))
  }

  function Entries(env: Env, mode: Mode, fields: seq<Field>): (r: seq<Entry>)
    ensures |r| == |fields|
  {
    seq(|fields|, k requires 0 <= k < |fields| => EntryOf(env, mode, fields[k]))
  }

  function Ids(fields: seq<Field>): (r: seq<nat>)
    ensures |r| == |fields|
  {
    seq(|fields|, k requires 0 <= k < |fields| => fields[k].decl.id)
  }

  predicate Single(labels: Arm) {
    |labels| == 1 && !labels[0].isDefault
  }

  function BranchAccessor(mode: Mode, arm: nat): Accessor {
    if mode == Read then Obj else Branch(arm)
  }

  function BranchingOf(env: Env, mode: Mode, c: Case, arm: nat): Branching {
    Branching(c.labels, Single(c.labels), c.ty, c.dims, c.keyed,
              EntityOps(env, mode, c.dims, c.ty, BranchAccessor(mode, arm)))
  }

  function Branchings(env: Env, mode: Mode, cases: seq<Case>): (r: seq<Branching>)
    ensures |r| == |cases|
  {
    seq(|cases|, i requires 0 <= i < |cases| => BranchingOf(env, mode, cases[i], i))
  }

  function ProgOf(env: Env, mode: Mode, def: Def): Prog {
    match def
    case Struct(_, _) => StructProg(Ids(Fields(def)), Entries(env, mode, Fields(def)))
    case Union(disc, cases, _, _) => UnionProg(disc, ShapeOf(def), Branchings(env, mode, cases))
    case Typedef(ty, dims, _) => TypedefProg(EntityOps(env, mode, dims, ty, Instance))
  }

  /** The functions of a translation unit for one stream. */
  function Linked(env: Env, mode: Mode): (code: map<Name, Prog>)
    ensures code.Keys == env.Keys
    ensures forall n :: n in env ==> code[n] == ProgOf(env, mode, env[n])
  {
    map n | n in env :: ProgOf(env, mode, env[n])
  }

  // ----- text -----

  /** What precedes the code for a member: only writing and moving can skip an optional one. */
  function PresenceHead(mode: Mode, presence: Presence, acc: Accessor): seq<Token> {
    match presence
    case Required => []
    case Optional => if mode == Read then [Emplace(acc)] else if mode == Max then [] else [Open(HasValue(acc))]
    case External => if mode == Read then [Allocate(acc)] else if mode == Max then [] else [RequireTarget(acc)]
  }

  function PresenceTail(mode: Mode, presence: Presence, acc: Accessor): seq<Token> {
    if presence.Optional? && (mode == Write || mode == Move) then [Close(HasValue(acc))] else []
  }

  function EntryText(mode: Mode, e: Entry): seq<Token> {
    Wrap(IdCase(e.id), Wrap(MemberOf,
      PresenceHead(mode, e.presence, e.acc) + FlattenAll(e.body) + PresenceTail(mode, e.presence, e.acc)))
  }

  function EntriesText(mode: Mode, es: seq<Entry>): seq<Token> {
    if es == [] then [] else EntryText(mode, es[0]) + EntriesText(mode, es[1..])
  }

  function LabelsText(labels: Arm): (r: seq<Token>)
    ensures |r| == |labels|
  {
    seq(|labels|, k requires 0 <= k < |labels| => CaseLabel(labels[k]))
  }

  function BranchHead(mode: Mode, arm: nat): seq<Token> {
    match mode
    case Read => [DeclareObj(arm)]
    case Max => [SavePosition]
    case _ => []
  }

  function BranchTail(mode: Mode, arm: nat, single: bool): seq<Token> {
    match mode
    case Read => [SetBranch(arm, single)]
    case Max => [KeepLarger, RestorePosition]
    case _ => []
  }

  /** When the discriminator is a key, key streams have no branches. */
  function KeyGuard(keyed: bool, ts: seq<Token>): seq<Token> {
    if keyed then Wrap(NotKey, ts) else ts
  }

  function BranchText(mode: Mode, b: Branching, arm: nat): seq<Token> {
    (if mode == Max then [] else LabelsText(b.labels))
    + Wrap(CaseBlock, BranchHead(mode, arm) + KeyGuard(b.keyed, FlattenAll(b.body)) + BranchTail(mode, arm, b.single))
    + (if mode == Max then [] else [Break])
  }

  /** The text of the branches from number `arm` on. */
  function BranchesText(mode: Mode, bs: seq<Branching>, arm: nat): seq<Token>
    requires arm <= |bs|
    decreases |bs| - arm
  {
    if arm == |bs| then [] else BranchText(mode, bs[arm], arm) + BranchesText(mode, bs, arm + 1)
  }

  function DefaultText(mode: Mode, implicit: bool): seq<Token> {
    if !implicit || mode == Max then []
    else [DefaultLabel, if mode == Read then SetDiscriminator else Break]
  }

  function SwitchText(mode: Mode, ts: seq<Token>): seq<Token> {
    if mode == Max then ts else Wrap(Bracket.Switch, ts)
  }

  function DiscriminatorText(mode: Mode, disc: NumType): seq<Token> {
    [DeclareDiscriminator, StreamDiscriminator(disc)] + (if mode == Max then [DeclareMaximum] else [])
  }

  /** The whole function a definition is streamed by. */
  function ProgText(mode: Mode, p: Prog): seq<Token> {
    match p
    case StructProg(_, entries) =>
      Wrap(Bracket.Function, Wrap(Bracket.Struct, Wrap(EntityLoop, Wrap(IdSwitch, EntriesText(mode, entries)))))
    case UnionProg(disc, shape, branches) =>
      Wrap(Bracket.Function, Wrap(Bracket.Struct,
        DiscriminatorText(mode, disc)
        + SwitchText(mode, BranchesText(mode, branches, 0) + DefaultText(mode, shape.implicit))
        + (if mode == Max then [SetMaximum] else [])))
    case TypedefProg(body) => Wrap(Bracket.Function, FlattenAll(body))
  }

  /** The block for optional members is opened and closed on the same streams. */
  lemma PresenceNeutral(mode: Mode, presence: Presence, acc: Accessor, ts: seq<Token>)
    requires Neutral(ts)
    ensures Neutral(PresenceHead(mode, presence, acc) + ts + PresenceTail(mode, presence, acc))
  {
    var head, tail := PresenceHead(mode, presence, acc), PresenceTail(mode, presence, acc);
    if presence.Optional? && (mode == Write || mode == Move) {
      NeutralBracket(HasValue(acc), ts);
      assert head + ts + tail == Wrap(HasValue(acc), ts);
    } else {
      NeutralPlain(head);
      NeutralPlain(tail);
      NeutralAppend3(head, ts, tail);
    }
  }

  lemma EntryTextNeutral(mode: Mode, e: Entry)
    ensures Neutral(EntryText(mode, e))
  {
    hide PresenceHead; hide PresenceTail; hide FlattenAll; hide Neutral; hide Wrap;
    var text := PresenceHead(mode, e.presence, e.acc) + FlattenAll(e.body) + PresenceTail(mode, e.presence, e.acc);
    FlattenAllIsNested(e.body);
    PresenceNeutral(mode, e.presence, e.acc, FlattenAll(e.body));
    NeutralBracket(MemberOf, text);
    NeutralBracket(IdCase(e.id), Wrap(MemberOf, text));
  }

  lemma {:induction false} EntriesTextNeutral(mode: Mode, es: seq<Entry>)
    ensures Neutral(EntriesText(mode, es))
  {
    hide EntryText;
    if es != [] {
      EntryTextNeutral(mode, es[0]);
      EntriesTextNeutral(mode, es[1..]);
      NeutralAppend(EntryText(mode, es[0]), EntriesText(mode, es[1..]));
    }
  }

  lemma KeyGuardNeutral(keyed: bool, ts: seq<Token>)
    requires Neutral(ts)
    ensures Neutral(KeyGuard(keyed, ts))
  {
    NeutralBracket(NotKey, ts);
    hide Neutral;
  }

  lemma BranchTextNeutral(mode: Mode, b: Branching, arm: nat)
    ensures Neutral(BranchText(mode, b, arm))
  {
    var labels := if mode == Max then [] else LabelsText(b.labels);
    var tail := if mode == Max then [] else [Break];
    var guarded := KeyGuard(b.keyed, FlattenAll(b.body));
    var body := BranchHead(mode, arm) + guarded + BranchTail(mode, arm, b.single);
    FlattenAllIsNested(b.body);
    KeyGuardNeutral(b.keyed, FlattenAll(b.body));
    NeutralPlain(labels);
    NeutralPlain(tail);
    NeutralPlain(BranchHead(mode, arm));
    NeutralPlain(BranchTail(mode, arm, b.single));
    NeutralAppend3(BranchHead(mode, arm), guarded, BranchTail(mode, arm, b.single));
    NeutralBracket(CaseBlock, body);
    NeutralAppend3(labels, Wrap(CaseBlock, body), tail);
  }

  lemma {:induction false} BranchesTextNeutral(mode: Mode, bs: seq<Branching>, arm: nat)
    requires arm <= |bs|
    ensures Neutral(BranchesText(mode, bs, arm))
    decreases |bs| - arm
  {
    if arm < |bs| {
      BranchTextNeutral(mode, bs[arm], arm);
      BranchesTextNeutral(mode, bs, arm + 1);
      NeutralAppend(BranchText(mode, bs[arm], arm), BranchesText(mode, bs, arm + 1));
    }
  }

  lemma StructTextNeutral(mode: Mode, entries: seq<Entry>)
    ensures Neutral(Wrap(Bracket.Function, Wrap(Bracket.Struct,
                                                Wrap(EntityLoop, Wrap(IdSwitch, EntriesText(mode, entries))))))
  {
    hide *;
    var text := EntriesText(mode, entries);
    EntriesTextNeutral(mode, entries);
    NeutralBracket(IdSwitch, text);
    NeutralBracket(EntityLoop, Wrap(IdSwitch, text));
    NeutralBracket(Bracket.Struct, Wrap(EntityLoop, Wrap(IdSwitch, text)));
    NeutralBracket(Bracket.Function, Wrap(Bracket.Struct, Wrap(EntityLoop, Wrap(IdSwitch, text))));
  }

  lemma SwitchTextNeutral(mode: Mode, bs: seq<Branching>, implicit: bool)
    ensures Neutral(SwitchText(mode, BranchesText(mode, bs, 0) + DefaultText(mode, implicit)))
  {
    BranchesTextNeutral(mode, bs, 0);
    NeutralPlain(DefaultText(mode, implicit));
    hide Neutral; hide BranchesText; hide DefaultText; hide Wrap;
    var cases := BranchesText(mode, bs, 0) + DefaultText(mode, implicit);
    NeutralAppend(BranchesText(mode, bs, 0), DefaultText(mode, implicit));
    NeutralBracket(Bracket.Switch, cases);
  }

  lemma UnionTextNeutral(mode: Mode, disc: NumType, bs: seq<Branching>, implicit: bool)
    ensures var cases := SwitchText(mode, BranchesText(mode, bs, 0) + DefaultText(mode, implicit));
            Neutral(Wrap(Bracket.Function, Wrap(Bracket.Struct,
              DiscriminatorText(mode, disc) + cases + (if mode == Max then [SetMaximum] else []))))
  {
    var tail := if mode == Max then [SetMaximum] else [];
    NeutralPlain(tail);
    NeutralPlain(DiscriminatorText(mode, disc));
    hide *;
    var cases := SwitchText(mode, BranchesText(mode, bs, 0) + DefaultText(mode, implicit));
    SwitchTextNeutral(mode, bs, implicit);
    NeutralAppend3(DiscriminatorText(mode, disc), cases, tail);
    NeutralBracket(Bracket.Struct, DiscriminatorText(mode, disc) + cases + tail);
    NeutralBracket(Bracket.Function, Wrap(Bracket.Struct, DiscriminatorText(mode, disc) + cases + tail));
  }

  /**
    The text emitted for every definition is properly nested on each of the four streams,
    although the branches of a union and optional members open their blocks on some of the
    streams at a time.
   */
  lemma TextIsNested(env: Env, mode: Mode, def: Def)
    ensures Neutral(ProgText(mode, ProgOf(env, mode, def))) && Nested(ProgText(mode, ProgOf(env, mode, def)))
  {
    hide EntriesText; hide BranchesText; hide FlattenAll; hide Wrap; hide EntityOps; hide Nest;
    match ProgOf(env, mode, def)
    case StructProg(_, entries) => StructTextNeutral(mode, entries);
    case UnionProg(disc, shape, branches) => UnionTextNeutral(mode, disc, branches, shape.implicit);
    case TypedefProg(body) =>
      FlattenAllIsNested(body);
      NeutralBracket(Bracket.Function, FlattenAll(body));
  }
}
