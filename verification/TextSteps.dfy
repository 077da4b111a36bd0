/**
  Steps of running emitted text that do not depend on what is done with the object: what the code for a
  declarator is about, and what its blocks come to.
 */
module TextSteps {
  import opened Wrappers
  import opened Wire
  import opened Unions
  import opened Idl
  import opened Programs
  import opened Emitter
  import opened Objects
  import opened Machine
  import opened TextNodes
  import opened TextMachine

  /** What is emitted for a definition on one stream, and in the table of its member ids. */
  function EmittedFor(env: Env, mode: Mode, def: Def): Emitted {
    Emitted(ProgText(mode, ProgOf(env, mode, def)), Ids(Fields(def)))
  }

  /** The header and the tables of a translation unit, as one stream sees them. */
  function Header(env: Env, mode: Mode): (code: map<Name, Emitted>)
    ensures code.Keys == env.Keys
    ensures forall n :: n in env ==> code[n] == EmittedFor(env, mode, env[n])
  {
    map n | n in env :: EmittedFor(env, mode, env[n])
  }

  /** The program that the text of a unit was made from. */
  function Origins(u: Unit): Context {
    Context(u.mode, u.env, Linked(u.env, u.mode), u.ma, u.capacity, u.checked)
  }

  ghost predicate Made(u: Unit) {
    u.code == Header(u.env, u.mode) && WellFormedEnv(u.env) && !u.key
  }

  lemma CodeOf(u: Unit, name: Name)
    requires Made(u)
    ensures name in u.code <==> name in u.env
    ensures name in Origins(u).code <==> name in u.env
    ensures Origins(u).env == u.env
    ensures name in u.env ==> WellFormedDef(u.env[name]) && u.code[name] == EmittedFor(u.env, u.mode, u.env[name])
    ensures name in u.env ==> Origins(u).code[name] == ProgOf(u.env, u.mode, u.env[name])
  {
    hide EmittedFor; hide ProgOf; hide WellFormedDef;
  }

  // ----- accessors -----

  predicate IsBase(acc: Accessor) { !acc.Element? && !acc.ArrayVar? }

  /** The accessor leads into `base`, directly or by one of the first `n` array variables. */
  predicate Starts(acc: Accessor, base: Accessor, n: nat) {
    match acc
    case Element(vector, _) => Starts(vector, base, n)
    case ArrayVar(k) => 1 <= k <= n
    case _ => acc == base
  }

  /** Code for one declarator: all of it is about the same object, and its array loops are those of the dimensions. */
  predicate Rooted(mode: Mode, base: Accessor, dims: seq<nat>, n: nat, op: Op)
    decreases op, 1
  {
    match op
    case Counted(_, len, _, resize, acc, body) =>
      && (len.SizeOf? ==> Starts(len.acc, base, n))
      && (mode == Read ==> len == SizeOf(acc) && resize.Some?) && (mode != Read ==> resize.None?)
      && AllRooted(mode, base, dims, n, body)
    case ForVector(_, body) => AllRooted(mode, base, dims, n, body)
    case ForArray(depth, acc, dim, body) =>
      && Starts(acc, base, n) && !acc.Element? && depth == n + 1 <= |dims| && dim == dims[n]
      && AllRooted(mode, base, dims, n + 1, body)
    case Consecutive(_, _, body) => AllRooted(mode, base, dims, n, body)
    case BulkDefault(_, _) => true
    case Unbounded => true
    case _ => Starts(AccessorOf(op), base, n)
  }

  predicate AllRooted(mode: Mode, base: Accessor, dims: seq<nat>, n: nat, ops: seq<Op>)
    decreases ops, 0
  {
    ops != [] ==> Rooted(mode, base, dims, n, ops[0]) && AllRooted(mode, base, dims, n, ops[1..])
  }

  lemma RootedOne(mode: Mode, base: Accessor, dims: seq<nat>, n: nat, op: Op)
    ensures AllRooted(mode, base, dims, n, [op]) <==> Rooted(mode, base, dims, n, op)
  {
    assert [op][1..] == [];
    assert AllRooted(mode, base, dims, n, []);
  }

  lemma RootedTwo(mode: Mode, base: Accessor, dims: seq<nat>, n: nat, a: Op, b: Op)
    requires Rooted(mode, base, dims, n, a) && Rooted(mode, base, dims, n, b)
    ensures AllRooted(mode, base, dims, n, [a] + [b])
  {
    assert ([a] + [b])[1..] == [b];
    RootedOne(mode, base, dims, n, b);
  }

  lemma {:induction false} TypeRooted(env: Env, mode: Mode, ty: Type, acc: Accessor, depth: nat, inVector: bool,
                                      base: Accessor, dims: seq<nat>, n: nat)
    requires Starts(acc, base, n)
    ensures AllRooted(mode, base, dims, n, TypeOps(env, mode, ty, acc, depth, inVector))
    decreases ty, 0
  {
    if ty.Sequence? {
      VectorRooted(env, mode, ty.elem, ty.bound, depth, acc, base, dims, n);
    } else {
      var ops := StreamOps(env, ty, acc, inVector);
      assert |ops| <= 1;
      if ops != [] { RootedOne(mode, base, dims, n, ops[0]); assert ops == [ops[0]]; }
    }
  }

  lemma {:induction false} VectorRooted(env: Env, mode: Mode, elem: Type, bound: nat, depth: nat, acc: Accessor,
                                        base: Accessor, dims: seq<nat>, n: nat)
    requires Starts(acc, base, n)
    ensures AllRooted(mode, base, dims, n, VectorOps(env, mode, elem, bound, depth, acc))
    decreases elem, 2
  {
    var body := ElementOps(env, mode, elem, depth, acc);
    ElementRooted(env, mode, elem, depth, acc, base, dims, n);
    hide ElementOps;
    var counted := VectorOps(env, mode, elem, bound, depth, acc)[0].body[0];
    assert Rooted(mode, base, dims, n, counted);
    RootedOne(mode, base, dims, n, counted);
    RootedOne(mode, base, dims, n, VectorOps(env, mode, elem, bound, depth, acc)[0]);
    RootedTwo(mode, base, dims, n, VectorOps(env, mode, elem, bound, depth, acc)[0], Unbounded);
  }

  lemma {:induction false} ElementRooted(env: Env, mode: Mode, elem: Type, depth: nat, acc: Accessor,
                                         base: Accessor, dims: seq<nat>, n: nat)
    requires Starts(acc, base, n)
    ensures AllRooted(mode, base, dims, n, ElementOps(env, mode, elem, depth, acc))
    decreases elem, 1
  {
    TypeRooted(env, mode, elem, Element(acc, depth), depth + 1, true, base, dims, n);
    hide TypeOps;
    RootedOne(mode, base, dims, n, ElementOps(env, mode, elem, depth, acc)[0]);
  }

  lemma {:induction false} ArrayRooted(env: Env, mode: Mode, dims: seq<nat>, ty: Type, n: nat, acc: Accessor,
                                       base: Accessor)
    requires n <= |dims| && Starts(acc, base, n) && !acc.Element?
    ensures AllRooted(mode, base, dims, n, ArrayOps(env, mode, dims[n..], ty, n, acc))
    decreases |dims| - n
  {
    hide TypeOps; hide Strip;
    if n == |dims| {
      TypeRooted(env, mode, ty, acc, 1, false, base, dims, n);
    } else {
      var inner := ArrayOps(env, mode, dims[n + 1..], ty, n + 1, ArrayVar(n + 1));
      assert dims[n..][1..] == dims[n + 1..];
      ArrayRooted(env, mode, dims, ty, n + 1, ArrayVar(n + 1), base);
      RootedOne(mode, base, dims, n, ArrayOps(env, mode, dims[n..], ty, n, acc)[0]);
    }
  }

  /** The code for a declarator is about that declarator. */
  lemma EntityRooted(env: Env, mode: Mode, dims: seq<nat>, ty: Type, base: Accessor)
    requires IsBase(base)
    ensures AllRooted(mode, base, dims, 0, EntityOps(env, mode, dims, ty, base))
  {
    if dims == [] {
      TypeRooted(env, mode, ty, base, 1, false, base, dims, 0);
    } else {
      ArrayRooted(env, mode, dims, ty, 0, base, base);
      assert dims[0..] == dims;
      RootedOne(mode, base, dims, 0, EntityOps(env, mode, dims, ty, base)[0]);
    }
  }

  // ----- states -----

  /** A state inside `n` array loops of the code for the declarator `base`. */
  ghost predicate Within(def: Def, st: State, base: Accessor, dims: seq<nat>, n: nat) {
    && IsBase(base) && Extents(def, st, base) == dims
    && forall k :: 1 <= k <= n ==> k in st.origins && st.origins[k] == base
  }

  lemma {:induction false} OriginIs(st: State, acc: Accessor, base: Accessor, n: nat)
    requires IsBase(base) && Starts(acc, base, n)
    requires forall k :: 1 <= k <= n ==> k in st.origins && st.origins[k] == base
    ensures Origin(acc, st.origins) == Some(base)
  {
    match acc
    case Element(vector, _) => OriginIs(st, vector, base, n);
    case _ =>
  }

  lemma RootIs(u: Unit, fuel: nat, def: Def, st: State, acc: Accessor, base: Accessor, dims: seq<nat>, n: nat)
    requires Within(def, st, base, dims, n) && Starts(acc, base, n)
    ensures Origin(acc, st.origins) == Some(base)
    ensures Root(u, fuel, def, st, acc) == Root(u, fuel, def, st, base)
    ensures Extents(def, st, acc) == dims
  {
    OriginIs(st, acc, base, n);
    hide Extents;
    ExtentsByOrigin(def, st, acc, base);
  }

  lemma ExtentsByOrigin(def: Def, st: State, acc: Accessor, base: Accessor)
    requires IsBase(base) && Origin(acc, st.origins) == Some(base)
    ensures Extents(def, st, acc) == Extents(def, st, base)
  {
  }

  /** Only the object and the variable for a branch count for what a declarator starts with. */
  lemma BaseStays(u: Unit, fuel: nat, def: Def, a: State, b: State, base: Accessor)
    requires IsBase(base) && a.self == b.self && a.obj == b.obj
    ensures Root(u, fuel, def, a, base) == Root(u, fuel, def, b, base)
    ensures Extents(def, a, base) == Extents(def, b, base)
  {
    hide Copied; hide BranchRoot;
  }

  lemma Stays(u: Unit, fuel: nat, def: Def, a: State, b: State, base: Accessor, dims: seq<nat>, n: nat)
    requires Within(def, a, base, dims, n) && a.self == b.self && a.obj == b.obj && a.origins == b.origins
    ensures Within(def, b, base, dims, n) && Root(u, fuel, def, a, base) == Root(u, fuel, def, b, base)
  {
    BaseStays(u, fuel, def, a, b, base);
    hide Root; hide Extents;
  }

  lemma Deeper(u: Unit, fuel: nat, def: Def, st: State, base: Accessor, dims: seq<nat>, n: nat)
    requires Within(def, st, base, dims, n)
    ensures var inner := st.(origins := st.origins[n + 1 := base]);
            Within(def, inner, base, dims, n + 1) && Root(u, fuel, def, st, base) == Root(u, fuel, def, inner, base)
  {
    BaseStays(u, fuel, def, st, st.(origins := st.origins[n + 1 := base]), base);
    hide Root; hide Extents;
  }

  // ----- steps -----

  lemma {:induction false} RunNodesAppend(u: Unit, fuel: nat, def: Def, props: seq<nat>, a: seq<Node>, b: seq<Node>,
                                          st: State)
    ensures RunNodes(u, fuel, def, props, a + b, st) ==
            match RunNodes(u, fuel, def, props, a, st)
            case None => None
            case Some(after) => RunNodes(u, fuel, def, props, b, after)
    decreases |a|
  {
    hide RunNode;
    if a == [] {
      assert a + b == b;
    } else {
      assert (a + b)[0] == a[0] && (a + b)[1..] == a[1..] + b;
      match RunNode(u, fuel, def, props, a[0], st)
      case None =>
      case Some(after) => RunNodesAppend(u, fuel, def, props, a[1..], b, after);
    }
  }

  lemma RunOne(u: Unit, fuel: nat, def: Def, props: seq<nat>, node: Node, st: State)
    ensures RunNodes(u, fuel, def, props, [node], st) == RunNode(u, fuel, def, props, node, st)
  {
    hide RunNode;
    assert [node][1..] == [];
    match RunNode(u, fuel, def, props, node, st)
    case None =>
    case Some(after) => assert RunNodes(u, fuel, def, props, [], after) == Some(after);
  }

  lemma LinesAppend(a: seq<Token>, b: seq<Token>)
    ensures Lines(a + b) == Lines(a) + Lines(b)
  {
  }

  lemma LineRuns(u: Unit, fuel: nat, def: Def, props: seq<nat>, t: Token, rest: seq<Token>, st: State)
    ensures RunNodes(u, fuel, def, props, Lines([t] + rest), st) ==
            match RunLine(u, fuel, def, t, st)
            case None => None
            case Some(st') => RunNodes(u, fuel, def, props, Lines(rest), st')
  {
    LinesAppend([t], rest);
    hide RunLine;
    assert Lines([t]) == [Line(t)];
    RunNodesAppend(u, fuel, def, props, [Line(t)], Lines(rest), st);
    RunOne(u, fuel, def, props, Line(t), st);
    hide RunNodes; hide Lines;
  }

  lemma NoLines(u: Unit, fuel: nat, def: Def, props: seq<nat>, st: State)
    ensures RunNodes(u, fuel, def, props, Lines([]), st) == Some(st)
  {
  }

  lemma GuardRuns(u: Unit, fuel: nat, def: Def, props: seq<nat>, depth: nat, check: Option<nat>, rest: seq<Token>,
                  st: State)
    requires depth in st.scope.length
    ensures RunNodes(u, fuel, def, props,
                     Lines((if check.Some? then [CheckBound(depth, check.value)] else []) + rest), st) ==
            if check.Some? && st.scope.length[depth] > check.value then None
            else RunNodes(u, fuel, def, props, Lines(rest), st)
  {
    if check.Some? { LineRuns(u, fuel, def, props, CheckBound(depth, check.value), rest, st); }
    else { assert [] + rest == rest; }
    hide RunNodes; hide Lines;
  }

  lemma PlainBlock(u: Unit, fuel: nat, def: Def, props: seq<nat>, b: Bracket, body: seq<Node>, st: State)
    requires b.Function? || b.Struct? || b.MemberOf? || (b.NotKey? && !u.key) || b.CaseBlock? ||
             b.ConsecutiveOf? || b.IdCase? || b.SequenceBlock?
    ensures RunBlock(u, fuel, def, props, b, body, st) == RunNodes(u, fuel, def, props, body, st)
  {
    hide RunNodes;
  }

  lemma ThreeParts(u: Unit, fuel: nat, def: Def, props: seq<nat>, b: Bracket, x: seq<Node>, y: seq<Node>, z: seq<Node>,
                   st: State)
    requires b.CaseBlock?
    ensures RunNode(u, fuel, def, props, Block(b, x + y + z), st) ==
            match RunNodes(u, fuel, def, props, x, st)
            case None => None
            case Some(s) =>
              match RunNodes(u, fuel, def, props, y, s)
              case None => None
              case Some(t) =>
                match RunNodes(u, fuel, def, props, z, t)
                case None => None
                case Some(after) => Some(Leave(st, after))
  {
    RunNodesAppend(u, fuel, def, props, x + y, z, st);
    RunNodesAppend(u, fuel, def, props, x, y, st);
    PlainBlock(u, fuel, def, props, b, x + y + z, st);
    hide RunNodes; hide RunBlock;
  }

  lemma SimpleNode(u: Unit, fuel: nat, def: Def, props: seq<nat>, op: Op, st: State)
    requires IsSimple(op)
    ensures RunNode(u, fuel, def, props, NodeOf(op), st) == DoSimple(u, fuel, def, op, st)
  {
    hide DoSimple;
  }

  /** A sequence streams its length, then its elements; the length is declared in the block and ends with it. */
  lemma CountedNode(u: Unit, fuel: nat, def: Def, props: seq<nat>, op: Op, st: State)
    requires op.Counted?
    ensures RunNode(u, fuel, def, props, NodeOf(op), st) ==
            match RunNodes(u, fuel, def, props, Lines(LengthText(op.depth, op.len, op.check, op.resize, op.acc)), st)
            case None => None
            case Some(inner) =>
              match RunNodes(u, fuel, def, props, NodesOf(op.body), inner)
              case None => None
              case Some(after) => Some(Leave(st, after))
  {
    var head := Lines(LengthText(op.depth, op.len, op.check, op.resize, op.acc));
    RunNodesAppend(u, fuel, def, props, head, NodesOf(op.body), st);
    PlainBlock(u, fuel, def, props, SequenceBlock(op.depth), head + NodesOf(op.body), st);
    hide RunNodes; hide LengthText; hide RunBlock; hide NodesOf; hide Lines;
  }

  lemma ArrayBlock(u: Unit, fuel: nat, def: Def, props: seq<nat>, op: Op, st: State)
    requires op.ForArray? && Origin(op.acc, st.origins).Some? && 1 <= op.depth <= |Extents(def, st, op.acc)|
    ensures RunNode(u, fuel, def, props, NodeOf(op), st) ==
            if Fetch(Root(u, fuel, def, st, op.acc), op.acc, st.scope).Nowhere? ||
              Eval(op.acc, st.scope).None? then None
            else
              match RunLoop(u, fuel, def, props, OverArray(op.depth, Eval(op.acc, st.scope).value), NodesOf(op.body), 0,
                            Extents(def, st, op.acc)[op.depth - 1],
                            st.(origins := st.origins[op.depth := Origin(op.acc, st.origins).value]))
              case None => None
              case Some(after) => Some(Leave(st, after))
  {
    hide RunLoop; hide Root; hide NodesOf; hide Extents; hide Fetch; hide Eval; hide Origin;
    assert ([Line(Over(op.acc))] + NodesOf(op.body))[1..] == NodesOf(op.body);
  }

  /** The loop over an array; its variable ends with it. */
  lemma ArrayNode(u: Unit, fuel: nat, def: Def, props: seq<nat>, base: Accessor, dims: seq<nat>, n: nat, op: Op,
                  st: State)
    requires op.ForArray? && Starts(op.acc, base, n) && op.depth == n + 1 <= |dims| && Within(def, st, base, dims, n)
    ensures RunNode(u, fuel, def, props, NodeOf(op), st) ==
            if Fetch(Root(u, fuel, def, st, base), op.acc, st.scope).Nowhere? || Eval(op.acc, st.scope).None? then None
            else
              match RunLoop(u, fuel, def, props, OverArray(op.depth, Eval(op.acc, st.scope).value), NodesOf(op.body), 0,
                            dims[n], st.(origins := st.origins[op.depth := base]))
              case None => None
              case Some(after) => Some(Leave(st, after))
  {
    hide *;
    RootIs(u, fuel, def, st, op.acc, base, dims, n);
    ArrayBlock(u, fuel, def, props, op, st);
  }

  /** The stream primitives do not look at the code of a context. */
  lemma SameStream(a: Context, b: Context)
    requires a.mode == b.mode && a.ma == b.ma && a.capacity == b.capacity
    ensures forall c, w: Width, data :: Advance(a, c, w, data) == Advance(b, c, w, data)
    ensures forall c, bound: nat, s :: AdvanceText(a, c, bound, s) == AdvanceText(b, c, bound, s)
  {
    forall c, w: Width, data: seq<byte> ensures Advance(a, c, w, data) == Advance(b, c, w, data) {
      hide AlignStep;
    }
    forall c, bound: nat, s: seq<byte> ensures AdvanceText(a, c, bound, s) == AdvanceText(b, c, bound, s) {
      hide Advance;
    }
  }

  // ----- functions -----

  lemma TextIs(u: Unit, fuel: nat, def: Def, self: Target, stream: Stream)
    ensures RunText(u, fuel, def, EmittedFor(u.env, u.mode, def), self, stream) ==
            match RunNodes(u, fuel, def, Ids(Fields(def)), ProgBody(u.mode, ProgOf(u.env, u.mode, def)),
                           Start(self, stream))
            case None => None
            case Some(st) => Some((st.self, st.stream))
  {
    hide RunNodes; hide ProgBody; hide Parse; hide ProgText; hide ProgOf; hide Fields;
    ParseProgText(u.mode, ProgOf(u.env, u.mode, def));
  }

  lemma EntryStep(mode: Mode, es: seq<Entry>, id: nat)
    requires es != []
    ensures EntryNodes(mode, es) == [EntryNode(mode, es[0])] + EntryNodes(mode, es[1..])
    ensures EntryFor(es, id) ==
            if es[0].id == id then Some(0)
            else match EntryFor(es[1..], id) case None => None case Some(k) => Some(k + 1)
  {
    hide EntryNode;
  }

  lemma IdStep(mode: Mode, e: Entry, rest: seq<Node>, id: nat)
    ensures FirstId([EntryNode(mode, e)] + rest, id) == if e.id == id then 0 else 1 + FirstId(rest, id)
  {
    hide PresenceNodes; hide NodesOf;
    assert ([EntryNode(mode, e)] + rest)[1..] == rest;
  }

  lemma {:induction false} FirstIdIs(mode: Mode, es: seq<Entry>, id: nat)
    ensures var k := FirstId(EntryNodes(mode, es), id);
            match EntryFor(es, id)
            case None => k == |es|
            case Some(j) => k == j && EntryNodes(mode, es)[k] == EntryNode(mode, es[k])
  {
    hide EntryNode; hide FirstId; hide EntryFor; hide EntryNodes;
    if es == [] {
      NoEntries(mode, es, id);
    } else {
      FirstIdIs(mode, es[1..], id);
      EntryStep(mode, es, id);
      IdStep(mode, es[0], EntryNodes(mode, es[1..]), id);
    }
  }

  lemma NoEntries(mode: Mode, es: seq<Entry>, id: nat)
    requires es == []
    ensures FirstId(EntryNodes(mode, es), id) == 0 && EntryFor(es, id) == None
  {
  }

  lemma IdNode(u: Unit, fuel: nat, def: Def, props: seq<nat>, nodes: seq<Node>, st: State)
    requires st.prop.Some?
    ensures RunNodes(u, fuel, def, props, [Block(IdSwitch, nodes)], st) ==
            var k := FirstId(nodes, st.prop.value);
            if k == |nodes| then Some(st)
            else match RunNodes(u, fuel, def, props, nodes[k].body, st)
              case None => None
              case Some(after) => Some(Leave(st, after))
  {
    RunOne(u, fuel, def, props, Block(IdSwitch, nodes), st);
    hide RunNodes; hide FirstId;
    assert Leave(st, st) == st;
  }

  lemma UnionBody(env: Env, mode: Mode, def: Def)
    requires def.Union?
    ensures ProgBody(mode, ProgOf(env, mode, def)) ==
            [Block(Bracket.Struct,
                   Lines(DiscriminatorText(mode, def.disc))
                   + (SwitchNodes(mode, Branchings(env, mode, def.cases), def.implicit)
                      + Lines(if mode == Max then [SetMaximum] else [])))]
  {
    hide SwitchNodes; hide Lines; hide DiscriminatorText; hide Branchings;
    Associative(Lines(DiscriminatorText(mode, def.disc)),
                SwitchNodes(mode, Branchings(env, mode, def.cases), def.implicit),
                Lines(if mode == Max then [SetMaximum] else []));
  }

  /** Leaving the outermost block, the object and the stream are what they became. */
  lemma StructBlock(u: Unit, fuel: nat, def: Def, props: seq<nat>, body: seq<Node>, st: State)
    ensures match RunNode(u, fuel, def, props, Block(Bracket.Struct, body), st)
            case None => RunNodes(u, fuel, def, props, body, st) == None
            case Some(end) =>
              match RunNodes(u, fuel, def, props, body, st)
              case None => false
              case Some(after) => end.self == after.self && end.stream == after.stream
  {
    PlainBlock(u, fuel, def, props, Bracket.Struct, body, st);
    hide RunNodes; hide RunBlock;
  }

  // ----- optional and external members, key streams -----

  lemma MemberParsed(mode: Mode, e: Entry)
    ensures Parse(PresenceHead(mode, e.presence, e.acc) + FlattenAll(e.body) + PresenceTail(mode, e.presence, e.acc)) ==
            Some(PresenceNodes(mode, e.presence, e.acc, NodesOf(e.body)))
  {
    OpsText(e.body);
    PresenceText(mode, e.presence, e.acc, NodesOf(e.body));
    hide *;
    ParseText(PresenceNodes(mode, e.presence, e.acc, NodesOf(e.body)));
  }

  /** Going on with the code of a member in a state, if there is one. */
  function Proceed(u: Unit, fuel: nat, def: Def, props: seq<nat>, body: seq<Node>, st: Option<State>): Option<State> {
    match st case None => None case Some(at) => RunNodes(u, fuel, def, props, body, at)
  }

  /**
    The text around the code of a member. An optional member without a value is neither written nor moved
    over, and one that is read gets a new value first; an external member without a target cannot be
    written or moved over, and gets one when it is read. Measuring looks at all members.
   */
  lemma PresenceRuns(u: Unit, fuel: nat, def: Def, props: seq<nat>, e: Entry, st: State) returns (nodes: seq<Node>)
    ensures Parse(PresenceHead(u.mode, e.presence, e.acc) + FlattenAll(e.body)
            + PresenceTail(u.mode, e.presence, e.acc)) ==
            Some(nodes)
    ensures var body, stored := NodesOf(e.body), u.mode == Write || u.mode == Move;
            RunNodes(u, fuel, def, props, nodes, st) ==
            if e.presence.Required? || u.mode == Max then RunNodes(u, fuel, def, props, body, st)
            else if e.presence.Optional? && stored then
              if e.acc !in st.held then Some(st)
              else match RunNodes(u, fuel, def, props, body,
                                  st) case None => None case Some(after) => Some(Leave(st, after))
            else if stored then Proceed(u, fuel, def, props, body, if e.acc in st.held then Some(st) else None)
            else if e.presence.External? && e.acc in st.held then RunNodes(u, fuel, def, props, body, st)
            else Proceed(u, fuel, def, props, body, Renewed(u, fuel, def, e.acc, st))
  {
    MemberParsed(u.mode, e);
    hide RunNodes; hide NodesOf; hide Parse; hide FlattenAll; hide PresenceHead; hide PresenceTail; hide Renewed;
    var body := NodesOf(e.body);
    nodes := PresenceNodes(u.mode, e.presence, e.acc, body);
    FirstRuns(u, fuel, def, props, Emplace(e.acc), body, st);
    FirstRuns(u, fuel, def, props, Allocate(e.acc), body, st);
    FirstRuns(u, fuel, def, props, RequireTarget(e.acc), body, st);
    RunOne(u, fuel, def, props, Block(HasValue(e.acc), body), st);
    assert Leave(st, st) == st;
  }

  lemma FirstRuns(u: Unit, fuel: nat, def: Def, props: seq<nat>, t: Token, body: seq<Node>, st: State)
    ensures RunNodes(u, fuel, def, props, [Line(t)] + body, st) ==
            Proceed(u, fuel, def, props, body, RunLine(u, fuel, def, t, st))
  {
    hide RunLine;
    RunNodesAppend(u, fuel, def, props, [Line(t)], body, st);
    RunOne(u, fuel, def, props, Line(t), st);
    hide RunNodes;
  }

  /** When the discriminator is a key, the branches are left out of key streams, and out of no others. */
  lemma KeyStreams(u: Unit, fuel: nat, def: Def, props: seq<nat>, keyed: bool, ops: seq<Op>, st: State)
    returns (nodes: seq<Node>)
    ensures Parse(KeyGuard(keyed, FlattenAll(ops))) == Some(nodes)
    ensures RunNodes(u, fuel, def, props, nodes, st) ==
            if !keyed then RunNodes(u, fuel, def, props, NodesOf(ops), st)
            else if u.key then Some(st)
            else match RunNodes(u, fuel, def, props, NodesOf(ops),
                                st) case None => None case Some(after) => Some(Leave(st, after))
  {
    OpsText(ops);
    hide RunNodes; hide NodesOf; hide Parse; hide FlattenAll;
    nodes := GuardNodes(keyed, NodesOf(ops));
    OneText(Block(NotKey, NodesOf(ops)));
    ParseText(nodes);
    RunOne(u, fuel, def, props, Block(NotKey, NodesOf(ops)), st);
    assert Leave(st, st) == st;
  }

  // ----- switches -----

  predicate Carries(labels: Arm, value: Option<nat>) {
    match value case Some(d) => Names(labels, d) case None => IsDefault(labels)
  }

  function ArmWith(arms: seq<Arm>, value: Option<nat>): (r: Option<nat>)
    ensures r.Some? ==> r.value < |arms|
  {
    match value case Some(d) => NamedArm(arms, d) case None => DefaultArm(arms)
  }

  lemma {:induction false} FirstLabelAppend(a: seq<Node>, b: seq<Node>, value: Option<nat>)
    ensures FirstLabel(a + b, value) ==
            if FirstLabel(a, value) < |a| then FirstLabel(a, value) else |a| + FirstLabel(b, value)
  {
    hide IsLabel;
    if a == [] {
      assert a + b == b;
    } else {
      assert (a + b)[0] == a[0] && (a + b)[1..] == a[1..] + b;
      FirstLabelAppend(a[1..], b, value);
    }
  }

  lemma {:induction false} FirstOfLabels(labels: Arm, value: Option<nat>)
    ensures FirstLabel(Lines(LabelsText(labels)), value) < |labels| <==> Carries(labels, value)
  {
    var nodes := Lines(LabelsText(labels));
    if labels != [] {
      FirstOfLabels(labels[1..], value);
      assert nodes[1..] == Lines(LabelsText(labels[1..]));
      assert labels == [labels[0]] + labels[1..];
      assert IsLabel(nodes[0], value) <==> match value
        case Some(d) => labels[0] == Label(d, false)
        case None => labels[0].isDefault;
      assert forall k :: 1 <= k < |labels| ==> labels[k] == labels[1..][k - 1];
    }
  }

  /** From any of its labels, a branch runs its block and leaves the switch. */
  lemma {:induction false} LabelsFall(u: Unit, fuel: nat, def: Def, props: seq<nat>, labels: Arm, node: Node,
                                      rest: seq<Node>, st: State)
    requires node.Block?
    ensures RunSwitch(u, fuel, def, props, Lines(LabelsText(labels)) + ([node] + [Line(Break)] + rest), st) ==
            RunNode(u, fuel, def, props, node, st)
    decreases |labels|
  {
    var nodes := Lines(LabelsText(labels)) + ([node] + [Line(Break)] + rest);
    if labels == [] {
      assert nodes[0] == node && nodes[1..] == [Line(Break)] + rest;
      hide RunNode;
      match RunNode(u, fuel, def, props, node, st)
      case None =>
      case Some(after) => assert RunSwitch(u, fuel, def, props, nodes[1..], after) == Some(after);
    } else {
      LabelsFall(u, fuel, def, props, labels[1..], node, rest, st);
      assert nodes[0] == Line(CaseLabel(labels[0]));
      assert nodes[1..] == Lines(LabelsText(labels[1..])) + ([node] + [Line(Break)] + rest);
      LabelRuns(u, fuel, def, props, labels[0], st);
      hide RunNode; hide Lines; hide LabelsText;
    }
  }

  lemma LabelRuns(u: Unit, fuel: nat, def: Def, props: seq<nat>, lab: Label, st: State)
    ensures RunNode(u, fuel, def, props, Line(CaseLabel(lab)), st) == Some(st)
  {
  }

  lemma BranchesStep(mode: Mode, bs: seq<Branching>, a: nat, tail: seq<Node>)
    requires mode != Max && a < |bs|
    ensures var labels, node := Lines(LabelsText(bs[a].labels)), CaseNode(mode, bs[a], a);
            BranchesNodes(mode, bs, a) + tail ==
            labels + ([node] + [Line(Break)] + (BranchesNodes(mode, bs, a + 1) + tail)) &&
            |BranchesNodes(mode, bs, a)| == |labels| + 2 + |BranchesNodes(mode, bs, a + 1)| &&
            |labels| == |bs[a].labels|
  {
    hide Lines; hide LabelsText; hide CaseNode;
  }

  lemma Suffixes(a: seq<Node>, x: Node, y: Node, b: seq<Node>, k: nat)
    requires k <= |a| + 2 + |b|
    ensures k <= |a| ==> (a + ([x] + [y] + b))[k..] == a[k..] + ([x] + [y] + b)
    ensures k >= |a| + 2 ==> (a + ([x] + [y] + b))[k..] == b[k - |a| - 2..]
    ensures |a + ([x] + [y] + b)| == |a| + 2 + |b|
  {
  }

  lemma NoBranches(mode: Mode, bs: seq<Branching>, arms: seq<Arm>, tail: seq<Node>, value: Option<nat>)
    requires |bs| == |arms|
    ensures BranchesNodes(mode, bs, |bs|) + tail == tail && |BranchesNodes(mode, bs, |bs|)| == 0
    ensures ArmWith(arms[|bs|..], value) == None
  {
    assert [] + tail == tail;
  }

  /** Looking for a label among the branches from number `a` on. */
  lemma {:induction false} JumpIn(u: Unit, fuel: nat, def: Def, props: seq<nat>, mode: Mode, bs: seq<Branching>,
                                  arms: seq<Arm>, a: nat, tail: seq<Node>, value: Option<nat>, st: State)
    requires mode != Max && a <= |bs| == |arms| && forall i :: 0 <= i < |bs| ==> bs[i].labels == arms[i]
    ensures var nodes := BranchesNodes(mode, bs, a) + tail;
            var k := FirstLabel(nodes, value);
            match ArmWith(arms[a..], value)
            case Some(i) =>
              k < |nodes| &&
              RunSwitch(u, fuel, def, props, nodes[k..], st) ==
              RunNode(u, fuel, def, props, CaseNode(mode, bs[a + i], a + i), st)
            case None => k == |BranchesNodes(mode, bs, a)| + FirstLabel(tail, value)
    decreases |bs| - a
  {
    hide *;
    if a == |bs| {
      NoBranches(mode, bs, arms, tail, value);
    } else {
      var labels, node := Lines(LabelsText(bs[a].labels)), CaseNode(mode, bs[a], a);
      var rest := BranchesNodes(mode, bs, a + 1) + tail;
      var k := FirstLabel(BranchesNodes(mode, bs, a) + tail, value);
      BranchesStep(mode, bs, a, tail);
      JumpIn(u, fuel, def, props, mode, bs, arms, a + 1, tail, value, st);
      ArmStep(arms, a, value);
      FirstOfLabels(bs[a].labels, value);
      FirstLabelAppend(labels, [node] + [Line(Break)] + rest, value);
      NoLabel(node, rest, value);
      Suffixes(labels, node, Line(Break), rest, k);
      if Carries(arms[a], value) {
        LabelsFrom(bs[a].labels, k);
        LabelsFall(u, fuel, def, props, bs[a].labels[k..], node, rest, st);
      }
    }
  }

  lemma LabelsFrom(labels: Arm, k: nat)
    requires k <= |labels|
    ensures Lines(LabelsText(labels))[k..] == Lines(LabelsText(labels[k..]))
  {
  }

  lemma NoLabel(node: Node, rest: seq<Node>, value: Option<nat>)
    requires node.Block?
    ensures FirstLabel([node] + [Line(Break)] + rest, value) == 2 + FirstLabel(rest, value)
  {
    var nodes := [node] + [Line(Break)] + rest;
    assert nodes[1..] == [Line(Break)] + rest && nodes[1..][1..] == rest;
  }

  lemma ArmStep(arms: seq<Arm>, a: nat, value: Option<nat>)
    requires a < |arms|
    ensures ArmWith(arms[a..], value) ==
            if Carries(arms[a], value) then Some(0)
            else match ArmWith(arms[a + 1..], value) case None => None case Some(i) => Some(i + 1)
  {
    hide Names; hide IsDefault;
    assert arms[a..][0] == arms[a] && arms[a..][1..] == arms[a + 1..];
  }

  lemma SwitchBlock(u: Unit, fuel: nat, def: Def, props: seq<nat>, nodes: seq<Node>, st: State)
    requires st.d.Some?
    ensures RunBlock(u, fuel, def, props, Bracket.Switch, nodes, st) ==
            RunSwitch(u, fuel, def, props, nodes[Jump(nodes, st.d.value)..], st)
  {
    hide RunSwitch; hide Jump;
    assert nodes[0..] == nodes;
  }

  lemma JumpIs(nodes: seq<Node>, d: nat)
    ensures Jump(nodes, d) ==
            if FirstLabel(nodes, Some(d)) < |nodes| then FirstLabel(nodes, Some(d)) else FirstLabel(nodes, None)
  {
  }

  lemma ArmOfIs(shape: Shape, d: nat)
    ensures shape.arms[0..] == shape.arms
    ensures ArmOf(shape, d) ==
            if ArmWith(shape.arms, Some(d)).Some? then ArmWith(shape.arms, Some(d)) else ArmWith(shape.arms, None)
  {
  }

  lemma SuffixOfTail(a: seq<Node>, b: seq<Node>, k: nat)
    requires k == |a|
    ensures (a + b)[k..] == b && |a + b| == |a| + |b|
  {
  }

  /** A switch runs the block of the branch that its labels give for the discriminator. */
  lemma SwitchRuns(u: Unit, fuel: nat, def: Def, props: seq<nat>, mode: Mode, bs: seq<Branching>, shape: Shape,
                   st: State)
    requires mode != Max && |bs| == |shape.arms| && forall i :: 0 <= i < |bs| ==> bs[i].labels == shape.arms[i]
    requires st.d.Some?
    ensures RunBlock(u, fuel, def, props, Bracket.Switch,
                     BranchesNodes(mode, bs, 0) + Lines(DefaultText(mode, shape.implicit)), st) ==
            match ArmOf(shape, st.d.value)
            case Some(i) => RunNode(u, fuel, def, props, CaseNode(mode, bs[i], i), st)
            case None => if shape.implicit && mode == Read then DoSetDiscriminator(def, st) else Some(st)
  {
    hide *;
    var cases, tail := BranchesNodes(mode, bs, 0), Lines(DefaultText(mode, shape.implicit));
    ArmOfIs(shape, st.d.value);
    JumpIn(u, fuel, def, props, mode, bs, shape.arms, 0, tail, st.d, st);
    JumpIn(u, fuel, def, props, mode, bs, shape.arms, 0, tail, None, st);
    TailLabels(mode, shape.implicit, st.d.value);
    SwitchBlock(u, fuel, def, props, cases + tail, st);
    JumpIs(cases + tail, st.d.value);
    SuffixOfTail(cases, tail, |cases|);
    TailRuns(u, fuel, def, props, mode, shape.implicit, st);
  }

  lemma TailLabels(mode: Mode, implicit: bool, d: nat)
    ensures var tail := Lines(DefaultText(mode, implicit));
            FirstLabel(tail, Some(d)) == |tail| && FirstLabel(tail, None) == 0
  {
    var tail := Lines(DefaultText(mode, implicit));
    if tail != [] {
      assert |tail| == 2 && tail[1..][1..] == [];
    }
  }

  lemma TailRuns(u: Unit, fuel: nat, def: Def, props: seq<nat>, mode: Mode, implicit: bool, st: State)
    requires mode != Max
    ensures var tail := Lines(DefaultText(mode, implicit));
            RunSwitch(u, fuel, def, props, tail, st) ==
            if implicit && mode == Read then DoSetDiscriminator(def, st) else Some(st)
  {
    var tail := Lines(DefaultText(mode, implicit));
    if implicit {
      hide DoSetDiscriminator;
      assert RunNode(u, fuel, def, props, tail[0], st) == RunLine(u, fuel, def, DefaultLabel, st) == Some(st);
      assert tail[1..][1..] == [];
      if mode == Read {
        assert RunNode(u, fuel, def, props, tail[1], st) == RunLine(u, fuel, def, SetDiscriminator, st);
        match DoSetDiscriminator(def, st)
        case None =>
        case Some(after) => assert RunSwitch(u, fuel, def, props, [], after) == Some(after);
      }
    }
  }
}
