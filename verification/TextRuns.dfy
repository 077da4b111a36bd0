/**
  Running the emitted text on the streams that look at an object is running the program that the
  text was made from: writing, moving and measuring.
 */
module TextRuns {
  import opened Wrappers
  import opened Wire
  import opened Unions
  import opened Idl
  import opened Programs
  import opened Emitter
  import opened Objects
  import opened Machine
  import opened TextNodes
  import opened TextMachine
  import opened TextSteps

  /** A state that has come further in the stream. */
  function Along(st: State, r: Option<Cursor>): Option<State> {
    match r case None => None case Some(c) => Some(st.(stream := Out(c)))
  }

  /** Only calls do. */
  lemma SimpleRun(a: Context, b: Context, fuel: nat, op: Op, scope: Scope, root: Target, c: Cursor)
    requires a.mode == b.mode && a.ma == b.ma && a.capacity == b.capacity && IsSimple(op)
    ensures RunOp(a, fuel, op, scope, root, c) == RunOp(b, fuel, op, scope, root, c)
  {
    SameStream(a, b);
    hide Fetch; hide Advance; hide AdvanceText; hide BulkBytes; hide Bytes; hide Zeros;
  }

  lemma SimpleAnywhere(cx: Context, fuel: nat, op: Op, scope: Scope, root: Target, other: Target, c: Cursor)
    requires op.BulkDefault? || op.Unbounded?
    ensures RunOp(cx, fuel, op, scope, root, c) == RunOp(cx, fuel, op, scope, other, c)
  {
    hide Advance;
  }

  /** What the program does with the declarator that the code is for. */
  function ByOp(u: Unit, fuel: nat, def: Def, base: Accessor, op: Op, st: State): Option<State>
    requires st.stream.Out?
  {
    Along(st, RunOp(Origins(u), fuel, op, st.scope, Root(u, fuel, def, st, base), st.stream.c))
  }

  function ByOps(u: Unit, fuel: nat, def: Def, base: Accessor, ops: seq<Op>, st: State): Option<State>
    requires st.stream.Out?
  {
    Along(st, RunOps(Origins(u), fuel, ops, st.scope, Root(u, fuel, def, st, base), st.stream.c))
  }

  function ByFor(u: Unit, fuel: nat, def: Def, base: Accessor, loop: Loop, body: seq<Op>, j: nat, m: nat, st: State)
    : Option<State>
    requires st.stream.Out?
  {
    Along(st, RunFor(Origins(u), fuel, loop, body, j, m, st.scope, Root(u, fuel, def, st, base), st.stream.c))
  }

  lemma ByOpIs(u: Unit, fuel: nat, def: Def, base: Accessor, op: Op, st: State)
    requires st.stream.Out?
    ensures ByOp(u, fuel, def, base, op, st) ==
            Along(st, RunOp(Origins(u), fuel, op, st.scope, Root(u, fuel, def, st, base), st.stream.c))
    ensures Along(st, None) == None
  {
    hide RunOp; hide Root; hide Origins;
  }

  lemma ByOpsIs(u: Unit, fuel: nat, def: Def, base: Accessor, ops: seq<Op>, st: State)
    requires st.stream.Out?
    ensures ByOps(u, fuel, def, base, ops, st) ==
            Along(st, RunOps(Origins(u), fuel, ops, st.scope, Root(u, fuel, def, st, base), st.stream.c))
  {
    hide RunOps; hide Root; hide Origins;
  }

  lemma ByForIs(u: Unit, fuel: nat, def: Def, base: Accessor, loop: Loop, body: seq<Op>, j: nat, m: nat, st: State)
    requires st.stream.Out?
    ensures ByFor(u, fuel, def, base, loop, body, j, m, st) ==
            Along(st, RunFor(Origins(u), fuel, loop, body, j, m, st.scope, Root(u, fuel, def, st, base), st.stream.c))
  {
    hide RunFor; hide Root; hide Origins;
  }

  /** Leaving a block in which only the scope and the array variables changed. */
  lemma AlongIs(st: State, inner: State, r: Option<Cursor>)
    requires inner == st.(scope := inner.scope, origins := inner.origins, stream := inner.stream)
    ensures Along(st, r) == match r case None => None case Some(c) => Some(st.(stream := Out(c)))
    ensures Along(inner, r) == match r case None => None case Some(c) => Some(inner.(stream := Out(c)))
    ensures forall c :: Leave(st, inner.(stream := c)) == st.(stream := c)
  {
  }

  lemma DoSimpleOut(u: Unit, fuel: nat, def: Def, op: Op, st: State)
    requires IsSimple(op) && st.stream.Out?
    ensures DoSimple(u, fuel, def, op, st) ==
            Along(st, RunOp(Plain(u), fuel, op, st.scope, Root(u, fuel, def, st, AccessorOf(op)), st.stream.c))
  {
    hide RunOp; hide Root;
  }

  lemma SimpleRuns(u: Unit, fuel: nat, def: Def, props: seq<nat>, base: Accessor, dims: seq<nat>, n: nat, op: Op,
                   st: State)
    requires IsSimple(op) && st.stream.Out?
    requires Within(def, st, base, dims, n) && Rooted(u.mode, base, dims, n, op)
    ensures RunNode(u, fuel, def, props, NodeOf(op), st) == ByOp(u, fuel, def, base, op, st)
  {
    hide RunOp; hide Root; hide RunNode; hide NodeOf; hide DoSimple; hide Within; hide Linked; hide Origin;
    var root := Root(u, fuel, def, st, AccessorOf(op));
    SimpleNode(u, fuel, def, props, op, st);
    DoSimpleOut(u, fuel, def, op, st);
    SimpleRun(Plain(u), Origins(u), fuel, op, st.scope, root, st.stream.c);
    if op.BulkDefault? || op.Unbounded? {
      SimpleAnywhere(Origins(u), fuel, op, st.scope, root, Root(u, fuel, def, st, base), st.stream.c);
    } else {
      RootIs(u, fuel, def, st, AccessorOf(op), base, dims, n);
    }
  }

  // ----- one declarator -----

  /** The lines in front of the elements of a sequence. */
  lemma LengthRuns(u: Unit, fuel: nat, def: Def, props: seq<nat>, base: Accessor, dims: seq<nat>, n: nat, depth: nat,
                   len: Length, check: Option<nat>, acc: Accessor, st: State)
    requires u.mode != Read && st.stream.Out? && Within(def, st, base, dims, n)
    requires len.SizeOf? ==> Starts(len.acc, base, n)
    ensures RunNodes(u, fuel, def, props, Lines(LengthText(depth, len, check, None, acc)), st) ==
            match LengthOf(len, st.scope, Root(u, fuel, def, st, base))
            case None => None
            case Some(m) =>
              if check.Some? && m > check.value then None
              else Along(st.(scope := WithLength(st.scope, depth, m)),
                         Advance(Origins(u), st.stream.c, 4, Bytes(m, 4)))
  {
    var guard := if check.Some? then [CheckBound(depth, check.value)] else [];
    assert LengthText(depth, len, check, None, acc) == [DeclareLength(depth, len)] + (guard + [StreamLength(depth)]);
    hide RunLine; hide RunNodes; hide Lines; hide LengthOf; hide Root; hide Advance; hide Within; hide Linked;
    LineRuns(u, fuel, def, props, DeclareLength(depth, len), guard + [StreamLength(depth)], st);
    DeclareRuns(u, fuel, def, base, dims, n, depth, len, st);
    match LengthOf(len, st.scope, Root(u, fuel, def, st, base))
    case None =>
    case Some(m) =>
      var st' := st.(scope := WithLength(st.scope, depth, m));
      GuardRuns(u, fuel, def, props, depth, check, [StreamLength(depth)], st');
      StreamRuns(u, fuel, def, props, depth, st');
  }

  lemma StreamRuns(u: Unit, fuel: nat, def: Def, props: seq<nat>, depth: nat, st: State)
    requires depth in st.scope.length && st.stream.Out?
    ensures RunNodes(u, fuel, def, props, Lines([StreamLength(depth)]), st) ==
            Along(st, Advance(Origins(u), st.stream.c, 4, Bytes(st.scope.length[depth], 4)))
  {
    SameStream(Plain(u), Origins(u));
    assert [StreamLength(depth)] + [] == [StreamLength(depth)];
    LineRuns(u, fuel, def, props, StreamLength(depth), [], st);
    hide RunNodes; hide Lines; hide Advance; hide Linked;
    match Advance(Plain(u), st.stream.c, 4, Bytes(st.scope.length[depth], 4))
    case None =>
    case Some(c) => NoLines(u, fuel, def, props, st.(stream := Out(c)));
  }

  lemma DeclareRuns(u: Unit, fuel: nat, def: Def, base: Accessor, dims: seq<nat>, n: nat, depth: nat, len: Length,
                    st: State)
    requires Within(def, st, base, dims, n) && (len.SizeOf? ==> Starts(len.acc, base, n))
    ensures RunLine(u, fuel, def, DeclareLength(depth, len), st) ==
            match LengthOf(len, st.scope, Root(u, fuel, def, st, base))
            case None => None
            case Some(m) => Some(st.(scope := WithLength(st.scope, depth, m)))
  {
    if len.SizeOf? { RootIs(u, fuel, def, st, len.acc, base, dims, n); }
    hide Root; hide Fetch;
  }

  /** What running the function of a definition comes to. */
  function Finished(self: Target, r: Option<Cursor>): Option<(Target, Stream)> {
    match r case None => None case Some(c) => Some((self, Out(c)))
  }

  /** A block that changes no local variables but its own. */
  lemma BlockRuns(u: Unit, fuel: nat, def: Def, props: seq<nat>, b: Bracket, body: seq<Node>, st: State,
                  r: Option<Cursor>)
    requires RunBlock(u, fuel, def, props, b, body, st) == Along(st, r)
    ensures RunNode(u, fuel, def, props, Block(b, body), st) == Along(st, r)
  {
    hide RunBlock;
  }

  lemma {:induction false} OpRuns(u: Unit, fuel: nat, def: Def, props: seq<nat>, base: Accessor, dims: seq<nat>, n: nat,
                                  op: Op, st: State)
    requires Made(u) && u.mode != Read && st.stream.Out?
    requires Within(def, st, base, dims, n) && Rooted(u.mode, base, dims, n, op)
    ensures RunNode(u, fuel, def, props, NodeOf(op), st) == ByOp(u, fuel, def, base, op, st)
    decreases fuel, 2, op, 0, 0
  {
    hide RunNodes; hide RunOps; hide Root; hide Within; hide Made; hide Linked; hide RunBlock; hide RunNode; hide ByOp;
    match op
    case Counted(_, _, _, _, _, body) => CountedRuns(u, fuel, def, props, base, dims, n, op, body, st);
    case ForVector(depth, body) => VectorRuns(u, fuel, def, props, base, dims, n, depth, body, st);
    case ForArray(_, _, _, body) => ArrayRuns(u, fuel, def, props, base, dims, n, op, body, st);
    case Consecutive(_, _, body) => ConsecutiveRuns(u, fuel, def, props, base, dims, n, op, body, st);
    case Call(name, acc) => CallRuns(u, fuel, def, props, base, dims, n, name, acc, st);
    case _ => SimpleRuns(u, fuel, def, props, base, dims, n, op, st);
  }

  lemma {:induction false} OpsRun(u: Unit, fuel: nat, def: Def, props: seq<nat>, base: Accessor, dims: seq<nat>, n: nat,
                                  ops: seq<Op>, st: State)
    requires Made(u) && u.mode != Read && st.stream.Out?
    requires Within(def, st, base, dims, n) && AllRooted(u.mode, base, dims, n, ops)
    ensures RunNodes(u, fuel, def, props, NodesOf(ops), st) == ByOps(u, fuel, def, base, ops, st)
    decreases fuel, 2, ops, 0, 0
  {
    hide RunNode; hide RunOp; hide Root; hide Made; hide Linked; hide Rooted; hide NodeOf; hide Within;
    if ops != [] {
      OpRuns(u, fuel, def, props, base, dims, n, ops[0], st);
      assert NodesOf(ops)[0] == NodeOf(ops[0]) && NodesOf(ops)[1..] == NodesOf(ops[1..]);
      match ByOp(u, fuel, def, base, ops[0], st)
      case None =>
      case Some(st') =>
        Stays(u, fuel, def, st, st', base, dims, n);
        OpsRun(u, fuel, def, props, base, dims, n, ops[1..], st');
    }
  }

  lemma {:induction false} ConsecutiveRuns(u: Unit, fuel: nat, def: Def, props: seq<nat>, base: Accessor,
                                           dims: seq<nat>,
                                           n: nat, op: Op, body: seq<Op>, st: State)
    requires Made(u) && u.mode != Read && st.stream.Out? && op.Consecutive? && body == op.body
    requires Within(def, st, base, dims, n) && AllRooted(u.mode, base, dims, n, body)
    ensures RunNode(u, fuel, def, props, NodeOf(op), st) == ByOp(u, fuel, def, base, op, st)
    decreases fuel, 2, body, 2, 0
  {
    OpsRun(u, fuel, def, props, base, dims, n, body, st);
    hide RunNodes; hide RunOps; hide Root; hide RunBlock; hide NodesOf; hide RunNode;
    PlainBlock(u, fuel, def, props, ConsecutiveOf(op.isArray, op.primitive), NodesOf(body), st);
    BlockRuns(u, fuel, def, props, ConsecutiveOf(op.isArray, op.primitive), NodesOf(body), st,
              RunOps(Origins(u), fuel, body, st.scope, Root(u, fuel, def, st, base), st.stream.c));
  }

  lemma {:induction false} CountedRuns(u: Unit, fuel: nat, def: Def, props: seq<nat>, base: Accessor, dims: seq<nat>,
                                       n: nat,
                                       op: Op, body: seq<Op>, st: State)
    requires Made(u) && u.mode != Read && st.stream.Out? && op.Counted? && body == op.body && op.resize.None?
    requires Within(def, st, base, dims, n) && (op.len.SizeOf? ==> Starts(op.len.acc, base, n))
    requires AllRooted(u.mode, base, dims, n, body)
    ensures RunNode(u, fuel, def, props, NodeOf(op), st) == ByOp(u, fuel, def, base, op, st)
    decreases fuel, 2, body, 2, 0
  {
    hide *;
    var root := Root(u, fuel, def, st, base);
    CountedNode(u, fuel, def, props, op, st);
    LengthRuns(u, fuel, def, props, base, dims, n, op.depth, op.len, op.check, op.acc, st);
    CountedOp(Origins(u), fuel, op, st.scope, root, st.stream.c);
    ByOpIs(u, fuel, def, base, op, st);
    if LengthOf(op.len, st.scope, root).Some? {
      var m := LengthOf(op.len, st.scope, root).value;
      var inner := st.(scope := WithLength(st.scope, op.depth, m));
      AlongIs(st, inner, Advance(Origins(u), st.stream.c, 4, Bytes(m, 4)));
      match Advance(Origins(u), st.stream.c, 4, Bytes(m, 4))
      case None =>
      case Some(c) =>
        var inner' := inner.(stream := Out(c));
        Stays(u, fuel, def, st, inner', base, dims, n);
        OpsRun(u, fuel, def, props, base, dims, n, body, inner');
        ByOpsIs(u, fuel, def, base, body, inner');
        AlongIs(st, inner', RunOps(Origins(u), fuel, body, inner'.scope, root, c));
    }
  }

  lemma CountedOp(cx: Context, fuel: nat, op: Op, scope: Scope, root: Target, c: Cursor)
    requires op.Counted?
    ensures RunOp(cx, fuel, op, scope, root, c) ==
            match LengthOf(op.len, scope, root)
            case None => None
            case Some(n) =>
              if op.check.Some? && n > op.check.value then None
              else match Advance(cx, c, 4, Bytes(n, 4))
                case None => None
                case Some(c') => RunOps(cx, fuel, op.body, WithLength(scope, op.depth, n), root, c')
  {
    hide Advance; hide LengthOf; hide RunOps;
  }

  lemma {:induction false} VectorRuns(u: Unit, fuel: nat, def: Def, props: seq<nat>, base: Accessor, dims: seq<nat>,
                                      n: nat,
                                      depth: nat, body: seq<Op>, st: State)
    requires Made(u) && u.mode != Read && st.stream.Out?
    requires Within(def, st, base, dims, n) && AllRooted(u.mode, base, dims, n, body)
    ensures RunNode(u, fuel, def, props, NodeOf(ForVector(depth, body)), st) ==
            ByOp(u, fuel, def, base, ForVector(depth, body), st)
    decreases fuel, 2, body, 2, 0
  {
    hide RunNode; hide RunLoop; hide RunFor; hide Root; hide Made; hide Linked; hide Within; hide NodesOf;
    if depth in st.scope.length {
      LoopRuns(u, fuel, def, props, base, dims, n, OverIndex(depth), body, 0, st.scope.length[depth], st);
    }
    BlockRuns(u, fuel, def, props, VectorLoop(depth), NodesOf(body), st,
              RunOp(Origins(u), fuel, ForVector(depth, body), st.scope, Root(u, fuel, def, st, base), st.stream.c));
  }

  lemma ArrayOp(cx: Context, fuel: nat, op: Op, scope: Scope, root: Target, c: Cursor)
    requires op.ForArray?
    ensures RunOp(cx, fuel, op, scope, root, c) ==
            if Fetch(root, op.acc, scope).Nowhere? || Eval(op.acc, scope).None? then None
            else RunFor(cx, fuel, OverArray(op.depth, Eval(op.acc, scope).value), op.body, 0, op.dim, scope, root, c)
  {
    hide Fetch; hide Eval; hide RunFor;
  }

  lemma {:induction false} ArrayRuns(u: Unit, fuel: nat, def: Def, props: seq<nat>, base: Accessor, dims: seq<nat>,
                                     n: nat,
                                     op: Op, body: seq<Op>, st: State)
    requires Made(u) && u.mode != Read && st.stream.Out? && op.ForArray? && body == op.body
    requires Within(def, st, base, dims, n)
    requires Starts(op.acc, base, n) && op.depth == n + 1 <= |dims| && op.dim == dims[n]
    requires AllRooted(u.mode, base, dims, n + 1, body)
    ensures RunNode(u, fuel, def, props, NodeOf(op), st) == ByOp(u, fuel, def, base, op, st)
    decreases fuel, 2, body, 2, 0
  {
    hide *;
    var root, inner := Root(u, fuel, def, st, base), st.(origins := st.origins[op.depth := base]);
    ArrayNode(u, fuel, def, props, base, dims, n, op, st);
    ArrayOp(Origins(u), fuel, op, st.scope, root, st.stream.c);
    ByOpIs(u, fuel, def, base, op, st);
    if Eval(op.acc, st.scope).Some? {
      var loop := OverArray(op.depth, Eval(op.acc, st.scope).value);
      Deeper(u, fuel, def, st, base, dims, n);
      LoopRuns(u, fuel, def, props, base, dims, n + 1, loop, body, 0, op.dim, inner);
      ByForIs(u, fuel, def, base, loop, body, 0, op.dim, inner);
      AlongIs(st, inner, RunFor(Origins(u), fuel, loop, body, 0, op.dim, st.scope, root, st.stream.c));
    }
  }

  lemma {:induction false} LoopRuns(u: Unit, fuel: nat, def: Def, props: seq<nat>, base: Accessor, dims: seq<nat>,
                                    n: nat,
                                    loop: Loop, body: seq<Op>, j: nat, m: nat, st: State)
    requires Made(u) && u.mode != Read && st.stream.Out?
    requires Within(def, st, base, dims, n) && AllRooted(u.mode, base, dims, n, body)
    ensures RunLoop(u, fuel, def, props, loop, NodesOf(body), j, m, st) ==
            ByFor(u, fuel, def, base, loop, body, j, m, st)
    decreases fuel, 2, body, 1, if j < m then m - j else 0
  {
    hide RunNodes; hide RunOps; hide Root; hide Made; hide Linked; hide AllRooted; hide NodesOf; hide Within; hide Bind;
    if j < m {
      var inner := st.(scope := Bind(st.scope, loop, j));
      Stays(u, fuel, def, st, inner, base, dims, n);
      OpsRun(u, fuel, def, props, base, dims, n, body, inner);
      match ByOps(u, fuel, def, base, body, inner)
      case None =>
      case Some(after) =>
        var st' := Leave(st, after);
        Stays(u, fuel, def, st, st', base, dims, n);
        LoopRuns(u, fuel, def, props, base, dims, n, loop, body, j + 1, m, st');
    }
  }

  lemma CallNode(u: Unit, fuel: nat, def: Def, props: seq<nat>, name: Name, acc: Accessor, st: State)
    requires st.stream.Out?
    ensures RunNode(u, fuel, def, props, NodeOf(Call(name, acc)), st) ==
            var t := Fetch(Root(u, fuel, def, st, acc), acc, st.scope);
            if fuel == 0 || name !in u.code || name !in u.env || t.Nowhere? || (t.Outside? && IsBit(u.env, acc, name))
            then None
            else match RunText(u, fuel - 1, u.env[name], u.code[name], t, st.stream)
              case None => None
              case Some((_, stream)) => Some(st.(stream := stream))
  {
    hide RunText; hide Fetch; hide Root; hide IsBit;
    assert RunNode(u, fuel, def, props, NodeOf(Call(name, acc)), st) ==
           RunLine(u, fuel, def, Stmt(Call(name, acc)), st);
    assert RunLine(u, fuel, def, Stmt(Call(name, acc)), st) == DoCall(u, fuel, def, name, acc, st);
  }

  lemma CallOp(cx: Context, fuel: nat, name: Name, acc: Accessor, scope: Scope, root: Target, c: Cursor)
    ensures RunOp(cx, fuel, Call(name, acc), scope, root, c) ==
            var t := Fetch(root, acc, scope);
            if fuel == 0 || name !in cx.code || t.Nowhere? || (t.Outside? && IsBit(cx.env, acc, name)) then None
            else RunProg(cx, fuel - 1, cx.code[name], t, c)
  {
    hide Fetch; hide IsBit; hide RunProg;
  }

  lemma CallDone(st: State, t: Target, r: Option<Cursor>)
    ensures Along(st, r) == match Finished(t, r) case None => None case Some((_, stream)) => Some(st.(stream := stream))
  {
  }

  lemma {:induction false} CallRuns(u: Unit, fuel: nat, def: Def, props: seq<nat>, base: Accessor, dims: seq<nat>,
                                    n: nat,
                                    name: Name, acc: Accessor, st: State)
    requires Made(u) && u.mode != Read && st.stream.Out?
    requires Within(def, st, base, dims, n) && Starts(acc, base, n)
    ensures RunNode(u, fuel, def, props, NodeOf(Call(name, acc)), st) ==
            ByOp(u, fuel, def, base, Call(name, acc), st)
    decreases fuel, 1
  {
    hide *;
    var t := Fetch(Root(u, fuel, def, st, base), acc, st.scope);
    RootIs(u, fuel, def, st, acc, base, dims, n);
    CallNode(u, fuel, def, props, name, acc, st);
    CallOp(Origins(u), fuel, name, acc, st.scope, Root(u, fuel, def, st, base), st.stream.c);
    ByOpIs(u, fuel, def, base, Call(name, acc), st);
    CodeOf(u, name);
    if fuel > 0 && name in u.env {
      FunctionRuns(u, fuel - 1, u.env[name], t, st.stream.c);
      CallDone(st, t, RunProg(Origins(u), fuel - 1, ProgOf(u.env, u.mode, u.env[name]), t, st.stream.c));
    }
  }

  // ----- functions -----

  lemma {:induction false} TypedefRuns(u: Unit, fuel: nat, def: Def, self: Target, c: Cursor)
    requires Made(u) && u.mode != Read && def.Typedef?
    ensures RunText(u, fuel, def, EmittedFor(u.env, u.mode, def), self, Out(c)) ==
            Finished(self, RunProg(Origins(u), fuel, ProgOf(u.env, u.mode, def), self, c))
    decreases fuel, 4
  {
    hide RunNodes; hide RunText; hide RunOps; hide NodesOf; hide EntityOps; hide Made; hide Linked; hide AllRooted;
    hide Fields;
    hide ProgText;
    var st, ops := Start(self, Out(c)), EntityOps(u.env, u.mode, def.dims, def.ty, Instance);
    TextIs(u, fuel, def, self, Out(c));
    EntityRooted(u.env, u.mode, def.dims, def.ty, Instance);
    OpsRun(u, fuel, def, Ids(Fields(def)), Instance, def.dims, 0, ops, st);
  }

  lemma {:induction false} FunctionRuns(u: Unit, fuel: nat, def: Def, self: Target, c: Cursor)
    requires Made(u) && u.mode != Read && WellFormedDef(def)
    ensures RunText(u, fuel, def, EmittedFor(u.env, u.mode, def), self, Out(c)) ==
            Finished(self, RunProg(Origins(u), fuel, ProgOf(u.env, u.mode, def), self, c))
    decreases fuel, 5
  {
    hide *;
    match def
    case Struct(_, _) => StructRuns(u, fuel, def, self, c);
    case Union(_, _, _, _) => UnionRuns(u, fuel, def, self, c);
    case Typedef(_, _, _) => TypedefRuns(u, fuel, def, self, c);
  }

  // ----- structs -----

  lemma CopiedOps(env: Env, mode: Mode, f: Field, acc: Accessor)
    requires Copied(env, f)
    ensures var ops := EntityOps(env, mode, f.decl.dims, f.ty, acc);
            |ops| == 1 && (ops[0].Prim? || ops[0].Call?) && AccessorOf(ops[0]) == acc
  {
    var ty := f.ty;
    assert EntityOps(env, mode, f.decl.dims, ty, acc) == StreamOps(env, ty, acc, false);
    if ty.Named? && IsBareTypedef(env, ty.name) {
      var to := env[ty.name].ty;
      assert Strip(env, to) == to;
      assert Strip(env, ty) == if env[ty.name].dims == [] then to else ty;
    }
  }

  /** A number that would have to be copied from where there is no object. */
  lemma NothingToCopy(cx: Context, fuel: nat, f: Field, slot: nat, scope: Scope, c: Cursor)
    requires Copied(cx.env, f)
    ensures RunOps(cx, fuel, EntityOps(cx.env, cx.mode, f.decl.dims, f.ty, Programs.Accessor.Member(slot)), scope,
                   Nowhere, c)
            == None
  {
    var acc := Programs.Accessor.Member(slot);
    var ops := EntityOps(cx.env, cx.mode, f.decl.dims, f.ty, acc);
    CopiedOps(cx.env, cx.mode, f, acc);
    var op := ops[0];
    hide EntityOps; hide Strip;
    assert Fetch(Nowhere, acc, scope) == Nowhere;
    assert RunOp(cx, fuel, op, scope, Nowhere, c) == None;
  }

  /** The case of a member. */
  lemma {:induction false} MemberRuns(u: Unit, fuel: nat, def: Def, props: seq<nat>, k: nat, st: State)
    requires Made(u) && u.mode != Read && st.stream.Out? && st.scope == EMPTY_SCOPE
    requires def.Struct? && WellFormedDef(def) && k < |Fields(def)|
    ensures var e := Entries(u.env, u.mode, Fields(def))[k];
            RunNodes(u, fuel, def, props, EntryNode(u.mode, e).body, st) ==
            Along(st, if e.copied && st.self.Outside? then None
                      else RunOps(Origins(u), fuel, e.body, EMPTY_SCOPE, st.self, st.stream.c))
    decreases fuel, 3, 0
  {
    hide RunNode; hide RunBlock; hide RunNodes; hide RunOps; hide EntityOps; hide NodesOf; hide Copied; hide Made;
    hide Linked;
    hide AllRooted; hide Fields;
    var f := Fields(def)[k];
    var acc := Programs.Accessor.Member(f.decl.slot);
    var e := EntryOf(u.env, u.mode, f);
    EntityRooted(u.env, u.mode, f.decl.dims, f.ty, acc);
    OpsRun(u, fuel, def, props, acc, f.decl.dims, 0, e.body, st);
    RunOne(u, fuel, def, props, Block(MemberOf, NodesOf(e.body)), st);
    PlainBlock(u, fuel, def, props, MemberOf, NodesOf(e.body), st);
    if e.copied && st.self.Outside? { NothingToCopy(Origins(u), fuel, f, f.decl.slot, EMPTY_SCOPE, st.stream.c); }
    BlockRuns(u, fuel, def, props, MemberOf, NodesOf(e.body), st,
              if e.copied && st.self.Outside? then None
              else RunOps(Origins(u), fuel, e.body, EMPTY_SCOPE, st.self, st.stream.c));
  }

  /** The switch over the member ids, once for every id in the table. */
  lemma {:induction false} EachRuns(u: Unit, fuel: nat, def: Def, props: seq<nat>, ids: seq<nat>, st: State)
    requires Made(u) && u.mode != Read && st.stream.Out? && st.scope == EMPTY_SCOPE
    requires def.Struct? && WellFormedDef(def)
    ensures var es := Entries(u.env, u.mode, Fields(def));
            RunEach(u, fuel, def, props, [Block(IdSwitch, EntryNodes(u.mode, es))], ids, st) ==
            Along(st, RunEntities(Origins(u), fuel, ids, es, st.self, st.stream.c))
    decreases fuel, 3, 1 + |ids|
  {
    hide RunNodes; hide RunOps; hide Made; hide Linked; hide EntryNodes; hide Entries; hide Fields; hide FirstId;
    hide EntryNode; hide WellFormedDef; hide EntryFor;
    if ids != [] {
      var es, at := Entries(u.env, u.mode, Fields(def)), st.(prop := Some(ids[0]));
      IdNode(u, fuel, def, props, EntryNodes(u.mode, es), at);
      FirstIdIs(u.mode, es, ids[0]);
      match EntryFor(es, ids[0])
      case None =>
        assert Leave(st, at) == st;
        EachRuns(u, fuel, def, props, ids[1..], st);
      case Some(k) =>
        MemberRuns(u, fuel, def, props, k, at);
        if !(es[k].copied && st.self.Outside?) {
          match RunOps(Origins(u), fuel, es[k].body, EMPTY_SCOPE, st.self, st.stream.c)
          case None =>
          case Some(c) =>
            assert Leave(st, Leave(at, at.(stream := Out(c)))) == st.(stream := Out(c));
            EachRuns(u, fuel, def, props, ids[1..], st.(stream := Out(c)));
        }
    }
  }

  lemma {:induction false} StructRuns(u: Unit, fuel: nat, def: Def, self: Target, c: Cursor)
    requires Made(u) && u.mode != Read && def.Struct? && WellFormedDef(def)
    ensures RunText(u, fuel, def, EmittedFor(u.env, u.mode, def), self, Out(c)) ==
            Finished(self, RunProg(Origins(u), fuel, ProgOf(u.env, u.mode, def), self, c))
    decreases fuel, 4
  {
    hide RunText; hide RunNodes; hide RunEach; hide RunEntities; hide Made; hide Linked; hide EntryNodes; hide Entries;
    hide Fields; hide WellFormedDef; hide RunNode; hide ProgText;
    var st, props := Start(self, Out(c)), Ids(Fields(def));
    var es := Entries(u.env, u.mode, Fields(def));
    var loop := [Block(IdSwitch, EntryNodes(u.mode, es))];
    var r := RunEntities(Origins(u), fuel, props, es, self, c);
    TextIs(u, fuel, def, self, Out(c));
    EachRuns(u, fuel, def, props, props, st);
    BlockRuns(u, fuel, def, props, EntityLoop, loop, st, r);
    RunOne(u, fuel, def, props, Block(EntityLoop, loop), st);
    PlainBlock(u, fuel, def, props, Bracket.Struct, [Block(EntityLoop, loop)], st);
    BlockRuns(u, fuel, def, props, Bracket.Struct, [Block(EntityLoop, loop)], st, r);
    RunOne(u, fuel, def, props, Block(Bracket.Struct, [Block(EntityLoop, loop)]), st);
  }

  // ----- unions -----

  /** A union with its discriminator streamed. */
  function Begun(u: Unit, self: Target, d: nat, c: Cursor): State {
    Start(self, Out(c)).(d := Some(d), best := if u.mode == Max then Some(c) else None)
  }

  lemma DiscriminatorRuns(u: Unit, fuel: nat, def: Def, props: seq<nat>, disc: NumType, self: Target, c: Cursor)
    requires u.mode != Read
    ensures RunNodes(u, fuel, def, props, Lines(DiscriminatorText(u.mode, disc)), Start(self, Out(c))) ==
            match self
            case Live(VUnion(d, _)) =>
              (match Advance(Origins(u), c, disc.width, Bytes(d, disc.width))
               case None => None
               case Some(c') => Some(Begun(u, self, d, c')))
            case _ => None
  {
    hide RunNodes; hide Lines; hide Advance; hide Linked; hide DoLength; hide DoSimple; hide DoCall;
    var st, more := Start(self, Out(c)), if u.mode == Max then [DeclareMaximum] else [];
    assert DiscriminatorText(u.mode, disc) == [DeclareDiscriminator] + ([StreamDiscriminator(disc)] + more);
    LineRuns(u, fuel, def, props, DeclareDiscriminator, [StreamDiscriminator(disc)] + more, st);
    if self.Live? && self.v.VUnion? {
      var d := self.v.d;
      var st' := st.(d := Some(d));
      LineRuns(u, fuel, def, props, StreamDiscriminator(disc), more, st');
      SameStream(Plain(u), Origins(u));
      match Advance(Plain(u), c, disc.width, Bytes(d, disc.width))
      case None =>
      case Some(c') => MaximumRuns(u, fuel, def, props, st'.(stream := Out(c')));
    }
  }

  lemma MaximumRuns(u: Unit, fuel: nat, def: Def, props: seq<nat>, st: State)
    requires st.stream.Out? && st.best.None?
    ensures RunNodes(u, fuel, def, props, Lines(if u.mode == Max then [DeclareMaximum] else []), st) ==
            Some(st.(best := if u.mode == Max then Some(st.stream.c) else None))
  {
    NoLines(u, fuel, def, props, st);
    if u.mode == Max {
      assert [DeclareMaximum] + [] == [DeclareMaximum];
      LineRuns(u, fuel, def, props, DeclareMaximum, [], st);
      NoLines(u, fuel, def, props, st.(best := Some(st.stream.c)));
    }
    hide RunNodes; hide Lines;
  }

  lemma GuardedRuns(u: Unit, fuel: nat, def: Def, props: seq<nat>, keyed: bool, body: seq<Node>, st: State,
                    r: Option<Cursor>)
    requires !u.key && RunNodes(u, fuel, def, props, body, st) == Along(st, r)
    ensures RunNodes(u, fuel, def, props, GuardNodes(keyed, body), st) == Along(st, r)
  {
    hide RunNodes; hide RunBlock; hide RunNode;
    if keyed {
      PlainBlock(u, fuel, def, props, NotKey, body, st);
      BlockRuns(u, fuel, def, props, NotKey, body, st, r);
      RunOne(u, fuel, def, props, Block(NotKey, body), st);
    }
  }

  /** The code for the branch itself. */
  lemma {:induction false} InnerRuns(u: Unit, fuel: nat, def: Def, props: seq<nat>, i: nat, st: State)
    requires Made(u) && u.mode != Read && st.stream.Out? && st.scope == EMPTY_SCOPE
    requires def.Union? && i < |def.cases|
    ensures var b := Branchings(u.env, u.mode, def.cases)[i];
            RunNodes(u, fuel, def, props, GuardNodes(b.keyed, NodesOf(b.body)), st) ==
            Along(st, RunOps(Origins(u), fuel, b.body, EMPTY_SCOPE, BranchRoot(u, fuel, def, st.self, i), st.stream.c))
    decreases fuel, 3, 0
  {
    hide RunNodes; hide RunOps; hide EntityOps; hide NodesOf; hide Linked; hide AllRooted; hide GuardNodes;
    hide BranchRoot;
    var c := def.cases[i];
    var b := BranchingOf(u.env, u.mode, c, i);
    EntityRooted(u.env, u.mode, c.dims, c.ty, Branch(i));
    OpsRun(u, fuel, def, props, Branch(i), c.dims, 0, b.body, st);
    GuardedRuns(u, fuel, def, props, b.keyed, NodesOf(b.body), st,
                RunOps(Origins(u), fuel, b.body, EMPTY_SCOPE, BranchRoot(u, fuel, def, st.self, i), st.stream.c));
  }

  /** The block of a branch when it is written or moved over. */
  lemma {:induction false} CaseRuns(u: Unit, fuel: nat, def: Def, props: seq<nat>, i: nat, st: State)
    requires Made(u) && (u.mode == Write || u.mode == Move) && st.stream.Out? && st.scope == EMPTY_SCOPE
    requires def.Union? && i < |def.cases|
    ensures var b := Branchings(u.env, u.mode, def.cases)[i];
            RunNode(u, fuel, def, props, CaseNode(u.mode, b, i), st) ==
            Along(st, RunOps(Origins(u), fuel, b.body, EMPTY_SCOPE, BranchRoot(u, fuel, def, st.self, i), st.stream.c))
    decreases fuel, 3, 1
  {
    hide RunNodes; hide RunOps; hide NodesOf; hide Made; hide Linked; hide GuardNodes; hide RunNode; hide RunBlock;
    hide BranchRoot; hide Branchings;
    var b := Branchings(u.env, u.mode, def.cases)[i];
    var body := GuardNodes(b.keyed, NodesOf(b.body));
    InnerRuns(u, fuel, def, props, i, st);
    assert Lines([]) + body + Lines([]) == body;
    PlainBlock(u, fuel, def, props, CaseBlock, body, st);
    BlockRuns(u, fuel, def, props, CaseBlock, body, st,
              RunOps(Origins(u), fuel, b.body, EMPTY_SCOPE, BranchRoot(u, fuel, def, st.self, i), st.stream.c));
  }

  // ----- measuring unions -----

  function Larger(best: Cursor, c: Cursor): Cursor {
    if Before(best.pos, c.pos) then c else best
  }

  lemma KeepRuns(u: Unit, fuel: nat, def: Def, props: seq<nat>, st: State, c: Cursor)
    requires st.stream.Out? && st.best.Some? && st.saved.Some?
    ensures RunNodes(u, fuel, def, props, Lines([KeepLarger, RestorePosition]), st.(stream := Out(c))) ==
            Some(st.(best := Some(Larger(st.best.value, c)), stream := Out(st.saved.value)))
  {
    hide RunNodes; hide Lines; hide Before; hide DoLength; hide DoSimple; hide DoCall;
    var at := st.(stream := Out(c));
    var kept := at.(best := Some(Larger(st.best.value, c)));
    assert [KeepLarger, RestorePosition] == [KeepLarger] + ([RestorePosition] + []);
    LineRuns(u, fuel, def, props, KeepLarger, [RestorePosition] + [], at);
    assert RunLine(u, fuel, def, KeepLarger, at) == Some(kept);
    LineRuns(u, fuel, def, props, RestorePosition, [], kept);
    NoLines(u, fuel, def, props, kept.(stream := Out(st.saved.value)));
  }

  lemma SaveRuns(u: Unit, fuel: nat, def: Def, props: seq<nat>, st: State)
    requires st.stream.Out?
    ensures RunNodes(u, fuel, def, props, Lines([SavePosition]), st) == Some(st.(saved := Some(st.stream.c)))
  {
    hide RunNodes; hide Lines;
    assert [SavePosition] == [SavePosition] + [];
    LineRuns(u, fuel, def, props, SavePosition, [], st);
    NoLines(u, fuel, def, props, st.(saved := Some(st.stream.c)));
  }

  /** The block of a branch when it is measured: back to where it started, and the furthest end is kept. */
  lemma {:induction false} MaxCaseRuns(u: Unit, fuel: nat, def: Def, props: seq<nat>, i: nat, st: State)
    requires Made(u) && u.mode == Max && st.stream.Out? && st.scope == EMPTY_SCOPE && st.best.Some? && st.saved.None?
    requires def.Union? && i < |def.cases|
    ensures var b := Branchings(u.env, Max, def.cases)[i];
            RunNode(u, fuel, def, props, CaseNode(Max, b, i), st) ==
            match RunOps(Origins(u), fuel, b.body, EMPTY_SCOPE, BranchRoot(u, fuel, def, st.self, i), st.stream.c)
            case None => None
            case Some(c) => Some(st.(best := Some(Larger(st.best.value, c))))
    decreases fuel, 3, 1
  {
    hide *;
    var b := Branchings(u.env, Max, def.cases)[i];
    var saved := st.(saved := Some(st.stream.c));
    MaxCaseNode(b, i);
    ThreeParts(u, fuel, def, props, CaseBlock, Lines([SavePosition]), GuardNodes(b.keyed, NodesOf(b.body)),
               Lines([KeepLarger, RestorePosition]), st);
    SaveRuns(u, fuel, def, props, st);
    InnerRuns(u, fuel, def, props, i, saved);
    var r := RunOps(Origins(u), fuel, b.body, EMPTY_SCOPE, BranchRoot(u, fuel, def, st.self, i), st.stream.c);
    AlongIs(saved, saved, r);
    match r
    case None =>
    case Some(c) =>
      KeepRuns(u, fuel, def, props, saved, c);
      LeaveMeasured(st, saved.(best := Some(Larger(st.best.value, c)), stream := Out(st.stream.c)));
  }

  lemma MaxCaseNode(b: Branching, i: nat)
    ensures CaseNode(Max, b, i) == Block(CaseBlock, Lines([SavePosition]) + GuardNodes(b.keyed, NodesOf(b.body))
                                                    + Lines([KeepLarger, RestorePosition]))
  {
  }

  lemma LeaveMeasured(st: State, after: State)
    requires st.best.Some? && st.saved.None? && after.best.Some?
    requires after == st.(saved := after.saved, best := after.best)
    ensures Leave(st, after) == st.(best := after.best)
  {
  }

  lemma MaxBranches(bs: seq<Branching>, i: nat)
    requires i < |bs|
    ensures BranchesNodes(Max, bs, i) == [CaseNode(Max, bs[i], i)] + BranchesNodes(Max, bs, i + 1)
  {
    hide CaseNode;
  }

  /** All branches from number `i` on, each measured from the same start. */
  lemma {:induction false} MaxCasesRun(u: Unit, fuel: nat, def: Def, props: seq<nat>, i: nat, st: State, d: nat,
                                       payload: Option<Val>)
    requires Made(u) && u.mode == Max && st.stream.Out? && st.scope == EMPTY_SCOPE && st.best.Some? && st.saved.None?
    requires def.Union? && i <= |def.cases| && st.self == Live(VUnion(d, payload))
    ensures var bs := Branchings(u.env, Max, def.cases);
            RunNodes(u, fuel, def, props, BranchesNodes(Max, bs, i), st) ==
            match RunBranches(Origins(u), fuel, bs, i, ShapeOf(def), d, payload, st.stream.c, st.best.value)
            case None => None
            case Some(best) => Some(st.(best := Some(best)))
    decreases fuel, 3, 2 + |def.cases| - i
  {
    hide *;
    var bs := Branchings(u.env, Max, def.cases);
    var best := st.best.value;
    BranchesEnd(Origins(u), fuel, bs, i, ShapeOf(def), d, payload, st.stream.c, best);
    if i == |bs| {
      MaxEnds(u, fuel, def, props, bs, st);
    } else {
      MaxCaseRuns(u, fuel, def, props, i, st);
      MaxBranches(bs, i);
      RunNodesAppend(u, fuel, def, props, [CaseNode(Max, bs[i], i)], BranchesNodes(Max, bs, i + 1), st);
      RunOne(u, fuel, def, props, CaseNode(Max, bs[i], i), st);
      SameRef(u, fuel, def, d, payload, i);
      BranchIs(u.env, Max, def.cases, i);
      match RunOps(Origins(u), fuel, bs[i].body, EMPTY_SCOPE, BranchRoot(u, fuel, def, st.self, i), st.stream.c)
      case None =>
      case Some(c) => MaxCasesRun(u, fuel, def, props, i + 1, st.(best := Some(Larger(best, c))), d, payload);
    }
  }

  lemma BranchesEnd(cx: Context, fuel: nat, bs: seq<Branching>, i: nat, shape: Shape, d: nat, payload: Option<Val>,
                    start: Cursor, best: Cursor)
    requires i <= |bs|
    ensures RunBranches(cx, fuel, bs, i, shape, d, payload, start, best) ==
            if i == |bs| then Some(best)
            else match RunOps(cx, fuel, bs[i].body, EMPTY_SCOPE,
                              BranchRef(cx, fuel, bs[i].dims, bs[i].ty, shape, d, payload, i), start)
              case None => None
              case Some(c) => RunBranches(cx, fuel, bs, i + 1, shape, d, payload, start, Larger(best, c))
  {
    hide RunOps; hide BranchRef; hide Before;
  }

  lemma BranchIs(env: Env, mode: Mode, cases: seq<Case>, i: nat)
    requires i < |cases|
    ensures var b := Branchings(env, mode, cases)[i]; b.dims == cases[i].dims && b.ty == cases[i].ty
  {
    hide EntityOps;
  }

  lemma SameRef(u: Unit, fuel: nat, def: Def, d: nat, payload: Option<Val>, i: nat)
    requires def.Union? && i < |def.cases| && u.mode == Max
    ensures BranchRoot(u, fuel, def, Live(VUnion(d, payload)), i) ==
            BranchRef(Origins(u), fuel, def.cases[i].dims, def.cases[i].ty, ShapeOf(def), d, payload, i)
  {
    hide BranchTarget; hide DefaultArray; hide ShapeOf; hide Linked;
  }

  lemma MaxEnds(u: Unit, fuel: nat, def: Def, props: seq<nat>, bs: seq<Branching>, st: State)
    ensures RunNodes(u, fuel, def, props, BranchesNodes(Max, bs, |bs|), st) == Some(st)
  {
  }

  // ----- whole unions -----

  /** What is left to do when the discriminator is streamed. */
  function Rest(u: Unit, fuel: nat, def: Def, d: nat, payload: Option<Val>, c: Cursor): Option<Cursor>
    requires def.Union?
  {
    var bs := Branchings(u.env, u.mode, def.cases);
    if u.mode == Max then RunBranches(Origins(u), fuel, bs, 0, ShapeOf(def), d, payload, c, c)
    else match ArmOf(ShapeOf(def), d)
      case Some(i) =>
        RunOps(Origins(u), fuel, bs[i].body, EMPTY_SCOPE, BranchTarget(ShapeOf(def), d, payload, i), c)
      case None => Some(c)
  }

  lemma UnionProgIs(u: Unit, fuel: nat, def: Def, self: Target, c: Cursor)
    requires def.Union?
    ensures RunProg(Origins(u), fuel, ProgOf(u.env, u.mode, def), self, c) ==
            match self
            case Live(VUnion(d, payload)) =>
              (match Advance(Origins(u), c, def.disc.width, Bytes(d, def.disc.width))
               case None => None
               case Some(c') => Rest(u, fuel, def, d, payload, c'))
            case _ => None
  {
    hide RunOps; hide Advance; hide Branchings; hide RunBranches; hide BranchTarget; hide ArmOf; hide ShapeOf;
    hide Linked;
  }

  lemma {:induction false} RestSwitches(u: Unit, fuel: nat, def: Def, props: seq<nat>, d: nat, payload: Option<Val>,
                                        st: State)
    requires Made(u) && (u.mode == Write || u.mode == Move) && st.stream.Out? && st.scope == EMPTY_SCOPE
    requires def.Union? && st.d == Some(d) && st.self == Live(VUnion(d, payload))
    ensures RunNodes(u, fuel, def, props, SwitchNodes(u.mode, Branchings(u.env, u.mode, def.cases), def.implicit),
                     st) ==
            Along(st, Rest(u, fuel, def, d, payload, st.stream.c))
    decreases fuel, 3, 2
  {
    hide RunNode; hide RunNodes; hide RunOps; hide RunBlock; hide Made; hide Linked; hide CaseNode; hide BranchesNodes;
    hide BranchTarget; hide ArmOf; hide EntityOps; hide Lines; hide DefaultText; hide NodesOf;
    var bs := Branchings(u.env, u.mode, def.cases);
    var cases := BranchesNodes(u.mode, bs, 0) + Lines(DefaultText(u.mode, def.implicit));
    SwitchRuns(u, fuel, def, props, u.mode, bs, ShapeOf(def), st);
    RunOne(u, fuel, def, props, Block(Bracket.Switch, cases), st);
    if ArmOf(ShapeOf(def), d).Some? { CaseRuns(u, fuel, def, props, ArmOf(ShapeOf(def), d).value, st); }
    BlockRuns(u, fuel, def, props, Bracket.Switch, cases, st, Rest(u, fuel, def, d, payload, st.stream.c));
  }

  lemma SetMaximumRuns(u: Unit, fuel: nat, def: Def, props: seq<nat>, st: State)
    requires st.stream.Out? && st.best.Some?
    ensures RunNodes(u, fuel, def, props, Lines([SetMaximum]), st) == Some(st.(stream := Out(st.best.value)))
  {
    hide RunNodes; hide Lines; hide DoLength; hide DoSimple; hide DoCall;
    assert [SetMaximum] == [SetMaximum] + [];
    LineRuns(u, fuel, def, props, SetMaximum, [], st);
    NoLines(u, fuel, def, props, st.(stream := Out(st.best.value)));
  }

  /** Where the text comes to when it has streamed the discriminator. */
  function Ended(st: State, r: Option<Cursor>, best: bool): Option<State> {
    match r case None => None case Some(c) => Some(st.(stream := Out(c), best := if best then Some(c) else st.best))
  }

  lemma {:induction false} RestRuns(u: Unit, fuel: nat, def: Def, props: seq<nat>, d: nat, payload: Option<Val>,
                                    c: Cursor)
    requires Made(u) && u.mode != Read && def.Union?
    ensures var st := Begun(u, Live(VUnion(d, payload)), d, c);
            RunNodes(u, fuel, def, props,
                     SwitchNodes(u.mode, Branchings(u.env, u.mode, def.cases), def.implicit)
                     + Lines(if u.mode == Max then [SetMaximum] else []), st) ==
            Ended(st, Rest(u, fuel, def, d, payload, c), u.mode == Max)
    decreases fuel, 3, 3 + |def.cases|
  {
    hide RunNode; hide RunNodes; hide RunOps; hide RunBlock; hide Made; hide Linked; hide CaseNode; hide BranchesNodes;
    hide RunBranches; hide ArmOf; hide Branchings; hide Lines; hide ShapeOf; hide DefaultText; hide BranchTarget;
    var st, bs := Begun(u, Live(VUnion(d, payload)), d, c), Branchings(u.env, u.mode, def.cases);
    var tail := Lines(if u.mode == Max then [SetMaximum] else []);
    RunNodesAppend(u, fuel, def, props, SwitchNodes(u.mode, bs, def.implicit), tail, st);
    if u.mode == Max {
      NoDefault(bs, def.implicit);
      MaxCasesRun(u, fuel, def, props, 0, st, d, payload);
      match Rest(u, fuel, def, d, payload, c)
      case None =>
      case Some(best) => SetMaximumRuns(u, fuel, def, props, st.(best := Some(best)));
    } else {
      RestSwitches(u, fuel, def, props, d, payload, st);
      match Rest(u, fuel, def, d, payload, c)
      case None =>
      case Some(end) => NoLines(u, fuel, def, props, st.(stream := Out(end)));
    }
  }

  lemma NoDefault(bs: seq<Branching>, implicit: bool)
    ensures SwitchNodes(Max, bs, implicit) == BranchesNodes(Max, bs, 0)
  {
    hide BranchesNodes;
  }

  lemma {:induction false} UnionRuns(u: Unit, fuel: nat, def: Def, self: Target, c: Cursor)
    requires Made(u) && u.mode != Read && def.Union?
    ensures RunText(u, fuel, def, EmittedFor(u.env, u.mode, def), self, Out(c)) ==
            Finished(self, RunProg(Origins(u), fuel, ProgOf(u.env, u.mode, def), self, c))
    decreases fuel, 4
  {
    hide *;
    var st, props := Start(self, Out(c)), Ids(Fields(def));
    var bs := Branchings(u.env, u.mode, def.cases);
    var switch := SwitchNodes(u.mode, bs, def.implicit) + Lines(if u.mode == Max then [SetMaximum] else []);
    var body := Lines(DiscriminatorText(u.mode, def.disc)) + switch;
    TextIs(u, fuel, def, self, Out(c));
    UnionBody(u.env, u.mode, def);
    UnionProgIs(u, fuel, def, self, c);
    RunOne(u, fuel, def, props, Block(Bracket.Struct, body), st);
    StructBlock(u, fuel, def, props, body, st);
    RunNodesAppend(u, fuel, def, props, Lines(DiscriminatorText(u.mode, def.disc)), switch, st);
    DiscriminatorRuns(u, fuel, def, props, def.disc, self, c);
    if self.Live? && self.v.VUnion? {
      match Advance(Origins(u), c, def.disc.width, Bytes(self.v.d, def.disc.width))
      case None =>
      case Some(c') =>
        RestRuns(u, fuel, def, props, self.v.d, self.v.payload, c');
        EndedIs(u, self, self.v.d, c', Rest(u, fuel, def, self.v.d, self.v.payload, c'));
    }
    EndedIs(u, self, 0, c, None);
  }

  lemma EndedIs(u: Unit, self: Target, d: nat, c: Cursor, r: Option<Cursor>)
    ensures Finished(self, None) == None
    ensures match Ended(Begun(u, self, d, c), r, u.mode == Max)
            case None => r == None
            case Some(end) => Finished(self, r) == Some((end.self, end.stream))
  {
  }
}
