/** Running the emitted text on the stream that fills an object in is running the program it was made from. */
module TextReads {
  import opened Wrappers
  import opened Wire
  import opened Unions
  import opened Idl
  import opened Programs
  import opened Emitter
  import opened Objects
  import opened Machine
  import opened TextNodes
  import opened TextMachine
  import opened TextSteps

  // ----- the object that is filled in -----

  /** The code is about the object itself, or about a new object for a branch. */
  predicate Holding(st: State, base: Accessor) {
    && st.stream.In? && st.self.Live?
    && (base.Instance? || base.Member? || (base.Obj? && st.obj.Some?))
  }

  function Content(st: State, base: Accessor): Val
    requires Holding(st, base)
  {
    if base.Obj? then st.obj.value.1 else st.self.v
  }

  /** A state in which the object was filled in further. */
  function Filled(st: State, base: Accessor, r: Option<(Val, Reader)>): Option<State> {
    match r
    case None => None
    case Some((v, r')) =>
      if !base.Obj? then Some(st.(self := Live(v), stream := In(r')))
      else if st.obj.Some? then Some(st.(obj := Some((st.obj.value.0, v)), stream := In(r')))
      else None
  }

  lemma FilledHolds(def: Def, st: State, base: Accessor, dims: seq<nat>, n: nat, v: Val, r: Reader)
    requires Holding(st, base) && Within(def, st, base, dims, n)
    ensures var after := Filled(st, base, Some((v, r)));
            after.Some? && Holding(after.value, base) && Within(def, after.value, base, dims, n) &&
            Content(after.value, base) == v && after.value.stream == In(r) && after.value.scope == st.scope &&
            Leave(st, after.value) == after.value &&
            forall x :: Filled(after.value, base, x) == Filled(st, base, x)
  {
  }

  lemma RootHolds(u: Unit, fuel: nat, def: Def, st: State, acc: Accessor, base: Accessor, dims: seq<nat>, n: nat)
    requires Holding(st, base) && Within(def, st, base, dims, n) && Starts(acc, base, n)
    ensures Root(u, fuel, def, st, acc) == Live(Content(st, base))
    ensures Origin(acc, st.origins) == Some(base)
    ensures Extents(def, st, acc) == dims
    ensures forall v, r ::
              Some(Store(st.(stream := In(r)), acc, v)) == Filled(st, base, Some((v, r)))
  {
    RootIs(u, fuel, def, st, acc, base, dims, n);
    hide Extents; hide Copied;
  }

  // ----- numbers and strings -----

  lemma {:induction false} SameEach(a: Context, b: Context, r: Reader, num: NumType, count: nat)
    requires a.ma == b.ma
    ensures TakeEach(a, r, num, count) == TakeEach(b, r, num, count)
    decreases count
  {
    hide AlignStep; hide Convert;
    if count > 0 {
      SameNumber(a, b, r, num);
      hide TakeNum;
      match TakeNum(a, r, num)
      case None =>
      case Some((_, r')) => SameEach(a, b, r', num, count - 1);
    }
  }

  lemma SameNumber(a: Context, b: Context, r: Reader, num: NumType)
    requires a.ma == b.ma
    ensures TakeNum(a, r, num) == TakeNum(b, r, num)
  {
    hide AlignStep; hide Convert;
  }

  /** Taking bytes from the stream does not look at the code of a context. */
  lemma SameReader(a: Context, b: Context, r: Reader, num: NumType, count: nat, bound: nat)
    requires a.ma == b.ma
    ensures TakeNum(a, r, num) == TakeNum(b, r, num)
    ensures TakeNums(a, r, num, count) == TakeNums(b, r, num, count)
    ensures TakeText(a, r, bound) == TakeText(b, r, bound)
  {
    hide TakeNum; hide TakeEach; hide AlignStep; hide Chop;
    SameEach(a, b, r, num, count);
    SameNumber(a, b, r, num);
    SameNumber(a, b, r, NumType(4, Integer));
  }

  lemma SimpleRead(a: Context, b: Context, fuel: nat, op: Op, scope: Scope, v: Val, r: Reader)
    requires a.ma == b.ma && IsSimple(op)
    ensures ReadOp(a, fuel, op, scope, v, r) == ReadOp(b, fuel, op, scope, v, r)
  {
    hide TakeNum; hide TakeNums; hide TakeText; hide Eval; hide Put; hide IsNode;
    match op {
      case Prim(_, num) => SameReader(a, b, r, num, 0, 0);
      case BoolElement(_, num) => SameReader(a, b, r, num, 0, 0);
      case Text(_, bound) => SameReader(a, b, r, NumType(4, Integer), 0, bound);
      case BulkArray(_, num, dim) => SameReader(a, b, r, num, dim, 0);
      case BulkVector(_, depth, num) =>
        if depth in scope.length { SameReader(a, b, r, num, scope.length[depth], 0); }
      case _ =>
    }
  }

  function ByOp(u: Unit, fuel: nat, base: Accessor, op: Op, st: State): Option<State>
    requires Holding(st, base)
  {
    Filled(st, base, ReadOp(Origins(u), fuel, op, st.scope, Content(st, base), st.stream.r))
  }

  function ByOps(u: Unit, fuel: nat, base: Accessor, ops: seq<Op>, st: State): Option<State>
    requires Holding(st, base)
  {
    Filled(st, base, ReadOps(Origins(u), fuel, ops, st.scope, Content(st, base), st.stream.r))
  }

  function ByFor(u: Unit, fuel: nat, base: Accessor, loop: Loop, body: seq<Op>, j: nat, m: nat,
                 st: State): Option<State>
    requires Holding(st, base)
  {
    Filled(st, base, ReadFor(Origins(u), fuel, loop, body, j, m, st.scope, Content(st, base), st.stream.r))
  }

  lemma DoSimpleIn(u: Unit, fuel: nat, def: Def, base: Accessor, op: Op, st: State)
    requires IsSimple(op) && Holding(st, base) && Root(u, fuel, def, st, AccessorOf(op)) == Live(Content(st, base))
    requires forall v, r :: Some(Store(st.(stream := In(r)), AccessorOf(op), v)) == Filled(st, base, Some((v, r)))
    ensures DoSimple(u, fuel, def, op, st) ==
            Filled(st, base, ReadOp(Plain(u), fuel, op, st.scope, Content(st, base), st.stream.r))
  {
    hide ReadOp; hide Root; hide Store;
  }

  lemma NothingRead(u: Unit, fuel: nat, def: Def, base: Accessor, op: Op, st: State)
    requires (op.BulkDefault? || op.Unbounded?) && Holding(st, base)
    ensures DoSimple(u, fuel, def, op, st) == None && ByOp(u, fuel, base, op, st) == None
  {
    hide Root;
  }

  lemma SimpleReads(u: Unit, fuel: nat, def: Def, props: seq<nat>, base: Accessor, dims: seq<nat>, n: nat, op: Op,
                    st: State)
    requires IsSimple(op) && Holding(st, base)
    requires Within(def, st, base, dims, n) && Rooted(u.mode, base, dims, n, op)
    ensures RunNode(u, fuel, def, props, NodeOf(op), st) == ByOp(u, fuel, base, op, st)
  {
    hide ReadOp; hide Root; hide RunNode; hide NodeOf; hide DoSimple; hide Within; hide Linked; hide Origin; hide Store;
    hide Filled;
    SimpleNode(u, fuel, def, props, op, st);
    if op.BulkDefault? || op.Unbounded? {
      NothingRead(u, fuel, def, base, op, st);
    } else {
      RootHolds(u, fuel, def, st, AccessorOf(op), base, dims, n);
      DoSimpleIn(u, fuel, def, base, op, st);
      SimpleRead(Plain(u), Origins(u), fuel, op, st.scope, Content(st, base), st.stream.r);
    }
  }

  lemma ByOpIs(u: Unit, fuel: nat, base: Accessor, op: Op, st: State)
    requires Holding(st, base)
    ensures ByOp(u, fuel, base, op, st) ==
            Filled(st, base, ReadOp(Origins(u), fuel, op, st.scope, Content(st, base), st.stream.r))
    ensures Filled(st, base, None) == None
  {
    hide ReadOp; hide Origins;
  }

  lemma ByOpsIs(u: Unit, fuel: nat, base: Accessor, ops: seq<Op>, st: State)
    requires Holding(st, base)
    ensures ByOps(u, fuel, base, ops, st) ==
            Filled(st, base, ReadOps(Origins(u), fuel, ops, st.scope, Content(st, base), st.stream.r))
    ensures Filled(st, base, None) == None
  {
    hide ReadOps; hide Origins;
  }

  lemma ByForIs(u: Unit, fuel: nat, base: Accessor, loop: Loop, body: seq<Op>, j: nat, m: nat, st: State)
    requires Holding(st, base)
    ensures ByFor(u, fuel, base, loop, body, j, m, st) ==
            Filled(st, base, ReadFor(Origins(u), fuel, loop, body, j, m, st.scope, Content(st, base), st.stream.r))
    ensures Filled(st, base, None) == None
  {
    hide ReadFor; hide Origins;
  }

  /** Leaving a block in which, besides what was read, only the scope and the array variables changed. */
  lemma FilledInner(st: State, inner: State, base: Accessor, r: Option<(Val, Reader)>)
    requires Holding(st, base) && inner == st.(scope := inner.scope, origins := inner.origins)
    ensures Holding(inner, base) && Content(inner, base) == Content(st, base)
    ensures match Filled(inner, base, r)
            case None => Filled(st, base, r) == None
            case Some(after) => Filled(st, base, r) == Some(Leave(st, after))
  {
  }

  // ----- sequences -----

  lemma {:induction false} EvalSame(acc: Accessor, a: Scope, b: Scope)
    requires a.index == b.index && a.refs == b.refs
    ensures Eval(acc, a) == Eval(acc, b)
  {
    match acc
    case Element(vector, _) => EvalSame(vector, a, b);
    case _ =>
  }

  /** The part of the object that a sequence is read into. */
  lemma SizeIs(v: Val, acc: Accessor, scope: Scope)
    ensures LengthOf(SizeOf(acc), scope, Live(v)) ==
            if Eval(acc, scope).None? then None
            else match Get(v, Eval(acc, scope).value)
              case Some(VNode(kids)) => Some(|kids| % UINT32_LIMIT)
              case _ => None
  {
    hide Eval; hide Get;
  }

  /** Reading the length, and making room for so many elements. */
  function ReadLength(cx: Context, fuel: nat, check: Option<nat>, ty: Type, acc: Accessor, scope: Scope, v: Val,
                      r: Reader)
    : Option<(nat, Val, Reader)>
  {
    if Eval(acc, scope).None? then None
    else
      var p := Eval(acc, scope).value;
      match Get(v, p)
      case Some(VNode(kids)) =>
        if check.Some? && |kids| % UINT32_LIMIT > check.value then None
        else
          (match TakeNum(cx, r, NumType(4, Integer))
           case None => None
           case Some((n, r')) => Some((n, Put(v, p, VNode(Resized(kids, n, Default(cx.env, fuel, ty)))), r')))
      case _ => None
  }

  lemma CountedOp(cx: Context, fuel: nat, op: Op, scope: Scope, v: Val, r: Reader)
    requires op.Counted? && op.resize.Some?
    ensures ReadOp(cx, fuel, op, scope, v, r) ==
            match ReadLength(cx, fuel, op.check, op.resize.value, op.acc, scope, v, r)
            case None => None
            case Some((n, v', r')) => ReadOps(cx, fuel, op.body, WithLength(scope, op.depth, n), v', r')
  {
    hide Eval; hide Get; hide Put; hide TakeNum; hide ReadOps; hide Default; hide Resized;
  }

  lemma DeclareReads(u: Unit, fuel: nat, def: Def, base: Accessor, dims: seq<nat>, n: nat, depth: nat, acc: Accessor,
                     st: State)
    requires Holding(st, base) && Within(def, st, base, dims, n) && Starts(acc, base, n)
    ensures RunLine(u, fuel, def, DeclareLength(depth, SizeOf(acc)), st) ==
            match LengthOf(SizeOf(acc), st.scope, Live(Content(st, base)))
            case None => None
            case Some(m) => Some(st.(scope := WithLength(st.scope, depth, m)))
  {
    hide Root; hide LengthOf; hide Within; hide Origin;
    RootHolds(u, fuel, def, st, acc, base, dims, n);
  }

  lemma StreamReads(u: Unit, fuel: nat, def: Def, depth: nat, st: State)
    requires depth in st.scope.length && st.stream.In?
    ensures RunLine(u, fuel, def, StreamLength(depth), st) ==
            match TakeNum(Origins(u), st.stream.r, NumType(4, Integer))
            case None => None
            case Some((m, r)) => Some(st.(stream := In(r), scope := WithLength(st.scope, depth, m)))
  {
    hide TakeNum; hide Linked;
    SameNumber(Plain(u), Origins(u), st.stream.r, NumType(4, Integer));
  }

  lemma ResizeReads(u: Unit, fuel: nat, def: Def, base: Accessor, dims: seq<nat>, n: nat, depth: nat, acc: Accessor,
                    ty: Type, st: State)
    requires Holding(st, base) && Within(def, st, base, dims, n) && Starts(acc, base, n)
    requires depth in st.scope.length && Eval(acc, st.scope).Some?
    requires Get(Content(st, base), Eval(acc, st.scope).value).Some?
    requires Get(Content(st, base), Eval(acc, st.scope).value).value.VNode?
    ensures var p := Eval(acc, st.scope).value;
            var kids := Get(Content(st, base), p).value.kids;
            RunLine(u, fuel, def, Resize(acc, depth, ty), st) ==
            Filled(st, base, Some((Put(Content(st, base), p,
                                       VNode(Resized(kids, st.scope.length[depth], Default(u.env, fuel, ty)))),
                                   st.stream.r)))
  {
    hide Root; hide Within; hide Origin; hide Eval; hide Get; hide Put; hide Resized; hide Default; hide Store;
    hide Filled;
    RootHolds(u, fuel, def, st, acc, base, dims, n);
    assert st.(stream := In(st.stream.r)) == st;
  }

  /** The lines in front of the elements of a sequence. */
  lemma LengthReads(u: Unit, fuel: nat, def: Def, props: seq<nat>, base: Accessor, dims: seq<nat>, n: nat, depth: nat,
                    check: Option<nat>, ty: Type, acc: Accessor, st: State)
    requires Holding(st, base) && Within(def, st, base, dims, n) && Starts(acc, base, n)
    ensures RunNodes(u, fuel, def, props, Lines(LengthText(depth, SizeOf(acc), check, Some(ty), acc)), st) ==
            match ReadLength(Origins(u), fuel, check, ty, acc, st.scope, Content(st, base), st.stream.r)
            case None => None
            case Some((m, v, r)) => Filled(st.(scope := WithLength(st.scope, depth, m)), base, Some((v, r)))
  {
    hide RunLine; hide RunNodes; hide Lines; hide LengthOf; hide Root; hide TakeNum; hide Within; hide Linked;
    hide Eval;
    hide Get; hide Put; hide Default; hide Resized; hide Filled; hide DoResize;
    var tail := [StreamLength(depth)] + ([Resize(acc, depth, ty)] + []);
    var guard := if check.Some? then [CheckBound(depth, check.value)] else [];
    var v, m := Content(st, base), LengthOf(SizeOf(acc), st.scope, Live(Content(st, base)));
    assert LengthText(depth, SizeOf(acc), check, Some(ty), acc) == [DeclareLength(depth, SizeOf(acc))] + (guard + tail);
    LineRuns(u, fuel, def, props, DeclareLength(depth, SizeOf(acc)), guard + tail, st);
    DeclareReads(u, fuel, def, base, dims, n, depth, acc, st);
    SizeIs(v, acc, st.scope);
    if m.Some? {
      var st' := st.(scope := WithLength(st.scope, depth, m.value));
      GuardRuns(u, fuel, def, props, depth, check, tail, st');
      LineRuns(u, fuel, def, props, StreamLength(depth), [Resize(acc, depth, ty)] + [], st');
      StreamReads(u, fuel, def, depth, st');
      match TakeNum(Origins(u), st.stream.r, NumType(4, Integer))
      case None =>
      case Some((k, r)) => RoomReads(u, fuel, def, props, base, dims, n, depth, m.value, k, acc, ty, st, r);
    }
  }

  lemma RoomReads(u: Unit, fuel: nat, def: Def, props: seq<nat>, base: Accessor, dims: seq<nat>, n: nat, depth: nat,
                  m: nat, k: nat, acc: Accessor, ty: Type, st: State, r: Reader)
    requires Holding(st, base) && Within(def, st, base, dims, n) && Starts(acc, base, n)
    requires Eval(acc, st.scope).Some? && Get(Content(st, base), Eval(acc, st.scope).value).Some?
    requires Get(Content(st, base), Eval(acc, st.scope).value).value.VNode?
    ensures var p := Eval(acc, st.scope).value;
            var kids := Get(Content(st, base), p).value.kids;
            RunNodes(u, fuel, def, props, Lines([Resize(acc, depth, ty)] + []),
                     st.(stream := In(r), scope := WithLength(WithLength(st.scope, depth, m), depth, k))) ==
            Filled(st.(scope := WithLength(st.scope, depth, k)), base,
                   Some((Put(Content(st, base), p, VNode(Resized(kids, k, Default(u.env, fuel, ty)))), r)))
  {
    hide RunLine; hide RunNodes; hide Lines; hide Eval; hide Get; hide Put; hide Default; hide Resized; hide Extents;
    assert st.scope.length[depth := m][depth := k] == st.scope.length[depth := k];
    var at := st.(stream := In(r), scope := WithLength(st.scope, depth, k));
    assert WithLength(WithLength(st.scope, depth, m), depth, k) == at.scope;
    BaseStays(u, fuel, def, st, at, base);
    EvalSame(acc, st.scope, at.scope);
    LineRuns(u, fuel, def, props, Resize(acc, depth, ty), [], at);
    ResizeReads(u, fuel, def, base, dims, n, depth, acc, ty, at);
    var p := Eval(acc, st.scope).value;
    var v := Put(Content(st, base), p, VNode(Resized(Get(Content(st, base), p).value.kids, k,
                                                     Default(u.env, fuel, ty))));
    NoLines(u, fuel, def, props, Filled(at, base, Some((v, r))).value);
  }

  // ----- one declarator -----

  /** What running the function of a definition comes to. */
  function Finished(r: Option<(Val, Reader)>): Option<(Target, Stream)> {
    match r case None => None case Some((v, r')) => Some((Live(v), In(r')))
  }

  lemma StreamIs(st: State, base: Accessor)
    requires Holding(st, base)
    ensures st.stream.In? && st.stream == In(st.stream.r)
  {
  }

  lemma BlockReads(u: Unit, fuel: nat, def: Def, props: seq<nat>, b: Bracket, body: seq<Node>, base: Accessor,
                   st: State,
                   r: Option<(Val, Reader)>)
    requires Holding(st, base) && RunBlock(u, fuel, def, props, b, body, st) == Filled(st, base, r)
    ensures RunNode(u, fuel, def, props, Block(b, body), st) == Filled(st, base, r)
  {
    hide RunBlock;
    FilledInner(st, st, base, r);
  }

  lemma {:induction false} OpReads(u: Unit, fuel: nat, def: Def, props: seq<nat>, base: Accessor, dims: seq<nat>,
                                   n: nat,
                                   op: Op, st: State)
    requires Made(u) && u.mode == Read && Holding(st, base)
    requires Within(def, st, base, dims, n) && Rooted(Read, base, dims, n, op)
    ensures RunNode(u, fuel, def, props, NodeOf(op), st) == ByOp(u, fuel, base, op, st)
    decreases fuel, 2, op, 0, 0
  {
    hide RunNodes; hide RunOps; hide Root; hide Within; hide Made; hide Linked; hide RunBlock; hide RunNode; hide ByOp;
    match op
    case Counted(_, _, _, _, _, body) => CountedReads(u, fuel, def, props, base, dims, n, op, body, st);
    case ForVector(depth, body) => VectorReads(u, fuel, def, props, base, dims, n, depth, body, st);
    case ForArray(_, _, _, body) => ArrayReads(u, fuel, def, props, base, dims, n, op, body, st);
    case Consecutive(_, _, body) => ConsecutiveReads(u, fuel, def, props, base, dims, n, op, body, st);
    case Call(name, acc) => CallReads(u, fuel, def, props, base, dims, n, name, acc, st);
    case _ => SimpleReads(u, fuel, def, props, base, dims, n, op, st);
  }

  lemma OpsStep(u: Unit, fuel: nat, def: Def, props: seq<nat>, op: Op, rest: seq<Op>, st: State)
    ensures RunNodes(u, fuel, def, props, NodesOf([op] + rest), st) ==
            match RunNode(u, fuel, def, props, NodeOf(op), st)
            case None => None
            case Some(after) => RunNodes(u, fuel, def, props, NodesOf(rest), after)
  {
    hide RunNode; hide NodeOf;
    assert ([op] + rest)[1..] == rest;
    assert NodesOf([op] + rest)[1..] == NodesOf(rest);
  }

  lemma ReadStep(cx: Context, fuel: nat, op: Op, rest: seq<Op>, scope: Scope, v: Val, r: Reader)
    ensures ReadOps(cx, fuel, [op] + rest, scope, v, r) ==
            match ReadOp(cx, fuel, op, scope, v, r)
            case None => None
            case Some((v', r')) => ReadOps(cx, fuel, rest, scope, v', r')
  {
    hide ReadOp;
    assert ([op] + rest)[1..] == rest;
  }

  lemma NothingToRead(u: Unit, fuel: nat, def: Def, props: seq<nat>, base: Accessor, st: State)
    requires Holding(st, base)
    ensures RunNodes(u, fuel, def, props, NodesOf([]), st) == Some(st) == ByOps(u, fuel, base, [], st)
  {
  }

  lemma {:induction false} OpsRead(u: Unit, fuel: nat, def: Def, props: seq<nat>, base: Accessor, dims: seq<nat>,
                                   n: nat,
                                   ops: seq<Op>, st: State)
    requires Made(u) && u.mode == Read && Holding(st, base)
    requires Within(def, st, base, dims, n) && AllRooted(Read, base, dims, n, ops)
    ensures RunNodes(u, fuel, def, props, NodesOf(ops), st) == ByOps(u, fuel, base, ops, st)
    decreases fuel, 2, ops, 0, 0
  {
    hide RunNode; hide RunNodes; hide ReadOp; hide ReadOps; hide Root; hide Made; hide Linked; hide Rooted; hide NodeOf;
    hide NodesOf; hide Within; hide Filled;
    if ops == [] {
      NothingToRead(u, fuel, def, props, base, st);
    } else {
      var v, r := Content(st, base), st.stream.r;
      assert ops == [ops[0]] + ops[1..];
      OpReads(u, fuel, def, props, base, dims, n, ops[0], st);
      OpsStep(u, fuel, def, props, ops[0], ops[1..], st);
      ReadStep(Origins(u), fuel, ops[0], ops[1..], st.scope, v, r);
      ByOpIs(u, fuel, base, ops[0], st);
      match ReadOp(Origins(u), fuel, ops[0], st.scope, v, r)
      case None =>
      case Some((v', r')) =>
        FilledHolds(def, st, base, dims, n, v', r');
        OpsRead(u, fuel, def, props, base, dims, n, ops[1..], Filled(st, base, Some((v', r'))).value);
    }
  }

  lemma {:induction false} ConsecutiveReads(u: Unit, fuel: nat, def: Def, props: seq<nat>, base: Accessor,
                                            dims: seq<nat>,
                                            n: nat, op: Op, body: seq<Op>, st: State)
    requires Made(u) && u.mode == Read && Holding(st, base) && op.Consecutive? && body == op.body
    requires Within(def, st, base, dims, n) && AllRooted(Read, base, dims, n, body)
    ensures RunNode(u, fuel, def, props, NodeOf(op), st) == ByOp(u, fuel, base, op, st)
    decreases fuel, 2, body, 2, 0
  {
    hide RunNodes; hide ReadOps; hide RunBlock; hide NodesOf; hide RunNode; hide Within; hide Made; hide AllRooted;
    hide Linked; hide Filled;
    OpsRead(u, fuel, def, props, base, dims, n, body, st);
    PlainBlock(u, fuel, def, props, ConsecutiveOf(op.isArray, op.primitive), NodesOf(body), st);
    BlockReads(u, fuel, def, props, ConsecutiveOf(op.isArray, op.primitive), NodesOf(body), base, st,
               ReadOps(Origins(u), fuel, body, st.scope, Content(st, base), st.stream.r));
  }

  lemma {:induction false} CountedReads(u: Unit, fuel: nat, def: Def, props: seq<nat>, base: Accessor, dims: seq<nat>,
                                        n: nat, op: Op, body: seq<Op>, st: State)
    requires Made(u) && u.mode == Read && Holding(st, base) && op.Counted? && body == op.body
    requires op.resize.Some? && op.len == SizeOf(op.acc)
    requires Within(def, st, base, dims, n) && Starts(op.acc, base, n) && AllRooted(Read, base, dims, n, body)
    ensures RunNode(u, fuel, def, props, NodeOf(op), st) == ByOp(u, fuel, base, op, st)
    decreases fuel, 2, body, 2, 0
  {
    hide *;
    StreamIs(st, base);
    var v := Content(st, base);
    var got := ReadLength(Origins(u), fuel, op.check, op.resize.value, op.acc, st.scope, v, st.stream.r);
    CountedNode(u, fuel, def, props, op, st);
    LengthReads(u, fuel, def, props, base, dims, n, op.depth, op.check, op.resize.value, op.acc, st);
    CountedOp(Origins(u), fuel, op, st.scope, v, st.stream.r);
    ByOpIs(u, fuel, base, op, st);
    match got
    case None =>
    case Some((m, v', r)) =>
      var inner := st.(scope := WithLength(st.scope, op.depth, m));
      var rest := ReadOps(Origins(u), fuel, body, inner.scope, v', r);
      FilledInner(st, inner, base, rest);
      StaysWithin(def, st, inner, base, dims, n);
      FilledHolds(def, inner, base, dims, n, v', r);
      var after := Filled(inner, base, Some((v', r))).value;
      OpsRead(u, fuel, def, props, base, dims, n, body, after);
      ByOpsIs(u, fuel, base, body, after);
  }

  lemma StaysWithin(def: Def, st: State, inner: State, base: Accessor, dims: seq<nat>, n: nat)
    requires Within(def, st, base, dims, n) && inner == st.(scope := inner.scope)
    ensures Within(def, inner, base, dims, n)
  {
  }

  lemma {:induction false} VectorReads(u: Unit, fuel: nat, def: Def, props: seq<nat>, base: Accessor, dims: seq<nat>,
                                       n: nat, depth: nat, body: seq<Op>, st: State)
    requires Made(u) && u.mode == Read && Holding(st, base)
    requires Within(def, st, base, dims, n) && AllRooted(Read, base, dims, n, body)
    ensures RunNode(u, fuel, def, props, NodeOf(ForVector(depth, body)), st) ==
            ByOp(u, fuel, base, ForVector(depth, body), st)
    decreases fuel, 2, body, 2, 0
  {
    hide RunNode; hide RunLoop; hide ReadFor; hide Made; hide Linked; hide Within; hide NodesOf; hide AllRooted;
    hide Filled;
    ByOpIs(u, fuel, base, ForVector(depth, body), st);
    if depth in st.scope.length {
      LoopReads(u, fuel, def, props, base, dims, n, OverIndex(depth), body, 0, st.scope.length[depth], st);
    }
    BlockReads(u, fuel, def, props, VectorLoop(depth), NodesOf(body), base, st,
               ReadOp(Origins(u), fuel, ForVector(depth, body), st.scope, Content(st, base), st.stream.r));
  }

  lemma ArrayOp(cx: Context, fuel: nat, op: Op, scope: Scope, v: Val, r: Reader)
    requires op.ForArray? && !op.acc.Element?
    ensures !Fetch(Live(v), op.acc, scope).Nowhere?
    ensures ReadOp(cx, fuel, op, scope, v, r) ==
            if Eval(op.acc, scope).None? then None
            else ReadFor(cx, fuel, OverArray(op.depth, Eval(op.acc, scope).value), op.body, 0, op.dim, scope, v, r)
  {
    hide Eval; hide ReadFor; hide Get;
  }

  lemma {:induction false} ArrayReads(u: Unit, fuel: nat, def: Def, props: seq<nat>, base: Accessor, dims: seq<nat>,
                                      n: nat,
                                      op: Op, body: seq<Op>, st: State)
    requires Made(u) && u.mode == Read && Holding(st, base) && op.ForArray? && body == op.body && !op.acc.Element?
    requires Within(def, st, base, dims, n)
    requires Starts(op.acc, base, n) && op.depth == n + 1 <= |dims| && op.dim == dims[n]
    requires AllRooted(Read, base, dims, n + 1, body)
    ensures RunNode(u, fuel, def, props, NodeOf(op), st) == ByOp(u, fuel, base, op, st)
    decreases fuel, 2, body, 2, 0
  {
    hide *;
    StreamIs(st, base);
    var v, inner := Content(st, base), st.(origins := st.origins[op.depth := base]);
    ArrayNode(u, fuel, def, props, base, dims, n, op, st);
    BaseIsLive(u, fuel, def, base, dims, n, st);
    ArrayOp(Origins(u), fuel, op, st.scope, v, st.stream.r);
    ByOpIs(u, fuel, base, op, st);
    if Eval(op.acc, st.scope).Some? {
      var loop := OverArray(op.depth, Eval(op.acc, st.scope).value);
      var r := ReadFor(Origins(u), fuel, loop, body, 0, op.dim, st.scope, v, st.stream.r);
      Deeper(u, fuel, def, st, base, dims, n);
      FilledInner(st, inner, base, r);
      LoopReads(u, fuel, def, props, base, dims, n + 1, loop, body, 0, op.dim, inner);
      ByForIs(u, fuel, base, loop, body, 0, op.dim, inner);
    }
  }

  lemma BaseIsLive(u: Unit, fuel: nat, def: Def, base: Accessor, dims: seq<nat>, n: nat, st: State)
    requires Holding(st, base) && Within(def, st, base, dims, n)
    ensures Root(u, fuel, def, st, base) == Live(Content(st, base))
  {
    hide Copied;
  }

  lemma LoopStep(u: Unit, fuel: nat, def: Def, props: seq<nat>, loop: Loop, body: seq<Node>, j: nat, m: nat, st: State)
    ensures RunLoop(u, fuel, def, props, loop, body, j, m, st) ==
            if j >= m then Some(st)
            else match RunNodes(u, fuel, def, props, body, st.(scope := Bind(st.scope, loop, j)))
              case None => None
              case Some(after) => RunLoop(u, fuel, def, props, loop, body, j + 1, m, Leave(st, after))
  {
    hide RunNodes;
  }

  lemma ForStep(cx: Context, fuel: nat, loop: Loop, body: seq<Op>, j: nat, m: nat, scope: Scope, v: Val, r: Reader)
    ensures ReadFor(cx, fuel, loop, body, j, m, scope, v, r) ==
            if j >= m then Some((v, r))
            else match ReadOps(cx, fuel, body, Bind(scope, loop, j), v, r)
              case None => None
              case Some((v', r')) => ReadFor(cx, fuel, loop, body, j + 1, m, scope, v', r')
  {
    hide ReadOps;
  }

  lemma FilledSame(st: State, base: Accessor)
    requires Holding(st, base)
    ensures Filled(st, base, Some((Content(st, base), st.stream.r))) == Some(st)
  {
  }

  lemma {:induction false} LoopReads(u: Unit, fuel: nat, def: Def, props: seq<nat>, base: Accessor, dims: seq<nat>,
                                     n: nat,
                                     loop: Loop, body: seq<Op>, j: nat, m: nat, st: State)
    requires Made(u) && u.mode == Read && Holding(st, base)
    requires Within(def, st, base, dims, n) && AllRooted(Read, base, dims, n, body)
    ensures RunLoop(u, fuel, def, props, loop, NodesOf(body), j, m, st) == ByFor(u, fuel, base, loop, body, j, m, st)
    decreases fuel, 2, body, 1, if j < m then m - j else 0
  {
    hide *;
    StreamIs(st, base);
    var v, inner := Content(st, base), st.(scope := Bind(st.scope, loop, j));
    LoopStep(u, fuel, def, props, loop, NodesOf(body), j, m, st);
    ForStep(Origins(u), fuel, loop, body, j, m, st.scope, v, st.stream.r);
    ByForIs(u, fuel, base, loop, body, j, m, st);
    FilledSame(st, base);
    if j < m {
      var r := ReadOps(Origins(u), fuel, body, inner.scope, v, st.stream.r);
      FilledInner(st, inner, base, r);
      StaysWithin(def, st, inner, base, dims, n);
      OpsRead(u, fuel, def, props, base, dims, n, body, inner);
      ByOpsIs(u, fuel, base, body, inner);
      match r
      case None =>
      case Some((v', r')) =>
        FilledHolds(def, st, base, dims, n, v', r');
        var after := Filled(st, base, r).value;
        LoopReads(u, fuel, def, props, base, dims, n, loop, body, j + 1, m, after);
        ByForIs(u, fuel, base, loop, body, j + 1, m, after);
    }
  }

  lemma CallNode(u: Unit, fuel: nat, def: Def, props: seq<nat>, base: Accessor, dims: seq<nat>, n: nat, name: Name,
                 acc: Accessor, st: State)
    requires Holding(st, base) && Within(def, st, base, dims, n) && Starts(acc, base, n)
    ensures RunNode(u, fuel, def, props, NodeOf(Call(name, acc)), st) ==
            if fuel == 0 || name !in u.code || name !in u.env || IsBit(u.env, acc, name) || Eval(acc, st.scope).None?
            then None
            else
              var p := Eval(acc, st.scope).value;
              match Get(Content(st, base), p)
              case None => None
              case Some(part) =>
                match RunText(u, fuel - 1, u.env[name], u.code[name], Live(part), st.stream)
                case Some((Live(part'), stream)) =>
                  Some(Store(st.(stream := stream), acc, Put(Content(st, base), p, part')))
                case _ => None
  {
    hide RunText; hide Eval; hide Root; hide IsBit; hide Get; hide Put; hide Store; hide Within; hide Origin;
    RootHolds(u, fuel, def, st, acc, base, dims, n);
    assert RunNode(u, fuel, def, props, NodeOf(Call(name, acc)), st) ==
           RunLine(u, fuel, def, Stmt(Call(name, acc)), st);
    assert RunLine(u, fuel, def, Stmt(Call(name, acc)), st) == DoCall(u, fuel, def, name, acc, st);
  }

  lemma CallOp(cx: Context, fuel: nat, name: Name, acc: Accessor, scope: Scope, v: Val, r: Reader)
    ensures ReadOp(cx, fuel, Call(name, acc), scope, v, r) ==
            if fuel == 0 || name !in cx.code || IsBit(cx.env, acc, name) || Eval(acc, scope).None? then None
            else
              var p := Eval(acc, scope).value;
              match Get(v, p)
              case None => None
              case Some(part) =>
                match ReadProg(cx, fuel - 1, cx.code[name], part, r)
                case None => None
                case Some((part', r')) => Some((Put(v, p, part'), r'))
  {
    hide Eval; hide IsBit; hide ReadProg; hide Get; hide Put;
  }

  lemma FinishedIs(r: Option<(Val, Reader)>)
    ensures Finished(r) == match r case None => None case Some((v, r')) => Some((Live(v), In(r')))
  {
  }

  lemma {:induction false} CallReads(u: Unit, fuel: nat, def: Def, props: seq<nat>, base: Accessor, dims: seq<nat>,
                                     n: nat,
                                     name: Name, acc: Accessor, st: State)
    requires Made(u) && u.mode == Read && Holding(st, base)
    requires Within(def, st, base, dims, n) && Starts(acc, base, n)
    ensures RunNode(u, fuel, def, props, NodeOf(Call(name, acc)), st) == ByOp(u, fuel, base, Call(name, acc), st)
    decreases fuel, 1
  {
    hide *;
    StreamIs(st, base);
    var v, r := Content(st, base), st.stream.r;
    RootHolds(u, fuel, def, st, acc, base, dims, n);
    CallNode(u, fuel, def, props, base, dims, n, name, acc, st);
    CallOp(Origins(u), fuel, name, acc, st.scope, v, r);
    ByOpIs(u, fuel, base, Call(name, acc), st);
    CodeOf(u, name);
    if fuel > 0 && name in u.env && Eval(acc, st.scope).Some? && Get(v, Eval(acc, st.scope).value).Some? {
      var part := Get(v, Eval(acc, st.scope).value).value;
      FunctionReads(u, fuel - 1, u.env[name], part, r);
      FinishedIs(ReadProg(Origins(u), fuel - 1, ProgOf(u.env, u.mode, u.env[name]), part, r));
    }
  }

  // ----- functions -----

  lemma {:induction false} FunctionReads(u: Unit, fuel: nat, def: Def, v: Val, r: Reader)
    requires Made(u) && u.mode == Read && WellFormedDef(def)
    ensures RunText(u, fuel, def, EmittedFor(u.env, u.mode, def), Live(v), In(r)) ==
            Finished(ReadProg(Origins(u), fuel, ProgOf(u.env, u.mode, def), v, r))
    decreases fuel, 5
  {
    hide *;
    match def
    case Struct(_, _) => StructReads(u, fuel, def, v, r);
    case Union(_, _, _, _) => UnionReads(u, fuel, def, v, r);
    case Typedef(_, _, _) => TypedefReads(u, fuel, def, v, r);
  }

  lemma {:induction false} TypedefReads(u: Unit, fuel: nat, def: Def, v: Val, r: Reader)
    requires Made(u) && u.mode == Read && def.Typedef?
    ensures RunText(u, fuel, def, EmittedFor(u.env, u.mode, def), Live(v), In(r)) ==
            Finished(ReadProg(Origins(u), fuel, ProgOf(u.env, u.mode, def), v, r))
    decreases fuel, 4
  {
    hide RunNodes; hide RunText; hide ReadOps; hide NodesOf; hide EntityOps; hide Made; hide Linked; hide AllRooted;
    hide Fields; hide ProgText;
    var st, ops := Start(Live(v), In(r)), EntityOps(u.env, u.mode, def.dims, def.ty, Instance);
    TextIs(u, fuel, def, Live(v), In(r));
    EntityRooted(u.env, u.mode, def.dims, def.ty, Instance);
    OpsRead(u, fuel, def, Ids(Fields(def)), Instance, def.dims, 0, ops, st);
  }

  // ----- structs -----

  /** The case of a member. */
  lemma {:induction false} MemberReads(u: Unit, fuel: nat, def: Def, props: seq<nat>, k: nat, st: State)
    requires Made(u) && u.mode == Read && Holding(st, Instance) && st.scope == EMPTY_SCOPE
    requires def.Struct? && WellFormedDef(def) && k < |Fields(def)|
    ensures var e := Entries(u.env, Read, Fields(def))[k];
            RunNodes(u, fuel, def, props, EntryNode(Read, e).body, st) ==
            Filled(st, Instance, ReadOps(Origins(u), fuel, e.body, EMPTY_SCOPE, st.self.v, st.stream.r))
    decreases fuel, 3, 0
  {
    hide RunNode; hide RunBlock; hide RunNodes; hide ReadOps; hide EntityOps; hide NodesOf; hide Copied; hide Made;
    hide Linked; hide AllRooted; hide Fields;
    var f := Fields(def)[k];
    var acc := Programs.Accessor.Member(f.decl.slot);
    var e := EntryOf(u.env, Read, f);
    EntityRooted(u.env, Read, f.decl.dims, f.ty, acc);
    OpsRead(u, fuel, def, props, acc, f.decl.dims, 0, e.body, st);
    RunOne(u, fuel, def, props, Block(MemberOf, NodesOf(e.body)), st);
    PlainBlock(u, fuel, def, props, MemberOf, NodesOf(e.body), st);
    BlockReads(u, fuel, def, props, MemberOf, NodesOf(e.body), Instance, st,
               ReadOps(Origins(u), fuel, e.body, EMPTY_SCOPE, st.self.v, st.stream.r));
  }

  lemma EntitiesStep(cx: Context, fuel: nat, id: nat, rest: seq<nat>, es: seq<Entry>, v: Val, r: Reader)
    ensures ReadEntities(cx, fuel, [id] + rest, es, v, r) ==
            match EntryFor(es, id)
            case None => ReadEntities(cx, fuel, rest, es, v, r)
            case Some(k) =>
              match ReadOps(cx, fuel, es[k].body, EMPTY_SCOPE, v, r)
              case None => None
              case Some((v', r')) => ReadEntities(cx, fuel, rest, es, v', r')
  {
    hide ReadOps; hide EntryFor;
    assert ([id] + rest)[1..] == rest;
  }

  lemma EachStep(u: Unit, fuel: nat, def: Def, props: seq<nat>, body: seq<Node>, id: nat, rest: seq<nat>, st: State)
    ensures RunEach(u, fuel, def, props, body, [id] + rest, st) ==
            match RunNodes(u, fuel, def, props, body, st.(prop := Some(id)))
            case None => None
            case Some(after) => RunEach(u, fuel, def, props, body, rest, Leave(st, after))
  {
    hide RunNodes;
    assert ([id] + rest)[1..] == rest;
  }

  lemma NoneLeft(u: Unit, fuel: nat, def: Def, props: seq<nat>, body: seq<Node>, es: seq<Entry>, st: State)
    requires Holding(st, Instance)
    ensures RunEach(u, fuel, def, props, body, [], st) == Some(st)
    ensures Filled(st, Instance, ReadEntities(Origins(u), fuel, [], es, st.self.v, st.stream.r)) == Some(st)
  {
  }

  lemma PropOnly(st: State, id: nat, r: Option<(Val, Reader)>)
    requires Holding(st, Instance)
    ensures var at := st.(prop := Some(id));
            Holding(at, Instance) && Leave(st, at) == st &&
            match r
            case None => Filled(at, Instance, r) == None && Filled(st, Instance, r) == None
            case Some((v, r')) =>
              Filled(at, Instance, r).Some? &&
              Leave(st, Leave(at, Filled(at, Instance, r).value)) == st.(self := Live(v), stream := In(r')) &&
              forall x :: Filled(st.(self := Live(v), stream := In(r')), Instance, x) == Filled(st, Instance, x)
  {
  }

  /** The switch over the member ids, once for every id in the table. */
  lemma {:induction false} EachReads(u: Unit, fuel: nat, def: Def, props: seq<nat>, ids: seq<nat>, st: State)
    requires Made(u) && u.mode == Read && Holding(st, Instance) && st.scope == EMPTY_SCOPE
    requires def.Struct? && WellFormedDef(def)
    ensures var es := Entries(u.env, Read, Fields(def));
            RunEach(u, fuel, def, props, [Block(IdSwitch, EntryNodes(Read, es))], ids, st) ==
            Filled(st, Instance, ReadEntities(Origins(u), fuel, ids, es, st.self.v, st.stream.r))
    decreases fuel, 3, 1 + |ids|
  {
    hide RunNodes; hide ReadOps; hide ReadEntities; hide RunEach; hide Made; hide Linked; hide EntryNodes; hide Entries;
    hide Fields; hide FirstId; hide EntryNode; hide WellFormedDef; hide EntryFor; hide Filled; hide Leave;
    var es := Entries(u.env, Read, Fields(def));
    var body := [Block(IdSwitch, EntryNodes(Read, es))];
    if ids == [] {
      NoneLeft(u, fuel, def, props, body, es, st);
    } else {
      var at := st.(prop := Some(ids[0]));
      assert ids == [ids[0]] + ids[1..];
      EachStep(u, fuel, def, props, body, ids[0], ids[1..], st);
      EntitiesStep(Origins(u), fuel, ids[0], ids[1..], es, st.self.v, st.stream.r);
      IdNode(u, fuel, def, props, EntryNodes(Read, es), at);
      FirstIdIs(Read, es, ids[0]);
      match EntryFor(es, ids[0])
      case None =>
        PropOnly(st, ids[0], None);
        EachReads(u, fuel, def, props, ids[1..], st);
      case Some(k) =>
        MemberReads(u, fuel, def, props, k, at);
        var r := ReadOps(Origins(u), fuel, es[k].body, EMPTY_SCOPE, st.self.v, st.stream.r);
        PropOnly(st, ids[0], r);
        match r
        case None =>
        case Some((v', r')) => EachReads(u, fuel, def, props, ids[1..], st.(self := Live(v'), stream := In(r')));
    }
  }

  lemma {:induction false} StructReads(u: Unit, fuel: nat, def: Def, v: Val, r: Reader)
    requires Made(u) && u.mode == Read && def.Struct? && WellFormedDef(def)
    ensures RunText(u, fuel, def, EmittedFor(u.env, u.mode, def), Live(v), In(r)) ==
            Finished(ReadProg(Origins(u), fuel, ProgOf(u.env, u.mode, def), v, r))
    decreases fuel, 4
  {
    hide RunText; hide RunNodes; hide RunEach; hide ReadEntities; hide Made; hide Linked; hide EntryNodes; hide Entries;
    hide Fields; hide WellFormedDef; hide RunNode; hide ProgText;
    var st, props := Start(Live(v), In(r)), Ids(Fields(def));
    var es := Entries(u.env, Read, Fields(def));
    var loop := [Block(IdSwitch, EntryNodes(Read, es))];
    var got := ReadEntities(Origins(u), fuel, props, es, v, r);
    TextIs(u, fuel, def, Live(v), In(r));
    EachReads(u, fuel, def, props, props, st);
    BlockReads(u, fuel, def, props, EntityLoop, loop, Instance, st, got);
    RunOne(u, fuel, def, props, Block(EntityLoop, loop), st);
    PlainBlock(u, fuel, def, props, Bracket.Struct, [Block(EntityLoop, loop)], st);
    BlockReads(u, fuel, def, props, Bracket.Struct, [Block(EntityLoop, loop)], Instance, st, got);
    RunOne(u, fuel, def, props, Block(Bracket.Struct, [Block(EntityLoop, loop)]), st);
  }

  // ----- unions -----

  /** A union with its discriminator read. */
  function Begun(v: Val, d: nat, r: Reader): State {
    Start(Live(v), In(r)).(d := Some(d))
  }

  lemma DiscriminatorReads(u: Unit, fuel: nat, def: Def, props: seq<nat>, disc: NumType, v: Val, r: Reader)
    ensures RunNodes(u, fuel, def, props, Lines(DiscriminatorText(Read, disc)), Start(Live(v), In(r))) ==
            if !v.VUnion? then None
            else match TakeNum(Origins(u), r, disc)
              case None => None
              case Some((d, r')) => Some(Begun(v, d, r'))
  {
    hide RunNodes; hide Lines; hide TakeNum; hide Linked; hide DoLength; hide DoSimple; hide DoCall;
    var st := Start(Live(v), In(r));
    assert DiscriminatorText(Read, disc) == [DeclareDiscriminator] + ([StreamDiscriminator(disc)] + []);
    LineRuns(u, fuel, def, props, DeclareDiscriminator, [StreamDiscriminator(disc)] + [], st);
    if v.VUnion? {
      LineRuns(u, fuel, def, props, StreamDiscriminator(disc), [], st.(d := Some(v.d)));
      SameNumber(Plain(u), Origins(u), r, disc);
      match TakeNum(Plain(u), r, disc)
      case None =>
      case Some((d, r')) => NoLines(u, fuel, def, props, Begun(v, d, r'));
    }
  }

  lemma GuardedReads(u: Unit, fuel: nat, def: Def, props: seq<nat>, keyed: bool, body: seq<Node>, base: Accessor,
                     st: State,
                     r: Option<(Val, Reader)>)
    requires !u.key && Holding(st, base) && RunNodes(u, fuel, def, props, body, st) == Filled(st, base, r)
    ensures RunNodes(u, fuel, def, props, GuardNodes(keyed, body), st) == Filled(st, base, r)
  {
    hide RunNodes; hide RunBlock; hide RunNode; hide Filled;
    if keyed {
      PlainBlock(u, fuel, def, props, NotKey, body, st);
      BlockReads(u, fuel, def, props, NotKey, body, base, st, r);
      RunOne(u, fuel, def, props, Block(NotKey, body), st);
    }
  }

  /** A new object for the branch, as its code finds it. */
  function Fresh(u: Unit, fuel: nat, def: Def, i: nat, st: State): State
    requires def.Union? && i < |def.cases|
  {
    st.(obj := Some((i, DefaultArray(u.env, fuel, def.cases[i].dims, def.cases[i].ty))))
  }

  /** The code for the branch itself. */
  lemma {:induction false} InnerReads(u: Unit, fuel: nat, def: Def, props: seq<nat>, i: nat, st: State)
    requires Made(u) && u.mode == Read && Holding(st, Instance) && st.scope == EMPTY_SCOPE
    requires def.Union? && i < |def.cases|
    ensures var b := Branchings(u.env, Read, def.cases)[i];
            var at := Fresh(u, fuel, def, i, st);
            RunNodes(u, fuel, def, props, GuardNodes(b.keyed, NodesOf(b.body)), at) ==
            Filled(at, Obj, ReadOps(Origins(u), fuel, b.body, EMPTY_SCOPE, at.obj.value.1, st.stream.r))
    decreases fuel, 3, 0
  {
    hide RunNodes; hide ReadOps; hide EntityOps; hide NodesOf; hide Linked; hide AllRooted; hide GuardNodes;
    hide DefaultArray; hide Filled;
    var c, at := def.cases[i], Fresh(u, fuel, def, i, st);
    var b := BranchingOf(u.env, Read, c, i);
    EntityRooted(u.env, Read, c.dims, c.ty, Obj);
    OpsRead(u, fuel, def, props, Obj, c.dims, 0, b.body, at);
    GuardedReads(u, fuel, def, props, b.keyed, NodesOf(b.body), Obj, at,
                 ReadOps(Origins(u), fuel, b.body, EMPTY_SCOPE, at.obj.value.1, st.stream.r));
  }

  /** The setter of the branch, as the read code calls it. */
  function SetTo(shape: Shape, single: bool, i: nat, d: nat, x: Val, r: Reader): Option<(Val, Reader)>
    requires Labelled(shape) && i < |shape.arms|
  {
    var value := shape.arms[i][0].value;
    var chosen := if single then value else d;
    if Compatible(shape, value, chosen) then Some((VUnion(chosen, Some(x)), r)) else None
  }

  lemma OneLine(u: Unit, fuel: nat, def: Def, props: seq<nat>, t: Token, st: State)
    ensures RunNodes(u, fuel, def, props, Lines([t]), st) == RunLine(u, fuel, def, t, st)
  {
    hide RunNodes; hide RunLine; hide Lines;
    assert [t] == [t] + [];
    LineRuns(u, fuel, def, props, t, [], st);
    match RunLine(u, fuel, def, t, st)
    case None =>
    case Some(after) => NoLines(u, fuel, def, props, after);
  }

  lemma SetterReads(u: Unit, fuel: nat, def: Def, i: nat, single: bool, st: State, x: Val)
    requires def.Union? && i < |def.cases| && Labelled(ShapeOf(def)) && st.d.Some? && st.obj == Some((i, x)) &&
             st.stream.In?
    ensures RunLine(u, fuel, def, SetBranch(i, single), st) ==
            match SetTo(ShapeOf(def), single, i, st.d.value, x, st.stream.r)
            case None => None
            case Some((v, _)) => Some(st.(self := Live(v)))
  {
    hide Compatible; hide ShapeOf; hide Labelled;
  }

  lemma ReadCaseNode(b: Branching, i: nat)
    ensures CaseNode(Read, b, i) == Block(CaseBlock, Lines([DeclareObj(i)]) + GuardNodes(b.keyed, NodesOf(b.body))
                                                     + Lines([SetBranch(i, b.single)]))
  {
  }

  lemma DeclareReadsObj(u: Unit, fuel: nat, def: Def, i: nat, st: State)
    requires def.Union? && i < |def.cases|
    ensures RunLine(u, fuel, def, DeclareObj(i), st) == Some(Fresh(u, fuel, def, i, st))
  {
    hide DefaultArray;
  }

  lemma ObjFilled(u: Unit, fuel: nat, def: Def, i: nat, st: State, r: Option<(Val, Reader)>)
    requires def.Union? && i < |def.cases| && Holding(st, Instance) && st.obj.None?
    ensures match r
            case None => Filled(Fresh(u, fuel, def, i, st), Obj, r) == None
            case Some((x, r')) =>
              Filled(Fresh(u, fuel, def, i, st), Obj, r) == Some(st.(obj := Some((i, x)), stream := In(r'))) &&
              forall v :: Leave(st, st.(obj := Some((i, x)), stream := In(r'), self := v)) ==
                st.(stream := In(r'), self := v)
  {
    hide DefaultArray;
  }

  lemma FilledIs(st: State, r: Option<(Val, Reader)>)
    ensures Filled(st, Instance, r) ==
            match r case None => None case Some((v, r')) => Some(st.(self := Live(v), stream := In(r')))
  {
  }

  /** The block of a branch when it is read. */
  lemma {:induction false} CaseReads(u: Unit, fuel: nat, def: Def, props: seq<nat>, i: nat, st: State)
    requires Made(u) && u.mode == Read && Holding(st, Instance) && st.scope == EMPTY_SCOPE
    requires def.Union? && i < |def.cases| && Labelled(ShapeOf(def)) && st.d.Some? && st.obj.None?
    ensures var b := Branchings(u.env, Read, def.cases)[i];
            RunNode(u, fuel, def, props, CaseNode(Read, b, i), st) ==
            match ReadOps(Origins(u), fuel, b.body, EMPTY_SCOPE,
                          DefaultArray(u.env, fuel, def.cases[i].dims, def.cases[i].ty), st.stream.r)
            case None => None
            case Some((x, r)) => Filled(st, Instance, SetTo(ShapeOf(def), b.single, i, st.d.value, x, r))
    decreases fuel, 3, 1
  {
    hide *;
    StreamIs(st, Instance);
    FreshIs(u, fuel, def, i, st);
    var b, at := Branchings(u.env, Read, def.cases)[i], Fresh(u, fuel, def, i, st);
    ReadCaseNode(b, i);
    ThreeParts(u, fuel, def, props, CaseBlock, Lines([DeclareObj(i)]), GuardNodes(b.keyed, NodesOf(b.body)),
               Lines([SetBranch(i, b.single)]), st);
    OneLine(u, fuel, def, props, DeclareObj(i), st);
    DeclareReadsObj(u, fuel, def, i, st);
    InnerReads(u, fuel, def, props, i, st);
    var r := ReadOps(Origins(u), fuel, b.body, EMPTY_SCOPE, at.obj.value.1, st.stream.r);
    ObjFilled(u, fuel, def, i, st, r);
    match r
    case None =>
    case Some((x, r')) =>
      var made := st.(obj := Some((i, x)), stream := In(r'));
      OneLine(u, fuel, def, props, SetBranch(i, b.single), made);
      SetterReads(u, fuel, def, i, b.single, made, x);
      SetToIs(ShapeOf(def), b.single, i, st.d.value, x, r');
      FilledIs(st, SetTo(ShapeOf(def), b.single, i, st.d.value, x, r'));
  }

  lemma FreshIs(u: Unit, fuel: nat, def: Def, i: nat, st: State)
    requires def.Union? && i < |def.cases|
    ensures |ShapeOf(def).arms| == |def.cases|
    ensures Fresh(u, fuel, def, i, st).obj == Some((i, DefaultArray(u.env, fuel, def.cases[i].dims, def.cases[i].ty)))
  {
    hide DefaultArray;
  }

  lemma SetToIs(shape: Shape, single: bool, i: nat, d: nat, x: Val, r: Reader)
    requires Labelled(shape) && i < |shape.arms|
    ensures match SetTo(shape, single, i, d, x, r) case None => true case Some((_, r')) => r' == r
  {
    hide Compatible;
  }

  /** What is left to do when the discriminator is read. */
  function Rest(u: Unit, fuel: nat, def: Def, d: nat, v: Val, r: Reader): Option<(Val, Reader)>
    requires def.Union? && Labelled(ShapeOf(def)) && v.VUnion?
  {
    var bs, shape := Branchings(u.env, Read, def.cases), ShapeOf(def);
    match ArmOf(shape, d)
    case Some(i) =>
      (match ReadOps(Origins(u), fuel, bs[i].body, EMPTY_SCOPE,
                     DefaultArray(u.env, fuel, def.cases[i].dims, def.cases[i].ty), r)
       case None => None
       case Some((x, r')) => SetTo(shape, bs[i].single, i, d, x, r'))
    case None =>
      if !def.implicit then Some((v, r))
      else if Compatible(shape, v.d, d) then Some((VUnion(d, None), r)) else None
  }

  lemma UnionProgIs(u: Unit, fuel: nat, def: Def, v: Val, r: Reader)
    requires def.Union? && Labelled(ShapeOf(def)) && u.mode == Read
    ensures ReadProg(Origins(u), fuel, ProgOf(u.env, u.mode, def), v, r) ==
            if !v.VUnion? then None
            else match TakeNum(Origins(u), r, def.disc)
              case None => None
              case Some((d, r')) => Rest(u, fuel, def, d, v, r')
  {
    hide ReadOps; hide TakeNum; hide ArmOf; hide Compatible; hide DefaultArray; hide Linked; hide EntityOps;
    hide Labelled;
  }

  lemma SetDiscriminatorReads(def: Def, st: State)
    requires def.Union? && Labelled(ShapeOf(def)) && st.d.Some? && Holding(st, Instance) && st.self.v.VUnion?
    ensures DoSetDiscriminator(def, st) ==
            Filled(st, Instance, if Compatible(ShapeOf(def), st.self.v.d, st.d.value)
                                 then Some((VUnion(st.d.value, None), st.stream.r)) else None)
  {
    hide Compatible; hide ShapeOf; hide Labelled;
  }

  lemma {:induction false} RestReads(u: Unit, fuel: nat, def: Def, props: seq<nat>, d: nat, v: Val, r: Reader)
    requires Made(u) && u.mode == Read && def.Union? && Labelled(ShapeOf(def)) && v.VUnion?
    ensures RunNodes(u, fuel, def, props,
                     SwitchNodes(Read, Branchings(u.env, Read, def.cases), def.implicit) + Lines([]), Begun(v, d, r)) ==
            Filled(Begun(v, d, r), Instance, Rest(u, fuel, def, d, v, r))
    decreases fuel, 3, 2
  {
    hide RunNode; hide RunNodes; hide ReadOps; hide RunBlock; hide Made; hide Linked; hide CaseNode; hide BranchesNodes;
    hide ArmOf; hide EntityOps; hide DefaultText; hide NodesOf; hide Compatible; hide DefaultArray;
    hide DoSetDiscriminator;
    hide Labelled;
    var st, bs := Begun(v, d, r), Branchings(u.env, Read, def.cases);
    var cases := BranchesNodes(Read, bs, 0) + Lines(DefaultText(Read, def.implicit));
    SwitchRuns(u, fuel, def, props, Read, bs, ShapeOf(def), st);
    SetDiscriminatorReads(def, st);
    if ArmOf(ShapeOf(def), d).Some? { CaseReads(u, fuel, def, props, ArmOf(ShapeOf(def), d).value, st); }
    BlockReads(u, fuel, def, props, Bracket.Switch, cases, Instance, st, Rest(u, fuel, def, d, v, r));
    RunOne(u, fuel, def, props, Block(Bracket.Switch, cases), st);
    assert SwitchNodes(Read, bs, def.implicit) + Lines([]) == [Block(Bracket.Switch, cases)];
  }

  lemma ArmsLabelled(def: Def)
    requires def.Union? && WellFormedDef(def)
    ensures Labelled(ShapeOf(def))
  {
    hide ShapeOf;
  }

  lemma EndReads(v: Val, d: nat, r: Reader, x: Option<(Val, Reader)>)
    ensures Finished(None) == None
    ensures match Filled(Begun(v, d, r), Instance, x)
            case None => x == None
            case Some(end) => Finished(x) == Some((end.self, end.stream))
  {
  }

  lemma {:induction false} UnionReads(u: Unit, fuel: nat, def: Def, v: Val, r: Reader)
    requires Made(u) && u.mode == Read && def.Union? && WellFormedDef(def)
    ensures RunText(u, fuel, def, EmittedFor(u.env, u.mode, def), Live(v), In(r)) ==
            Finished(ReadProg(Origins(u), fuel, ProgOf(u.env, u.mode, def), v, r))
    decreases fuel, 4
  {
    hide *;
    var st, props := Start(Live(v), In(r)), Ids(Fields(def));
    var switch := SwitchNodes(Read, Branchings(u.env, Read, def.cases), def.implicit) + Lines([]);
    var body := Lines(DiscriminatorText(Read, def.disc)) + switch;
    ArmsLabelled(def);
    TextIs(u, fuel, def, Live(v), In(r));
    UnionBody(u.env, Read, def);
    UnionProgIs(u, fuel, def, v, r);
    RunOne(u, fuel, def, props, Block(Bracket.Struct, body), st);
    StructBlock(u, fuel, def, props, body, st);
    RunNodesAppend(u, fuel, def, props, Lines(DiscriminatorText(Read, def.disc)), switch, st);
    DiscriminatorReads(u, fuel, def, props, def.disc, v, r);
    EndReads(v, 0, r, None);
    if v.VUnion? {
      match TakeNum(Origins(u), r, def.disc)
      case None =>
      case Some((d, r')) =>
        RestReads(u, fuel, def, props, d, v, r');
        EndReads(v, d, r', Rest(u, fuel, def, d, v, r'));
    }
  }
}
