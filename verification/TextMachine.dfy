/**
  What emitted text does, line by line: blocks are loops, conditions and scopes, and lines change the
  local variables, the object and the stream. It knows the text and the class the function is for,
  but not from which program the text was made. A line that C++ would not compile
  goes no further.
 */
module TextMachine {
  import opened Wrappers
  import opened Wire
  import opened Unions
  import opened Idl
  import opened Programs
  import opened Emitter
  import opened Objects
  import opened Machine
  import opened TextNodes

  /** A function of one stream, with the member ids that the table of its class lists. */
  datatype Emitted = Emitted(text: seq<Token>, props: seq<nat>)

  /** `key` says that the stream is a key stream. */
  datatype Unit = Unit(mode: Mode, env: Env, code: map<Name, Emitted>, ma: MaxAlign, capacity: nat, checked: bool,
                       key: bool := false)

  /** A stream that is written to or measured, or one that is read. */
  datatype Stream = Out(c: Cursor) | In(r: Reader)

  /**
    A running function: the object it is for, the stream, and its local variables. `held` lists the
    optional members with a value and the external members with a target (an object that a function is
    called for has none set), `origins` says for each array variable in which object its array is,
    `obj` is a new object for a branch, and `best` and `saved` are places in the stream.
   */
  datatype State = State(
    self: Target, stream: Stream, held: set<Accessor>, scope: Scope, origins: map<nat, Accessor>,
    d: Option<nat>, prop: Option<nat>, obj: Option<(nat, Val)>, best: Option<Cursor>, saved: Option<Cursor>)

  function Start(self: Target, stream: Stream): State {
    State(self, stream, {}, EMPTY_SCOPE, map[], None, None, None, None, None)
  }

  /** Variables that were declared in a block end with it, others keep the value they have. */
  function Leave(before: State, after: State): State {
    before.(self := after.self, stream := after.stream, held := after.held,
            d := if before.d.Some? then after.d else None,
            obj := if before.obj.Some? then after.obj else None,
            best := if before.best.Some? then after.best else None,
            saved := if before.saved.Some? then after.saved else None)
  }

  // ----- objects -----

  /** What the accessor starts with. */
  function Origin(acc: Accessor, origins: map<nat, Accessor>): Option<Accessor> {
    match acc
    case Element(vector, _) => Origin(vector, origins)
    case ArrayVar(n) => if n in origins then Some(origins[n]) else None
    case _ => Some(acc)
  }

  /** The object that contains what the accessor denotes: what a getter returns, or a local variable. */
  function Root(u: Unit, fuel: nat, def: Def, st: State, acc: Accessor): Target {
    match Origin(acc, st.origins)
    case Some(Instance) => st.self
    case Some(Member(slot)) =>
      // there is nothing to copy where there is no object
      if st.self.Outside? && slot < |Fields(def)| && Copied(u.env, Fields(def)[slot]) then Nowhere else st.self
    case Some(Branch(i)) => if def.Union? && i < |def.cases| then BranchRoot(u, fuel, def, st.self, i) else Nowhere
    case Some(Obj) => if st.obj.Some? then Live(st.obj.value.1) else Nowhere
    case _ => Nowhere
  }

  /** The getter of a branch; only measuring calls it for branches that are not active. */
  function BranchRoot(u: Unit, fuel: nat, def: Def, self: Target, i: nat): Target
    requires def.Union? && i < |def.cases|
  {
    match self
    case Live(VUnion(d, payload)) =>
      if u.mode == Max then
        BranchRef(Plain(u), fuel, def.cases[i].dims, def.cases[i].ty, ShapeOf(def), d, payload, i)
      else BranchTarget(ShapeOf(def), d, payload, i)
    case _ => Nowhere
  }

  /** The extents of the array that the accessor starts with, from its declaration. */
  function Extents(def: Def, st: State, acc: Accessor): seq<nat> {
    match Origin(acc, st.origins)
    case Some(Instance) => if def.Typedef? then def.dims else []
    case Some(Member(slot)) => if slot < |Fields(def)| then Fields(def)[slot].decl.dims else []
    case Some(Branch(i)) => if def.Union? && i < |def.cases| then def.cases[i].dims else []
    case Some(Obj) =>
      if def.Union? && st.obj.Some? && st.obj.value.0 < |def.cases| then def.cases[st.obj.value.0].dims else []
    case _ => []
  }

  /** The object with a part of it changed, in place of what it was. */
  function Store(st: State, acc: Accessor, v: Val): State {
    if Origin(acc, st.origins) == Some(Obj) then
      if st.obj.Some? then st.(obj := Some((st.obj.value.0, v))) else st
    else st.(self := Live(v))
  }

  // ----- lines -----

  function Plain(u: Unit): Context {
    Context(u.mode, u.env, map[], u.ma, u.capacity, u.checked)
  }

  predicate IsSimple(op: Op) {
    !op.Counted? && !op.ForVector? && !op.ForArray? && !op.Consecutive? && !op.Call?
  }

  /** The accessor of a statement; the two statements without one have no use for an object. */
  function AccessorOf(op: Op): Accessor {
    match op
    case Prim(acc, _) => acc
    case BoolElement(acc, _) => acc
    case Text(acc, _) => acc
    case BulkArray(acc, _, _) => acc
    case BulkVector(acc, _, _) => acc
    case Call(_, acc) => acc
    case _ => Instance
  }

  /** A call of a stream function for a number, a string or a block of them. */
  function DoSimple(u: Unit, fuel: nat, def: Def, op: Op, st: State): Option<State>
    requires IsSimple(op)
  {
    var root := Root(u, fuel, def, st, AccessorOf(op));
    match st.stream
    case Out(c) =>
      (match RunOp(Plain(u), fuel, op, st.scope, root, c)
       case None => None
       case Some(c') => Some(st.(stream := Out(c'))))
    case In(r) =>
      match root
      case Live(v) =>
        (match ReadOp(Plain(u), fuel, op, st.scope, v, r)
         case None => None
         case Some((v', r')) => Some(Store(st.(stream := In(r')), AccessorOf(op), v')))
      case _ => None
  }

  /** The call of the emitted function of another class. */
  function DoCall(u: Unit, fuel: nat, def: Def, name: Name, acc: Accessor, st: State): Option<State>
    decreases fuel, 0
  {
    var root := Root(u, fuel, def, st, acc);
    if fuel == 0 || name !in u.code || name !in u.env then None
    else
      match st.stream
      case Out(c) =>
        var t := Fetch(root, acc, st.scope);
        if t.Nowhere? || (t.Outside? && IsBit(u.env, acc, name)) then None
        else (match RunText(u, fuel - 1, u.env[name], u.code[name], t, st.stream)
              case None => None
              case Some((_, stream)) => Some(st.(stream := stream)))
      case In(r) =>
        if IsBit(u.env, acc, name) || !root.Live? || Eval(acc, st.scope).None? then None
        else
          var p := Eval(acc, st.scope).value;
          match Get(root.v, p)
          case None => None
          case Some(part) =>
            match RunText(u, fuel - 1, u.env[name], u.code[name], Live(part), st.stream)
            case Some((Live(part'), stream)) => Some(Store(st.(stream := stream), acc, Put(root.v, p, part')))
            case _ => None
  }

  /** `uint32_t se_n = ...;` */
  function DoLength(u: Unit, fuel: nat, def: Def, depth: nat, len: Length, st: State): Option<State> {
    var root := match len case SizeOf(acc) => Root(u, fuel, def, st, acc) case Constant(_) => Nowhere;
    match LengthOf(len, st.scope, root)
    case None => None
    case Some(n) => Some(st.(scope := WithLength(st.scope, depth, n)))
  }

  function DoStreamLength(u: Unit, depth: nat, st: State): Option<State> {
    if depth !in st.scope.length then None
    else
      match st.stream
      case Out(c) =>
        (match Advance(Plain(u), c, 4, Bytes(st.scope.length[depth], 4))
         case None => None
         case Some(c') => Some(st.(stream := Out(c'))))
      case In(r) =>
        match TakeNum(Plain(u), r, NumType(4, Integer))
        case None => None
        case Some((n, r')) => Some(st.(stream := In(r'), scope := WithLength(st.scope, depth, n)))
  }

  function DoResize(u: Unit, fuel: nat, def: Def, acc: Accessor, depth: nat, ty: Type, st: State): Option<State> {
    match Root(u, fuel, def, st, acc)
    case Live(v) =>
      if depth !in st.scope.length || Eval(acc, st.scope).None? then None
      else
        var p := Eval(acc, st.scope).value;
        (match Get(v, p)
         case Some(VNode(kids)) =>
           Some(Store(st, acc, Put(v, p, VNode(Resized(kids, st.scope.length[depth], Default(u.env, fuel, ty))))))
         case _ => None)
    case _ => None
  }

  /** The discriminator that is streamed: written as it is, or replaced by the one that is read. */
  function DoDiscriminator(u: Unit, disc: NumType, st: State): Option<State> {
    if st.d.None? then None
    else
      match st.stream
      case Out(c) =>
        (match Advance(Plain(u), c, disc.width, Bytes(st.d.value, disc.width))
         case None => None
         case Some(c') => Some(st.(stream := Out(c'))))
      case In(r) =>
        match TakeNum(Plain(u), r, disc)
        case None => None
        case Some((d, r')) => Some(st.(stream := In(r'), d := Some(d)))
  }

  /** The setter of a branch takes the first label of the branch, or checks the discriminator it is given. */
  function DoSetBranch(def: Def, arm: nat, single: bool, st: State): Option<State> {
    if !def.Union? || arm >= |def.cases| || !Labelled(ShapeOf(def)) || st.obj.None? || st.d.None? then None
    else
      var first := ShapeOf(def).arms[arm][0].value;
      var d := if single then first else st.d.value;
      if Compatible(ShapeOf(def), first, d) then Some(st.(self := Live(VUnion(d, Some(st.obj.value.1))))) else None
  }

  /** `_d(d)` accepts discriminators of the same branch only, here of none. */
  function DoSetDiscriminator(def: Def, st: State): Option<State> {
    match st.self
    case Live(VUnion(old_d, _)) =>
      if def.Union? && Labelled(ShapeOf(def)) && st.d.Some? && Compatible(ShapeOf(def), old_d, st.d.value)
      then Some(st.(self := Live(VUnion(st.d.value, None)))) else None
    case _ => None
  }

  /** A new default value for an optional or external member. */
  function Renewed(u: Unit, fuel: nat, def: Def, acc: Accessor, st: State): Option<State> {
    if !acc.Member? || acc.slot >= |Fields(def)| || !st.self.Live? then None
    else
      var f := Fields(def)[acc.slot];
      var v := Put(st.self.v, [acc.slot], DefaultArray(u.env, fuel, f.decl.dims, f.ty));
      Some(st.(self := Live(v), held := st.held + {acc}))
  }

  /** The places that measuring a union keeps: where each branch starts, and the furthest end. */
  function DoPlace(t: Token, st: State): Option<State> {
    if !st.stream.Out? then None
    else
      var c := st.stream.c;
      match t
      case DeclareMaximum => Some(st.(best := Some(c)))
      case SavePosition => Some(st.(saved := Some(c)))
      case KeepLarger =>
        if st.best.None? then None else Some(if Before(st.best.value.pos, c.pos) then st.(best := Some(c)) else st)
      case RestorePosition => if st.saved.None? then None else Some(st.(stream := Out(st.saved.value)))
      case SetMaximum => if st.best.None? then None else Some(st.(stream := Out(st.best.value)))
      case _ => None
  }

  function RunLine(u: Unit, fuel: nat, def: Def, t: Token, st: State): Option<State>
    decreases fuel, 1
  {
    match t
    case Stmt(op) =>
      if op.Call? then DoCall(u, fuel, def, op.name, op.acc, st)
      else if IsSimple(op) then DoSimple(u, fuel, def, op, st)
      else None
    case DeclareLength(depth, len) => DoLength(u, fuel, def, depth, len, st)
    case CheckBound(depth, bound) =>
      if depth in st.scope.length && st.scope.length[depth] <= bound then Some(st) else None
    case StreamLength(depth) => DoStreamLength(u, depth, st)
    case Resize(acc, depth, ty) => DoResize(u, fuel, def, acc, depth, ty, st)
    case DeclareDiscriminator =>
      if st.self.Live? && st.self.v.VUnion? then Some(st.(d := Some(st.self.v.d))) else None
    case StreamDiscriminator(disc) => DoDiscriminator(u, disc, st)
    case DeclareObj(arm) =>
      if def.Union? && arm < |def.cases| then
        Some(st.(obj := Some((arm, DefaultArray(u.env, fuel, def.cases[arm].dims, def.cases[arm].ty)))))
      else None
    case SetBranch(arm, single) => DoSetBranch(def, arm, single, st)
    case SetDiscriminator => DoSetDiscriminator(def, st)
    case Emplace(acc) => Renewed(u, fuel, def, acc, st)
    case Allocate(acc) => if acc in st.held then Some(st) else Renewed(u, fuel, def, acc, st)
    case RequireTarget(acc) => if acc in st.held then Some(st) else None
    case CaseLabel(_) => Some(st)
    case DefaultLabel => Some(st)
    case _ => DoPlace(t, st)
  }

  // ----- blocks -----

  /** A `case` for the value, or a `default`. */
  predicate IsLabel(node: Node, value: Option<nat>) {
    match value
    case Some(d) => node == Line(CaseLabel(Label(d, false)))
    case None => node == Line(DefaultLabel) || (node.Line? && node.token.CaseLabel? && node.token.lab.isDefault)
  }

  function FirstLabel(nodes: seq<Node>, value: Option<nat>): (k: nat)
    ensures k <= |nodes|
  {
    if nodes == [] || IsLabel(nodes[0], value) then 0 else 1 + FirstLabel(nodes[1..], value)
  }

  /** Where a switch jumps to: its `case`, or else its `default`, or else its end. */
  function Jump(nodes: seq<Node>, d: nat): (k: nat)
    ensures k <= |nodes|
  {
    if FirstLabel(nodes, Some(d)) < |nodes| then FirstLabel(nodes, Some(d)) else FirstLabel(nodes, None)
  }

  /** The block of the first case for a member id. */
  function FirstId(nodes: seq<Node>, id: nat): (k: nat)
    ensures k <= |nodes|
    ensures k < |nodes| ==> nodes[k].Block?
  {
    if nodes == [] || (nodes[0].Block? && nodes[0].bracket == IdCase(id)) then 0 else 1 + FirstId(nodes[1..], id)
  }

  function RunNodes(u: Unit, fuel: nat, def: Def, props: seq<nat>, nodes: seq<Node>, st: State): Option<State>
    decreases fuel, 2, nodes, 0, 0
  {
    if nodes == [] then Some(st)
    else match RunNode(u, fuel, def, props, nodes[0], st)
      case None => None
      case Some(st') => RunNodes(u, fuel, def, props, nodes[1..], st')
  }

  function RunNode(u: Unit, fuel: nat, def: Def, props: seq<nat>, node: Node, st: State): Option<State>
    decreases fuel, 2, node, 0, 0
  {
    match node
    case Line(t) => RunLine(u, fuel, def, t, st)
    case Block(b, body) =>
      match RunBlock(u, fuel, def, props, b, body, st)
      case None => None
      case Some(after) => Some(Leave(st, after))
  }

  function RunBlock(u: Unit, fuel: nat, def: Def, props: seq<nat>, b: Bracket, body: seq<Node>, st: State)
    : Option<State>
    decreases fuel, 2, body, 2, 0
  {
    match b
    case VectorLoop(depth) =>
      if depth !in st.scope.length then None
      else RunLoop(u, fuel, def, props, OverIndex(depth), body, 0, st.scope.length[depth], st)
    case ArrayLoop(depth) =>
      if body == [] || !body[0].Line? || !body[0].token.Over? then None
      else
        var acc := body[0].token.acc;
        if Fetch(Root(u, fuel, def, st, acc), acc, st.scope).Nowhere? || Eval(acc, st.scope).None? ||
          depth == 0 || depth > |Extents(def, st, acc)| then None
        else RunLoop(u, fuel, def, props, OverArray(depth, Eval(acc, st.scope).value), body[1..], 0,
                     Extents(def, st, acc)[depth - 1],
                     st.(origins := st.origins[depth := Origin(acc, st.origins).value]))
    case EntityLoop => RunEach(u, fuel, def, props, body, props, st)
    case IdSwitch =>
      if st.prop.None? then None
      else
        var k := FirstId(body, st.prop.value);
        if k == |body| then Some(st) else RunNodes(u, fuel, def, props, body[k].body, st)
    case Switch =>
      if st.d.None? then None
      else
        var k := Jump(body, st.d.value);
        RunSwitch(u, fuel, def, props, if k == 0 then body else body[k..], st)
    case HasValue(acc) => if acc in st.held then RunNodes(u, fuel, def, props, body, st) else Some(st)
    case NotKey => if u.key then Some(st) else RunNodes(u, fuel, def, props, body, st)
    case _ => RunNodes(u, fuel, def, props, body, st)
  }

  function RunLoop(u: Unit, fuel: nat, def: Def, props: seq<nat>, loop: Loop, body: seq<Node>, j: nat, n: nat,
                   st: State)
    : Option<State>
    decreases fuel, 2, body, 1, if j < n then n - j else 0
  {
    if j >= n then Some(st)
    else match RunNodes(u, fuel, def, props, body, st.(scope := Bind(st.scope, loop, j)))
      case None => None
      case Some(after) => RunLoop(u, fuel, def, props, loop, body, j + 1, n, Leave(st, after))
  }

  /** Once for each of the member ids. */
  function RunEach(u: Unit, fuel: nat, def: Def, props: seq<nat>, body: seq<Node>, ids: seq<nat>, st: State)
    : Option<State>
    decreases fuel, 2, body, 1, |ids|
  {
    if ids == [] then Some(st)
    else match RunNodes(u, fuel, def, props, body, st.(prop := Some(ids[0])))
      case None => None
      case Some(after) => RunEach(u, fuel, def, props, body, ids[1..], Leave(st, after))
  }

  /** From a label to the next `break`, or the end. */
  function RunSwitch(u: Unit, fuel: nat, def: Def, props: seq<nat>, nodes: seq<Node>, st: State): Option<State>
    decreases fuel, 2, nodes, 0, 0
  {
    if nodes == [] || nodes[0] == Line(Break) then Some(st)
    else match RunNode(u, fuel, def, props, nodes[0], st)
      case None => None
      case Some(st') => RunSwitch(u, fuel, def, props, nodes[1..], st')
  }

  /** Runs the text of a function for an object, from a place in a stream. */
  function RunText(u: Unit, fuel: nat, def: Def, fn: Emitted, self: Target, stream: Stream): Option<(Target, Stream)>
    decreases fuel, 3
  {
    var nodes := Parse(fn.text);
    if nodes.None? || |nodes.value| != 1 || !nodes.value[0].Block? ||
      nodes.value[0].bracket != Bracket.Function then None
    else match RunNodes(u, fuel, def, fn.props, nodes.value[0].body, Start(self, stream))
      case None => None
      case Some(st) => Some((st.self, st.stream))
  }
}
