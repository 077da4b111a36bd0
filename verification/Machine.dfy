/**
  What emitted programs do: one interpreter for the three streams that only look at an object
  (write, move and max) and one for the stream that fills an object in (read).
  `start_*` and `finish_*` do nothing, as in the basic stream; a stream ignores no faults.
 */
module Machine {
  import opened Wrappers
  import opened Wire
  import opened Unions
  import opened Idl
  import opened Programs
  import opened Objects

  /** `SIZE_MAX` as a position means that there is no limit. */
  datatype Position = At(n: nat) | Infinite

  /** The stream being written or measured; `out` holds the bytes written so far. */
  datatype Cursor = Cursor(pos: Position, al: nat, out: seq<byte>)

  /** `checked` says that the getters of unions check the discriminator, as the emitted ones do. */
  datatype Context = Context(mode: Mode, env: Env, code: map<Name, Prog>, ma: MaxAlign, capacity: nat,
                             checked: bool := true)

  /**
    What an accessor leads to: an object; memory outside any object, to which there can be a
    reference; or nowhere. The getter of a branch that is not active throws, and where there is no
    vector, there is nothing that leads to its elements.
   */
  datatype Target = Live(v: Val) | Outside | Nowhere

  function Fetch(root: Target, acc: Accessor, scope: Scope): Target {
    if root.Nowhere? then Nowhere
    else if root.Live? && Eval(acc, scope).Some? && Get(root.v, Eval(acc, scope).value).Some? then
      Live(Get(root.v, Eval(acc, scope).value).value)
    else
      match acc
      case Element(vector, _) => if Fetch(root, vector, scope).Live? then Outside else Nowhere
      case _ => Outside
  }

  /**
    An element of a vector of booleans is a bit and no object: it is copied, which takes a vector
    that has it, and cannot be referred to in order to read into it.
   */
  predicate IsBit(env: Env, acc: Accessor, name: Name) {
    acc.Element? && IsBoolean(Strip(env, Named(name)))
  }

  // ----- stream primitives -----

  function Advance(cx: Context, c: Cursor, w: Width, data: seq<byte>): Option<Cursor> {
    match c.pos
    case Infinite => if cx.mode == Write then None else Some(c)
    case At(p) =>
      var (q, al) := AlignStep(p, c.al, w, cx.ma);
      if cx.mode == Write then
        if q + |data| > cx.capacity then None
        else Some(Cursor(At(q + |data|), al, c.out + Zeros(q - p) + data))
      else Some(Cursor(At(q + |data|), al, c.out))
  }

  function AdvanceText(cx: Context, c: Cursor, bound: nat, s: seq<byte>): Option<Cursor> {
    if c.pos.Infinite? then (if cx.mode == Write then None else Some(c))
    else if bound > 0 && |s| > bound then None
    else
      match Advance(cx, c, 4, Bytes(|s| + 1, 4))
      case None => None
      case Some(c') =>
        if c'.pos.Infinite? then Some(c')
        else if cx.mode == Write then
          if c'.pos.n + |s| + 1 > cx.capacity then None
          else Some(Cursor(At(c'.pos.n + |s| + 1), 1, c'.out + s + [0]))
        else Some(Cursor(At(c'.pos.n + |s| + 1), 1, c'.out))
  }

  predicate AllNums(kids: seq<Val>) {
    forall k :: 0 <= k < |kids| ==> kids[k].VNum?
  }

  /** The bytes of consecutive numbers of one width. */
  function BulkBytes(kids: seq<Val>, w: Width): (s: seq<byte>)
    requires AllNums(kids)
    ensures |s| == w * |kids|
  {
    if kids == [] then [] else Bytes(kids[0].n, w) + BulkBytes(kids[1..], w)
  }

  // ----- write, move, max -----

  datatype Loop = OverIndex(depth: nat) | OverArray(depth: nat, path: Path)

  function Bind(scope: Scope, loop: Loop, j: nat): Scope {
    match loop
    case OverIndex(depth) => WithIndex(scope, depth, j)
    case OverArray(depth, path) => WithArray(scope, depth, path + [j])
  }

  function RunOps(cx: Context, fuel: nat, ops: seq<Op>, scope: Scope, root: Target, c: Cursor): Option<Cursor>
    decreases fuel, ops, 0
  {
    if ops == [] then Some(c)
    else match RunOp(cx, fuel, ops[0], scope, root, c)
      case None => None
      case Some(c') => RunOps(cx, fuel, ops[1..], scope, root, c')
  }

  function RunOp(cx: Context, fuel: nat, op: Op, scope: Scope, root: Target, c: Cursor): Option<Cursor>
    decreases fuel, op, 0
  {
    match op
    case Prim(acc, num) =>
      (match Fetch(root, acc, scope)
       case Live(VNum(n)) => Advance(cx, c, num.width, Bytes(n, num.width))
       case Outside => if cx.mode == Max then Advance(cx, c, num.width, Zeros(num.width)) else None
       case _ => None)
    case BoolElement(acc, num) =>
      (match Fetch(root, acc, scope)
       case Live(VNum(n)) => Advance(cx, c, num.width, Bytes(n, num.width))
       case _ => None)
    case Text(acc, bound) =>
      (match Fetch(root, acc, scope)
       case Live(VText(s)) =>
         if cx.mode == Max && bound == 0 then Some(c.(pos := Infinite)) else AdvanceText(cx, c, bound, s)
       case Outside => if cx.mode == Max && bound == 0 then Some(c.(pos := Infinite)) else None
       case _ => None)
    case BulkArray(acc, num, dim) =>
      (match Fetch(root, acc, scope)
       case Live(VNode(kids)) =>
         if |kids| == dim && AllNums(kids) then Advance(cx, c, num.width, BulkBytes(kids, num.width)) else None
       case Outside => if cx.mode == Max then Advance(cx, c, num.width, Zeros(num.width * dim)) else None
       case _ => None)
    case BulkVector(acc, depth, num) =>
      if depth !in scope.length then None
      else if scope.length[depth] == 0 then Some(c)
      else
        (match Fetch(root, acc, scope)
         case Live(VNode(kids)) =>
           if |kids| == scope.length[depth] &&
             AllNums(kids) then Advance(cx, c, num.width, BulkBytes(kids, num.width)) else None
         case _ => None)
    case BulkDefault(depth, num) =>
      if depth !in scope.length then None
      else if scope.length[depth] == 0 then Some(c)
      else Advance(cx, c, num.width, Zeros(num.width * scope.length[depth]))
    case Counted(depth, len, check, _, _, body) =>
      (match LengthOf(len, scope, root)
       case None => None
       case Some(n) =>
         if check.Some? && n > check.value then None
         else match Advance(cx, c, 4, Bytes(n, 4))
           case None => None
           case Some(c') => RunOps(cx, fuel, body, WithLength(scope, depth, n), root, c'))
    case ForVector(depth, body) =>
      if depth !in scope.length then None
      else RunFor(cx, fuel, OverIndex(depth), body, 0, scope.length[depth], scope, root, c)
    case ForArray(depth, acc, dim, body) =>
      if Fetch(root, acc, scope).Nowhere? then None
      else (match Eval(acc, scope)
            case None => None
            case Some(p) => RunFor(cx, fuel, OverArray(depth, p), body, 0, dim, scope, root, c))
    case Consecutive(_, _, body) => RunOps(cx, fuel, body, scope, root, c)
    case Call(name, acc) =>
      var t := Fetch(root, acc, scope);
      if fuel == 0 || name !in cx.code || t.Nowhere? || (t.Outside? && IsBit(cx.env, acc, name)) then None
      else RunProg(cx, fuel - 1, cx.code[name], t, c)
    case Unbounded => Some(c.(pos := Infinite))
  }

  function LengthOf(len: Length, scope: Scope, root: Target): Option<nat> {
    match len
    case Constant(n) => Some(n)
    case SizeOf(acc) =>
      match Fetch(root, acc, scope)
      case Live(VNode(kids)) => Some(|kids| % UINT32_LIMIT)
      case _ => None
  }

  function RunFor(cx: Context, fuel: nat, loop: Loop, body: seq<Op>, j: nat, n: nat, scope: Scope, root: Target,
                  c: Cursor)
    : Option<Cursor>
    decreases fuel, body, if j < n then n - j + 1 else 1
  {
    if j >= n then Some(c)
    else match RunOps(cx, fuel, body, Bind(scope, loop, j), root, c)
      case None => None
      case Some(c') => RunFor(cx, fuel, loop, body, j + 1, n, scope, root, c')
  }

  function RunProg(cx: Context, fuel: nat, p: Prog, root: Target, c: Cursor): Option<Cursor>
    decreases fuel, p, 0
  {
    match p
    case StructProg(properties, entries) => RunEntities(cx, fuel, properties, entries, root, c)
    case TypedefProg(body) => RunOps(cx, fuel, body, EMPTY_SCOPE, root, c)
    case UnionProg(disc, shape, branches) =>
      match root
      case Live(VUnion(d, payload)) =>
        (match Advance(cx, c, disc.width, Bytes(d, disc.width))
         case None => None
         case Some(c') =>
           if cx.mode == Max then RunBranches(cx, fuel, branches, 0, shape, d, payload, c', c')
           else match ArmOf(shape, d)
             case Some(i) =>
               if i < |branches| then
                 RunOps(cx, fuel, branches[i].body, EMPTY_SCOPE, BranchTarget(shape, d, payload, i), c')
               else None
             case None => Some(c'))
      case _ => None
  }

  /** What the getter of branch `i` yields. */
  function BranchTarget(shape: Shape, d: nat, payload: Option<Val>, i: nat): Target {
    if Labelled(shape) && i < |shape.arms| && Compatible(shape, d, shape.arms[i][0].value) && payload.Some?
    then Live(payload.value) else Nowhere
  }

  /**
    The walk over the entity properties, with a switch on the member id for each. There is nothing
    to copy where there is no object.
   */
  function RunEntities(cx: Context, fuel: nat, properties: seq<nat>, entries: seq<Entry>, root: Target, c: Cursor)
    : Option<Cursor>
    decreases fuel, entries, |properties|
  {
    if properties == [] then Some(c)
    else match EntryFor(entries, properties[0])
      case None => RunEntities(cx, fuel, properties[1..], entries, root, c)
      case Some(k) =>
        if entries[k].copied && root.Outside? then None
        else match RunOps(cx, fuel, entries[k].body, EMPTY_SCOPE, root, c)
          case None => None
          case Some(c') => RunEntities(cx, fuel, properties[1..], entries, root, c')
  }

  function EntryFor(entries: seq<Entry>, id: nat): (r: Option<nat>)
    ensures r.Some? ==> r.value < |entries| && entries[r.value].id == id
    ensures r.None? ==> forall k :: 0 <= k < |entries| ==> entries[k].id != id
  {
    if entries == [] then None
    else if entries[0].id == id then Some(0)
    else match EntryFor(entries[1..], id)
      case Some(k) => Some(k + 1)
      case None => None
  }

  predicate Before(p: Position, q: Position) {
    match (p, q)
    case (At(m), At(n)) => m < n
    case (At(_), Infinite) => true
    case (Infinite, _) => false
  }

  /** What the max code of a branch looks at. Getters without a check would yield some default object. */
  function BranchRef(cx: Context, fuel: nat, dims: seq<nat>, ty: Type, shape: Shape, d: nat, payload: Option<Val>,
                     i: nat): Target {
    var t := BranchTarget(shape, d, payload, i);
    if t.Nowhere? && !cx.checked then Live(DefaultArray(cx.env, fuel, dims, ty)) else t
  }

  /** Every branch is measured from the same start, and the furthest end is kept. */
  function RunBranches(cx: Context, fuel: nat, branches: seq<Branching>, i: nat, shape: Shape, d: nat,
                       payload: Option<Val>,
                       start: Cursor, best: Cursor): Option<Cursor>
    decreases fuel, branches, if i < |branches| then |branches| - i else 0
  {
    if i >= |branches| then Some(best)
    else match RunOps(cx, fuel, branches[i].body, EMPTY_SCOPE,
                      BranchRef(cx, fuel, branches[i].dims, branches[i].ty, shape, d, payload, i), start)
      case None => None
      case Some(c) =>
        RunBranches(cx, fuel, branches, i + 1, shape, d, payload, start, if Before(best.pos, c.pos) then c else best)
  }

  // ----- read -----

  datatype Reader = Reader(buf: seq<byte>, pos: nat, al: nat)

  function Take(cx: Context, r: Reader, w: Width, len: nat): Option<(seq<byte>, Reader)> {
    var (q, al) := AlignStep(r.pos, r.al, w, cx.ma);
    if q + len > |r.buf| then None
    else Some((r.buf[q..q + len], r.(pos := q + len, al := al)))
  }

  /** The conversion of a number read from the stream; an enum maps unknown values to its default. */
  function Convert(num: NumType, n: nat): Option<nat> {
    match num.kind
    case Integer => Some(n)
    case Boolean => if n < 2 then Some(n) else None
    case Enumeration(values, dflt) => if n in values then Some(n) else dflt
  }

  function TakeNum(cx: Context, r: Reader, num: NumType): Option<(nat, Reader)> {
    match Take(cx, r, num.width, num.width)
    case None => None
    case Some((bytes, r')) =>
      match Convert(num, Number(bytes))
      case None => None
      case Some(n) => Some((n, r'))
  }

  /** `count` numbers: one block of memory, or for an enum one conversion after the other. */
  function TakeNums(cx: Context, r: Reader, num: NumType, count: nat): Option<(seq<Val>, Reader)> {
    if num.kind.Enumeration? then TakeEach(cx, r, num, count)
    else
      match Take(cx, r, num.width, num.width * count)
      case None => None
      case Some((bytes, r')) => Some((Chop(bytes, num.width, count), r'))
  }

  function TakeEach(cx: Context, r: Reader, num: NumType, count: nat): Option<(seq<Val>, Reader)>
    decreases count
  {
    if count == 0 then Some(([], r))
    else
      match TakeNum(cx, r, num)
      case None => None
      case Some((n, r')) =>
        match TakeEach(cx, r', num, count - 1)
        case None => None
        case Some((rest, r'')) => Some(([VNum(n)] + rest, r''))
  }

  function Chop(bytes: seq<byte>, w: Width, count: nat): (r: seq<Val>)
    requires |bytes| == w * count
    ensures |r| == count
  {
    if count == 0 then [] else [VNum(Number(bytes[..w]))] + Chop(bytes[w..], w, count - 1)
  }

  function TakeText(cx: Context, r: Reader, bound: nat): Option<(seq<byte>, Reader)> {
    match TakeNum(cx, r, NumType(4, Integer))
    case None => None
    case Some((n, r')) =>
      if r'.pos + n > |r.buf| || n == 0 || (bound > 0 && n > bound + 1) then None
      else Some((r.buf[r'.pos..r'.pos + n - 1], Reader(r.buf, r'.pos + n, 1)))
  }

  function Resized(kids: seq<Val>, n: nat, filler: Val): (r: seq<Val>)
    ensures |r| == n
  {
    if n <= |kids| then kids[..n] else kids + Copies(n - |kids|, filler)
  }

  function ReadOps(cx: Context, fuel: nat, ops: seq<Op>, scope: Scope, root: Val, r: Reader): Option<(Val, Reader)>
    decreases fuel, ops, 0
  {
    if ops == [] then Some((root, r))
    else match ReadOp(cx, fuel, ops[0], scope, root, r)
      case None => None
      case Some((root', r')) => ReadOps(cx, fuel, ops[1..], scope, root', r')
  }

  function ReadOp(cx: Context, fuel: nat, op: Op, scope: Scope, root: Val, r: Reader): Option<(Val, Reader)>
    decreases fuel, op, 0
  {
    match op
    case Prim(acc, num) => ReadNum(cx, acc, num, scope, root, r)
    case BoolElement(acc, num) => ReadNum(cx, acc, num, scope, root, r)
    case Text(acc, bound) =>
      (match Eval(acc, scope)
       case None => None
       case Some(p) =>
         if IsNode(root, p) then None
         else match TakeText(cx, r, bound)
           case None => None
           case Some((s, r')) => Some((Put(root, p, VText(s)), r')))
    case BulkArray(acc, num, dim) =>
      (match Eval(acc, scope)
       case None => None
       case Some(p) =>
         match TakeNums(cx, r, num, dim)
         case None => None
         case Some((kids, r')) => Some((Put(root, p, VNode(kids)), r')))
    case BulkVector(acc, depth, num) =>
      if depth !in scope.length then None
      else if scope.length[depth] == 0 then Some((root, r))
      else
        (match Eval(acc, scope)
         case None => None
         case Some(p) =>
           match TakeNums(cx, r, num, scope.length[depth])
           case None => None
           case Some((kids, r')) => Some((Put(root, p, VNode(kids)), r')))
    case Counted(depth, _, check, resize, acc, body) =>
      (match Eval(acc, scope)
       case None => None
       case Some(p) =>
         match Get(root, p)
         case Some(VNode(kids)) =>
           // the bound is compared with the size the vector has before anything is read
           if (check.Some? && |kids| % UINT32_LIMIT > check.value) || resize.None? then None
           else (match TakeNum(cx, r, NumType(4, Integer))
                 case None => None
                 case Some((n, r')) =>
                   var root' := Put(root, p, VNode(Resized(kids, n, Default(cx.env, fuel, resize.value))));
                   ReadOps(cx, fuel, body, WithLength(scope, depth, n), root', r'))
         case _ => None)
    case ForVector(depth, body) =>
      if depth !in scope.length then None
      else ReadFor(cx, fuel, OverIndex(depth), body, 0, scope.length[depth], scope, root, r)
    case ForArray(depth, acc, dim, body) =>
      (match Eval(acc, scope)
       case None => None
       case Some(p) => ReadFor(cx, fuel, OverArray(depth, p), body, 0, dim, scope, root, r))
    case Consecutive(_, _, body) => ReadOps(cx, fuel, body, scope, root, r)
    case Call(name, acc) =>
      if fuel == 0 || name !in cx.code || IsBit(cx.env, acc, name) then None
      else
        (match Eval(acc, scope)
         case None => None
         case Some(p) =>
           match Get(root, p)
           case None => None
           case Some(part) =>
             match ReadProg(cx, fuel - 1, cx.code[name], part, r)
             case None => None
             case Some((part', r')) => Some((Put(root, p, part'), r')))
    case BulkDefault(_, _) => None
    case Unbounded => None
  }

  function ReadNum(cx: Context, acc: Accessor, num: NumType, scope: Scope, root: Val,
                   r: Reader): Option<(Val, Reader)> {
    match Eval(acc, scope)
    case None => None
    case Some(p) =>
      if IsNode(root, p) then None
      else match TakeNum(cx, r, num)
        case None => None
        case Some((n, r')) => Some((Put(root, p, VNum(n)), r'))
  }

  /** No number and no string is read into a struct, an array or a vector. */
  predicate IsNode(root: Val, p: Path) {
    Get(root, p).Some? && Get(root, p).value.VNode?
  }

  function ReadFor(cx: Context, fuel: nat, loop: Loop, body: seq<Op>, j: nat, n: nat, scope: Scope, root: Val,
                   r: Reader)
    : Option<(Val, Reader)>
    decreases fuel, body, if j < n then n - j + 1 else 1
  {
    if j >= n then Some((root, r))
    else match ReadOps(cx, fuel, body, Bind(scope, loop, j), root, r)
      case None => None
      case Some((root', r')) => ReadFor(cx, fuel, loop, body, j + 1, n, scope, root', r')
  }

  function ReadProg(cx: Context, fuel: nat, p: Prog, root: Val, r: Reader): Option<(Val, Reader)>
    decreases fuel, p, 0
  {
    match p
    case StructProg(properties, entries) => ReadEntities(cx, fuel, properties, entries, root, r)
    case TypedefProg(body) => ReadOps(cx, fuel, body, EMPTY_SCOPE, root, r)
    case UnionProg(disc, shape, branches) =>
      if !root.VUnion? || !Labelled(shape) then None
      else match TakeNum(cx, r, disc)
        case None => None
        case Some((d, r')) =>
          match ArmOf(shape, d)
          case Some(i) =>
            if i >= |branches| then None
            else
              var b := branches[i];
              (match ReadOps(cx, fuel, b.body, EMPTY_SCOPE, DefaultArray(cx.env, fuel, b.dims, b.ty), r')
               case None => None
               case Some((obj, r'')) =>
                 // the setter checks the discriminator it is given, or takes the first label
                 var value := shape.arms[i][0].value;
                 var chosen := if b.single then value else d;
                 if Compatible(shape, value, chosen) then Some((VUnion(chosen, Some(obj)), r'')) else None)
          case None =>
            if !shape.implicit then Some((root, r'))
            else if Compatible(shape, root.d, d) then Some((VUnion(d, None), r')) else None
  }

  function ReadEntities(cx: Context, fuel: nat, properties: seq<nat>, entries: seq<Entry>, root: Val, r: Reader)
    : Option<(Val, Reader)>
    decreases fuel, entries, |properties|
  {
    if properties == [] then Some((root, r))
    else match EntryFor(entries, properties[0])
      case None => ReadEntities(cx, fuel, properties[1..], entries, root, r)
      case Some(k) =>
        match ReadOps(cx, fuel, entries[k].body, EMPTY_SCOPE, root, r)
        case None => None
        case Some((root', r')) => ReadEntities(cx, fuel, properties[1..], entries, root', r')
  }
}
