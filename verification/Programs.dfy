/**
  The language of the emitted streaming functions, as trees and as the flat text that the
  generator writes, and the proof that the text is properly nested.
 */
module Programs {
  import opened Wrappers
  import opened Unions
  import opened Idl

  /** The four streams of generated text. */
  datatype Mode = Write | Read | Move | Max

  /** How emitted code names an object. */
  datatype Accessor =
    | Instance                                 // instance
    | Member(slot: nat)                        // instance.member()
    | Branch(arm: nat)                         // instance.branch()
    | Obj                                      // obj
    | ArrayVar(depth: nat)                     // a_1
    | Element(vector: Accessor, depth: nat)    // accessor[i_1]

  /** What `se_n` starts with. */
  datatype Length = SizeOf(acc: Accessor) | Constant(n: nat)

  datatype Op =
    | Prim(acc: Accessor, num: NumType)
    | BoolElement(acc: Accessor, num: NumType)             // an element of a vector of booleans
    | Text(acc: Accessor, bound: nat)
    | BulkArray(acc: Accessor, num: NumType, dim: nat)     // (acc[0], acc.size())
    | BulkVector(acc: Accessor, depth: nat, num: NumType)  // if se_n > 0: (acc[0], se_n)
    | BulkDefault(depth: nat, num: NumType)                // if se_n > 0: (T(), se_n)
    | Counted(depth: nat, len: Length, check: Option<nat>, resize: Option<Type>, acc: Accessor, body: seq<Op>)
    | ForVector(depth: nat, body: seq<Op>)
    | ForArray(depth: nat, acc: Accessor, dim: nat, body: seq<Op>)
    | Consecutive(isArray: bool, primitive: bool, body: seq<Op>)
    | Call(name: Name, acc: Accessor)
    | Unbounded                                            // streamer.position(SIZE_MAX)

  /** One `case` of the switch over member ids; `copied` says that the getter of the member returns a copy. */
  datatype Entry = Entry(id: nat, acc: Accessor, presence: Presence, copied: bool, body: seq<Op>)

  /** One branch of the switch over the discriminator. */
  datatype Branching = Branching(labels: Arm, single: bool, ty: Type, dims: seq<nat>, keyed: bool, body: seq<Op>)

  datatype Prog =
    | StructProg(properties: seq<nat>, entries: seq<Entry>)
    | UnionProg(disc: NumType, shape: Shape, branches: seq<Branching>)
    | TypedefProg(body: seq<Op>)

  // ----- text -----

  datatype Bracket =
    | Function
    | Struct
    | EntityLoop
    | IdSwitch
    | IdCase(id: nat)
    | MemberOf
    | HasValue(acc: Accessor)     // if the optional has a value
    | NotKey                      // if the stream is not a key stream
    | Switch
    | CaseBlock
    | ConsecutiveOf(isArray: bool, primitive: bool)
    | SequenceBlock(depth: nat)
    | VectorLoop(depth: nat)
    | ArrayLoop(depth: nat)

  datatype Token =
    | Open(b: Bracket)
    | Close(b: Bracket)
    | Stmt(op: Op)
    | Over(acc: Accessor)
    | DeclareLength(depth: nat, len: Length)
    | CheckBound(depth: nat, bound: nat)
    | StreamLength(depth: nat)
    | Emplace(acc: Accessor)         // gives an optional a value
    | Allocate(acc: Accessor)        // gives an external a target if it has none
    | RequireTarget(acc: Accessor)   // gives up if an external has no target
    | Resize(acc: Accessor, depth: nat, ty: Type)
    | CaseLabel(lab: Label)
    | DeclareDiscriminator
    | StreamDiscriminator(disc: NumType)
    | DeclareMaximum
    | DeclareObj(arm: nat)
    | SetBranch(arm: nat, single: bool)
    | DefaultLabel
    | SetDiscriminator
    | Break
    | SavePosition
    | RestorePosition
    | KeepLarger
    | SetMaximum

  /** Declaring, checking and streaming the length of a sequence, and making room for that many. */
  function LengthText(depth: nat, len: Length, check: Option<nat>, resize: Option<Type>, acc: Accessor): seq<Token> {
    [DeclareLength(depth, len)]
    + (if check.Some? then [CheckBound(depth, check.value)] else [])
    + [StreamLength(depth)]
    + (if resize.Some? then [Resize(acc, depth, resize.value)] else [])
  }

  function Flatten(op: Op): seq<Token>
    decreases op, 1
  {
    match op
    case Counted(depth, len, check, resize, acc, body) =>
      Wrap(SequenceBlock(depth), LengthText(depth, len, check, resize, acc) + FlattenAll(body))
    case ForVector(depth, body) => Wrap(VectorLoop(depth), FlattenAll(body))
    case ForArray(depth, acc, _, body) => Wrap(ArrayLoop(depth), [Over(acc)] + FlattenAll(body))
    case Consecutive(isArray, primitive, body) => Wrap(ConsecutiveOf(isArray, primitive), FlattenAll(body))
    case _ => [Stmt(op)]
  }

  function FlattenAll(ops: seq<Op>): seq<Token>
    decreases ops, 0
  {
    if ops == [] then [] else Flatten(ops[0]) + FlattenAll(ops[1..])
  }

  lemma {:induction false} FlattenAllAppend(a: seq<Op>, b: seq<Op>)
    ensures FlattenAll(a + b) == FlattenAll(a) + FlattenAll(b)
  {
    if a == [] {
      assert a + b == b;
    } else {
      hide Flatten;
      FlattenAllAppend(a[1..], b);
      assert (a + b)[0] == a[0] && (a + b)[1..] == a[1..] + b;
      Associative(Flatten(a[0]), FlattenAll(a[1..]), FlattenAll(b));
    }
  }

  /** Text between the two halves of a bracket. */
  function Wrap(b: Bracket, ts: seq<Token>): seq<Token> {
    [Open(b)] + ts + [Close(b)]
  }

  // ----- nesting -----

  /** The brackets still open after some text, innermost first; None when one is closed wrongly. */
  function Nest(ts: seq<Token>, open: seq<Bracket>): Option<seq<Bracket>> {
    if ts == [] then Some(open)
    else match ts[0]
      case Open(b) => Nest(ts[1..], [b] + open)
      case Close(b) => if open != [] && open[0] == b then Nest(ts[1..], open[1..]) else None
      case _ => Nest(ts[1..], open)
  }

  predicate Nested(ts: seq<Token>) {
    Nest(ts, []) == Some([])
  }

  lemma {:induction false} NestAppend(a: seq<Token>, b: seq<Token>, open: seq<Bracket>)
    ensures Nest(a + b, open) == match Nest(a, open) case Some(o) => Nest(b, o) case None => None
  {
    if a == [] {
      assert a + b == b;
    } else {
      assert (a + b)[1..] == a[1..] + b;
      match a[0]
      case Open(br) => NestAppend(a[1..], b, [br] + open);
      case Close(br) => if open != [] && open[0] == br { NestAppend(a[1..], b, open[1..]); }
      case _ => NestAppend(a[1..], b, open);
    }
  }

  /** Text that leaves every stack of open brackets as it found it. */
  ghost predicate Neutral(ts: seq<Token>) {
    forall open :: Nest(ts, open) == Some(open)
  }

  lemma NeutralAppend(a: seq<Token>, b: seq<Token>)
    requires Neutral(a) && Neutral(b)
    ensures Neutral(a + b)
  {
    forall open ensures Nest(a + b, open) == Some(open) { NestAppend(a, b, open); }
  }

  lemma NeutralAppend3(a: seq<Token>, b: seq<Token>, c: seq<Token>)
    requires Neutral(a) && Neutral(b) && Neutral(c)
    ensures Neutral(a + b + c)
  {
    NeutralAppend(a, b);
    NeutralAppend(a + b, c);
  }

  lemma NeutralBracket(b: Bracket, ts: seq<Token>)
    requires Neutral(ts)
    ensures Neutral(Wrap(b, ts))
  {
    forall open ensures Nest(Wrap(b, ts), open) == Some(open) {
      NestAppend([Open(b)] + ts, [Close(b)], open);
      NestAppend([Open(b)], ts, open);
      assert Nest([Open(b)], open) == Some([b] + open);
      assert Nest([Close(b)], [b] + open) == Some(open) by { assert ([b] + open)[1..] == open; }
    }
  }

  predicate IsPlain(t: Token) { !t.Open? && !t.Close? }

  lemma {:induction false} NeutralPlain(ts: seq<Token>)
    requires forall k :: 0 <= k < |ts| ==> IsPlain(ts[k])
    ensures Neutral(ts)
  {
    if ts != [] {
      NeutralPlain(ts[1..]);
      assert IsPlain(ts[0]);
    }
  }

  /** The text of every program fragment is properly nested wherever it stands. */
  lemma {:induction false} FlattenIsNested(op: Op)
    ensures Neutral(Flatten(op))
    decreases op, 1
  {
    match op
    case Counted(depth, len, check, resize, acc, body) =>
      var head := LengthText(depth, len, check, resize, acc);
      NeutralPlain(head);
      FlattenAllIsNested(body);
      NeutralAppend(head, FlattenAll(body));
      NeutralBracket(SequenceBlock(depth), head + FlattenAll(body));
    case ForVector(depth, body) => FlattenAllIsNested(body); NeutralBracket(VectorLoop(depth), FlattenAll(body));
    case ForArray(depth, acc, _, body) =>
      NeutralPlain([Over(acc)]);
      FlattenAllIsNested(body);
      NeutralAppend([Over(acc)], FlattenAll(body));
      NeutralBracket(ArrayLoop(depth), [Over(acc)] + FlattenAll(body));
    case Consecutive(isArray, primitive, body) =>
      FlattenAllIsNested(body); NeutralBracket(ConsecutiveOf(isArray, primitive), FlattenAll(body));
    case _ => NeutralPlain(Flatten(op));
  }

  lemma {:induction false} FlattenAllIsNested(ops: seq<Op>)
    ensures Neutral(FlattenAll(ops))
    decreases ops, 0
  {
    if ops != [] {
      FlattenIsNested(ops[0]);
      FlattenAllIsNested(ops[1..]);
      NeutralAppend(Flatten(ops[0]), FlattenAll(ops[1..]));
    }
  }
}
