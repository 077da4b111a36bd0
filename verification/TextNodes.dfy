/**
  The structure of emitted text: lines and the blocks that brackets enclose, read off the text
  alone, and the structure that the text of every program has.
 */
module TextNodes {
  import opened Wrappers
  import opened Unions
  import opened Idl
  import opened Programs
  import opened Emitter

  datatype Node = Line(token: Token) | Block(bracket: Bracket, body: seq<Node>)

  /** A bracket that was opened, and what stands before it in the block around it. */
  datatype Opened = Opened(bracket: Bracket, before: seq<Node>)

  /** Reads text from left to right; None when a bracket is closed wrongly, or never. */
  function Scan(ts: seq<Token>, open: seq<Opened>, done: seq<Node>): Option<seq<Node>> {
    if ts == [] then (if open == [] then Some(done) else None)
    else match ts[0]
      case Open(b) => Scan(ts[1..], [Opened(b, done)] + open, [])
      case Close(b) =>
        if open != [] && open[0].bracket == b then Scan(ts[1..], open[1..], open[0].before + [Block(b, done)]) else None
      case _ => Scan(ts[1..], open, done + [Line(ts[0])])
  }

  function Parse(ts: seq<Token>): Option<seq<Node>> {
    Scan(ts, [], [])
  }

  function NodeText(node: Node): seq<Token>
    decreases node, 1
  {
    match node
    case Line(t) => [t]
    case Block(b, body) => Wrap(b, TextOf(body))
  }

  function TextOf(nodes: seq<Node>): seq<Token>
    decreases nodes, 0
  {
    if nodes == [] then [] else NodeText(nodes[0]) + TextOf(nodes[1..])
  }

  /** Lines are no brackets. */
  predicate IsTree(node: Node)
    decreases node, 1
  {
    match node
    case Line(t) => IsPlain(t)
    case Block(_, body) => AreTrees(body)
  }

  predicate AreTrees(nodes: seq<Node>)
    decreases nodes, 0
  {
    nodes != [] ==> IsTree(nodes[0]) && AreTrees(nodes[1..])
  }

  lemma {:induction false} TextAppend(a: seq<Node>, b: seq<Node>)
    ensures TextOf(a + b) == TextOf(a) + TextOf(b)
  {
    if a == [] {
      assert a + b == b;
    } else {
      hide NodeText;
      assert (a + b)[0] == a[0] && (a + b)[1..] == a[1..] + b;
      TextAppend(a[1..], b);
      Associative(NodeText(a[0]), TextOf(a[1..]), TextOf(b));
    }
  }

  lemma {:induction false} TreesAppend(a: seq<Node>, b: seq<Node>)
    requires AreTrees(a) && AreTrees(b)
    ensures AreTrees(a + b)
  {
    if a == [] {
      assert a + b == b;
    } else {
      hide IsTree;
      assert (a + b)[0] == a[0] && (a + b)[1..] == a[1..] + b;
      TreesAppend(a[1..], b);
    }
  }

  lemma OneText(node: Node)
    ensures TextOf([node]) == NodeText(node)
    ensures AreTrees([node]) <==> IsTree(node)
  {
    assert [node][1..] == [];
    assert TextOf([]) == [] && NodeText(node) + [] == NodeText(node);
  }

  /** Reading the text of some nodes gives these nodes, whatever stands around it. */
  lemma {:induction false} ScanText(nodes: seq<Node>, rest: seq<Token>, open: seq<Opened>, done: seq<Node>)
    requires AreTrees(nodes)
    ensures Scan(TextOf(nodes) + rest, open, done) == Scan(rest, open, done + nodes)
    decreases nodes, 0
  {
    if nodes == [] {
      assert [] + rest == rest && done + [] == done;
    } else {
      hide IsTree; hide NodeText; hide Scan;
      ScanNode(nodes[0], TextOf(nodes[1..]) + rest, open, done);
      ScanText(nodes[1..], rest, open, done + [nodes[0]]);
      Associative(NodeText(nodes[0]), TextOf(nodes[1..]), rest);
      assert done + [nodes[0]] + nodes[1..] == done + nodes;
    }
  }

  lemma {:induction false} ScanNode(node: Node, rest: seq<Token>, open: seq<Opened>, done: seq<Node>)
    requires IsTree(node)
    ensures Scan(NodeText(node) + rest, open, done) == Scan(rest, open, done + [node])
    decreases node, 1
  {
    match node
    case Line(t) => assert ([t] + rest)[1..] == rest;
    case Block(b, body) =>
      var ts := [Open(b)] + TextOf(body) + [Close(b)] + rest;
      assert NodeText(node) + rest == ts;
      assert ts[1..] == TextOf(body) + ([Close(b)] + rest);
      ScanText(body, [Close(b)] + rest, [Opened(b, done)] + open, []);
      assert [] + body == body;
      assert ([Close(b)] + rest)[1..] == rest && ([Opened(b, done)] + open)[1..] == open;
  }

  /** Text is read as the only structure that has this text. */
  lemma ParseText(nodes: seq<Node>)
    requires AreTrees(nodes)
    ensures Parse(TextOf(nodes)) == Some(nodes)
  {
    ScanText(nodes, [], [], []);
    assert TextOf(nodes) + [] == TextOf(nodes) && [] + nodes == nodes;
  }

  // ----- the structure of programs -----

  function Lines(ts: seq<Token>): (r: seq<Node>)
    ensures |r| == |ts|
  {
    seq(|ts|, k requires 0 <= k < |ts| => Line(ts[k]))
  }

  lemma {:induction false} LinesText(ts: seq<Token>)
    requires forall k :: 0 <= k < |ts| ==> IsPlain(ts[k])
    ensures TextOf(Lines(ts)) == ts && AreTrees(Lines(ts))
  {
    if ts != [] {
      LinesText(ts[1..]);
      assert Lines(ts)[1..] == Lines(ts[1..]);
      assert ts == [ts[0]] + ts[1..];
    }
  }

  function NodeOf(op: Op): Node
    decreases op, 1
  {
    match op
    case Counted(depth, len, check, resize, acc, body) =>
      Block(SequenceBlock(depth), Lines(LengthText(depth, len, check, resize, acc)) + NodesOf(body))
    case ForVector(depth, body) => Block(VectorLoop(depth), NodesOf(body))
    case ForArray(depth, acc, _, body) => Block(ArrayLoop(depth), [Line(Over(acc))] + NodesOf(body))
    case Consecutive(isArray, primitive, body) => Block(ConsecutiveOf(isArray, primitive), NodesOf(body))
    case _ => Line(Stmt(op))
  }

  function NodesOf(ops: seq<Op>): seq<Node>
    decreases ops, 0
  {
    if ops == [] then [] else [NodeOf(ops[0])] + NodesOf(ops[1..])
  }

  lemma LengthLines(depth: nat, len: Length, check: Option<nat>, resize: Option<Type>, acc: Accessor)
    ensures var head := LengthText(depth, len, check, resize, acc); TextOf(Lines(head)) == head && AreTrees(Lines(head))
  {
    LinesText(LengthText(depth, len, check, resize, acc));
    hide Lines; hide TextOf; hide AreTrees;
  }

  lemma {:induction false} OpText(op: Op)
    ensures NodeText(NodeOf(op)) == Flatten(op) && IsTree(NodeOf(op))
    decreases op, 1
  {
    hide LengthText; hide Lines; hide NodesOf; hide FlattenAll;
    match op
    case Counted(depth, len, check, resize, acc, body) =>
      var head := LengthText(depth, len, check, resize, acc);
      OpsText(body);
      LengthLines(depth, len, check, resize, acc);
      TextAppend(Lines(head), NodesOf(body));
      TreesAppend(Lines(head), NodesOf(body));
    case ForVector(_, body) => OpsText(body);
    case ForArray(_, acc, _, body) =>
      OpsText(body);
      TextAppend([Line(Over(acc))], NodesOf(body));
      TreesAppend([Line(Over(acc))], NodesOf(body));
      OneText(Line(Over(acc)));
    case Consecutive(_, _, body) => OpsText(body);
    case _ =>
  }

  lemma {:induction false} OpsText(ops: seq<Op>)
    ensures TextOf(NodesOf(ops)) == FlattenAll(ops) && AreTrees(NodesOf(ops))
    decreases ops, 0
  {
    if ops != [] {
      OpText(ops[0]);
      OpsText(ops[1..]);
      hide NodeOf; hide Flatten; hide NodeText; hide IsTree;
      assert NodesOf(ops)[1..] == NodesOf(ops[1..]);
    }
  }

  function PresenceNodes(mode: Mode, presence: Presence, acc: Accessor, body: seq<Node>): seq<Node> {
    match presence
    case Required => body
    case Optional =>
      if mode == Read then [Line(Emplace(acc))] + body else if mode == Max then body else [Block(HasValue(acc), body)]
    case External =>
      if mode == Read then [Line(Allocate(acc))] + body
      else if mode == Max then body else [Line(RequireTarget(acc))] + body
  }

  lemma BlockText(b: Bracket, body: seq<Node>)
    ensures NodeText(Block(b, body)) == Wrap(b, TextOf(body)) && (IsTree(Block(b, body)) <==> AreTrees(body))
  {
  }

  lemma NoText()
    ensures TextOf([]) == [] && AreTrees([])
  {
  }

  lemma PresenceText(mode: Mode, presence: Presence, acc: Accessor, body: seq<Node>)
    requires AreTrees(body)
    ensures TextOf(PresenceNodes(mode, presence, acc, body)) ==
            PresenceHead(mode, presence, acc) + TextOf(body) + PresenceTail(mode, presence, acc)
    ensures AreTrees(PresenceNodes(mode, presence, acc, body))
  {
    hide TextOf; hide AreTrees; hide NodeText; hide IsTree;
    var head := PresenceHead(mode, presence, acc);
    if presence.Optional? && mode != Read && mode != Max {
      BlockText(HasValue(acc), body);
      OneText(Block(HasValue(acc), body));
    } else {
      NoText();
      LinesText(head);
      assert PresenceNodes(mode, presence, acc, body) == Lines(head) + body;
      TextAppend(Lines(head), body);
      TreesAppend(Lines(head), body);
    }
  }

  function EntryNode(mode: Mode, e: Entry): Node {
    Block(IdCase(e.id), [Block(MemberOf, PresenceNodes(mode, e.presence, e.acc, NodesOf(e.body)))])
  }

  function EntryNodes(mode: Mode, es: seq<Entry>): (r: seq<Node>)
    ensures |r| == |es|
  {
    if es == [] then [] else [EntryNode(mode, es[0])] + EntryNodes(mode, es[1..])
  }

  lemma EntryNodeText(mode: Mode, e: Entry)
    ensures NodeText(EntryNode(mode, e)) == EntryText(mode, e) && IsTree(EntryNode(mode, e))
  {
    OpsText(e.body);
    PresenceText(mode, e.presence, e.acc, NodesOf(e.body));
    hide PresenceNodes; hide PresenceHead; hide PresenceTail; hide NodesOf; hide FlattenAll;
    OneText(Block(MemberOf, PresenceNodes(mode, e.presence, e.acc, NodesOf(e.body))));
  }

  lemma {:induction false} EntryNodesText(mode: Mode, es: seq<Entry>)
    ensures TextOf(EntryNodes(mode, es)) == EntriesText(mode, es) && AreTrees(EntryNodes(mode, es))
  {
    if es != [] {
      EntryNodeText(mode, es[0]);
      EntryNodesText(mode, es[1..]);
      hide EntryNode; hide EntryText; hide NodeText; hide IsTree;
      assert EntryNodes(mode, es)[1..] == EntryNodes(mode, es[1..]);
    }
  }

  function GuardNodes(keyed: bool, body: seq<Node>): seq<Node> {
    if keyed then [Block(NotKey, body)] else body
  }

  /** The block of a branch. */
  function CaseNode(mode: Mode, b: Branching, arm: nat): (r: Node)
    ensures r.Block?
  {
    Block(CaseBlock, Lines(BranchHead(mode, arm)) + GuardNodes(b.keyed, NodesOf(b.body))
                     + Lines(BranchTail(mode, arm, b.single)))
  }

  function LabelNodes(mode: Mode, labels: Arm): seq<Node> {
    if mode == Max then [] else Lines(LabelsText(labels))
  }

  function BranchNodes(mode: Mode, b: Branching, arm: nat): seq<Node> {
    LabelNodes(mode, b.labels) + ([CaseNode(mode, b, arm)] + if mode == Max then [] else [Line(Break)])
  }

  function BranchesNodes(mode: Mode, bs: seq<Branching>, arm: nat): seq<Node>
    requires arm <= |bs|
    decreases |bs| - arm
  {
    if arm == |bs| then [] else BranchNodes(mode, bs[arm], arm) + BranchesNodes(mode, bs, arm + 1)
  }

  lemma CaseNodeText(mode: Mode, b: Branching, arm: nat)
    ensures NodeText(CaseNode(mode, b, arm)) ==
            Wrap(CaseBlock, BranchHead(mode, arm) + KeyGuard(b.keyed, FlattenAll(b.body))
                            + BranchTail(mode, arm, b.single))
    ensures IsTree(CaseNode(mode, b, arm))
  {
    var head, tail, body := BranchHead(mode, arm), BranchTail(mode, arm, b.single), NodesOf(b.body);
    LinesText(head);
    LinesText(tail);
    OpsText(b.body);
    OneText(Block(NotKey, body));
    hide BranchHead; hide BranchTail; hide FlattenAll; hide NodesOf; hide Lines;
    TextAppend(Lines(head), GuardNodes(b.keyed, body));
    TextAppend(Lines(head) + GuardNodes(b.keyed, body), Lines(tail));
    TreesAppend(Lines(head), GuardNodes(b.keyed, body));
    TreesAppend(Lines(head) + GuardNodes(b.keyed, body), Lines(tail));
  }

  lemma BranchNodesText(mode: Mode, b: Branching, arm: nat)
    ensures TextOf(BranchNodes(mode, b, arm)) == BranchText(mode, b, arm) && AreTrees(BranchNodes(mode, b, arm))
  {
    hide CaseNode; hide NodeText; hide IsTree; hide KeyGuard; hide BranchHead; hide BranchTail; hide Wrap; hide Lines;
    hide TextOf; hide AreTrees; hide FlattenAll;
    var labels, block := LabelNodes(mode, b.labels), [CaseNode(mode, b, arm)];
    var tail: seq<Node> := if mode == Max then [] else [Line(Break)];
    LabelNodesText(mode, b.labels);
    CaseNodeText(mode, b, arm);
    OneText(CaseNode(mode, b, arm));
    TailText(mode);
    TextAppend(block, tail);
    TreesAppend(block, tail);
    TextAppend(labels, block + tail);
    TreesAppend(labels, block + tail);
    Associative(TextOf(labels), TextOf(block), TextOf(tail));
  }

  lemma LabelNodesText(mode: Mode, labels: Arm)
    ensures TextOf(LabelNodes(mode, labels)) == (if mode == Max then [] else LabelsText(labels))
    ensures AreTrees(LabelNodes(mode, labels))
  {
    LinesText(LabelsText(labels));
  }

  lemma TailText(mode: Mode)
    ensures var tail := if mode == Max then [] else [Line(Break)];
            TextOf(tail) == (if mode == Max then [] else [Break]) && AreTrees(tail)
  {
    OneText(Line(Break));
  }

  lemma {:induction false} BranchesNodesText(mode: Mode, bs: seq<Branching>, arm: nat)
    requires arm <= |bs|
    ensures TextOf(BranchesNodes(mode, bs, arm)) == BranchesText(mode, bs, arm)
    ensures AreTrees(BranchesNodes(mode, bs, arm))
    decreases |bs| - arm
  {
    if arm < |bs| {
      BranchNodesText(mode, bs[arm], arm);
      BranchesNodesText(mode, bs, arm + 1);
      hide BranchNodes; hide BranchText;
      TextAppend(BranchNodes(mode, bs[arm], arm), BranchesNodes(mode, bs, arm + 1));
      TreesAppend(BranchNodes(mode, bs[arm], arm), BranchesNodes(mode, bs, arm + 1));
    }
  }

  function SwitchNodes(mode: Mode, bs: seq<Branching>, implicit: bool): seq<Node> {
    var cases := BranchesNodes(mode, bs, 0) + Lines(DefaultText(mode, implicit));
    if mode == Max then cases else [Block(Bracket.Switch, cases)]
  }

  function UnionNodes(mode: Mode, disc: NumType, bs: seq<Branching>, implicit: bool): seq<Node> {
    Lines(DiscriminatorText(mode, disc)) + SwitchNodes(mode, bs, implicit)
    + Lines(if mode == Max then [SetMaximum] else [])
  }

  function ProgBody(mode: Mode, p: Prog): seq<Node> {
    match p
    case StructProg(_, entries) => [Block(Bracket.Struct,
                                          [Block(EntityLoop, [Block(IdSwitch, EntryNodes(mode, entries))])])]
    case UnionProg(disc, shape, branches) => [Block(Bracket.Struct, UnionNodes(mode, disc, branches, shape.implicit))]
    case TypedefProg(body) => NodesOf(body)
  }

  lemma SwitchNodesText(mode: Mode, bs: seq<Branching>, implicit: bool)
    ensures TextOf(SwitchNodes(mode, bs, implicit)) ==
            SwitchText(mode, BranchesText(mode, bs, 0) + DefaultText(mode, implicit))
    ensures AreTrees(SwitchNodes(mode, bs, implicit))
  {
    BranchesNodesText(mode, bs, 0);
    LinesText(DefaultText(mode, implicit));
    hide BranchesNodes; hide BranchesText; hide DefaultText; hide Lines;
    TextAppend(BranchesNodes(mode, bs, 0), Lines(DefaultText(mode, implicit)));
    TreesAppend(BranchesNodes(mode, bs, 0), Lines(DefaultText(mode, implicit)));
    OneText(Block(Bracket.Switch, BranchesNodes(mode, bs, 0) + Lines(DefaultText(mode, implicit))));
  }

  lemma UnionNodesText(mode: Mode, disc: NumType, bs: seq<Branching>, implicit: bool)
    ensures TextOf(UnionNodes(mode, disc, bs, implicit)) ==
            DiscriminatorText(mode, disc)
            + SwitchText(mode, BranchesText(mode, bs, 0) + DefaultText(mode, implicit))
            + (if mode == Max then [SetMaximum] else [])
    ensures AreTrees(UnionNodes(mode, disc, bs, implicit))
  {
    var head, tail := DiscriminatorText(mode, disc), if mode == Max then [SetMaximum] else [];
    LinesText(head);
    LinesText(tail);
    SwitchNodesText(mode, bs, implicit);
    hide DiscriminatorText; hide SwitchNodes; hide SwitchText; hide Lines; hide BranchesText; hide DefaultText;
    TextAppend(Lines(head), SwitchNodes(mode, bs, implicit));
    TextAppend(Lines(head) + SwitchNodes(mode, bs, implicit), Lines(tail));
    TreesAppend(Lines(head), SwitchNodes(mode, bs, implicit));
    TreesAppend(Lines(head) + SwitchNodes(mode, bs, implicit), Lines(tail));
  }

  /** The function emitted for a definition is one block, on each of the four streams. */
  lemma ProgNodeText(mode: Mode, p: Prog)
    ensures NodeText(Block(Bracket.Function, ProgBody(mode, p))) == ProgText(mode, p)
    ensures IsTree(Block(Bracket.Function, ProgBody(mode, p)))
  {
    match p
    case StructProg(_, entries) =>
      EntryNodesText(mode, entries);
      hide EntryNodes; hide EntriesText;
      OneText(Block(IdSwitch, EntryNodes(mode, entries)));
      OneText(Block(EntityLoop, [Block(IdSwitch, EntryNodes(mode, entries))]));
      OneText(Block(Bracket.Struct, [Block(EntityLoop, [Block(IdSwitch, EntryNodes(mode, entries))])]));
    case UnionProg(disc, shape, branches) =>
      UnionNodesText(mode, disc, branches, shape.implicit);
      hide UnionNodes; hide DiscriminatorText; hide SwitchText; hide BranchesText; hide DefaultText;
      OneText(Block(Bracket.Struct, UnionNodes(mode, disc, branches, shape.implicit)));
    case TypedefProg(body) => OpsText(body);
  }

  /** What the text of a function is read as. */
  lemma ParseProgText(mode: Mode, p: Prog)
    ensures Parse(ProgText(mode, p)) == Some([Block(Bracket.Function, ProgBody(mode, p))])
  {
    ProgNodeText(mode, p);
    hide *;
    OneText(Block(Bracket.Function, ProgBody(mode, p)));
    ParseText([Block(Bracket.Function, ProgBody(mode, p))]);
  }
}
