/**
  The generated header, read back: which functions it consists of, and what they do to samples.
 */
module HeaderRuns {
  import opened Wrappers
  import opened Wire
  import opened Idl
  import opened Encoding
  import opened Programs
  import opened Emitter
  import opened EmittedText
  import opened Machine
  import opened WriteMove
  import opened Layout
  import opened RoundTrip
  import opened Targets
  import opened MaxBound
  import opened TextNodes
  import opened TextMachine
  import opened TextSteps
  import opened TextRuns
  import opened TextReads

  // ----- the functions in the header -----

  const STREAMS: seq<Mode> := [Write, Read, Move, Max]

  /** The function of a definition on one stream. */
  function FunctionOf(env: Env, mode: Mode, def: Def): Node {
    Block(Bracket.Function, ProgBody(mode, ProgOf(env, mode, def)))
  }

  function DefNodes(env: Env, def: Def): (r: seq<Node>)
    ensures |r| == 4
  {
    [FunctionOf(env, Write, def), FunctionOf(env, Read, def), FunctionOf(env, Move, def), FunctionOf(env, Max, def)]
  }

  function UnitNodes(env: Env, defs: seq<Def>): (r: seq<Node>)
    ensures |r| == 4 * |defs|
  {
    if defs == [] then [] else DefNodes(env, defs[0]) + UnitNodes(env, defs[1..])
  }

  lemma ModeText(env: Env, mode: Mode, def: Def)
    ensures TextOf([FunctionOf(env, mode, def)]) == ProgText(mode, ProgOf(env, mode, def))
    ensures AreTrees([FunctionOf(env, mode, def)])
  {
    hide ProgText; hide ProgOf; hide ProgBody; hide NodeText; hide IsTree;
    ProgNodeText(mode, ProgOf(env, mode, def));
    OneText(FunctionOf(env, mode, def));
  }

  lemma DefNodesText(env: Env, def: Def)
    ensures TextOf(DefNodes(env, def)) == DefText(env, def) && AreTrees(DefNodes(env, def))
  {
    hide ProgText; hide ProgOf; hide ProgBody; hide NodeText; hide IsTree;
    ModeText(env, Write, def);
    ModeText(env, Read, def);
    ModeText(env, Move, def);
    ModeText(env, Max, def);
    var w, r := [FunctionOf(env, Write, def)], [FunctionOf(env, Read, def)];
    var m, x := [FunctionOf(env, Move, def)], [FunctionOf(env, Max, def)];
    TextAppend(w, r);
    TextAppend(w + r, m);
    TextAppend(w + r + m, x);
    TreesAppend(w, r);
    TreesAppend(w + r, m);
    TreesAppend(w + r + m, x);
    assert DefNodes(env, def) == w + r + m + x;
  }

  lemma {:induction false} UnitNodesText(env: Env, defs: seq<Def>)
    ensures TextOf(UnitNodes(env, defs)) == UnitText(env, defs) && AreTrees(UnitNodes(env, defs))
  {
    if defs != [] {
      hide DefNodes; hide DefText;
      DefNodesText(env, defs[0]);
      UnitNodesText(env, defs[1..]);
      TextAppend(DefNodes(env, defs[0]), UnitNodes(env, defs[1..]));
      TreesAppend(DefNodes(env, defs[0]), UnitNodes(env, defs[1..]));
    }
  }

  lemma {:induction false} NodesAt(env: Env, defs: seq<Def>, k: nat, s: nat)
    requires k < |defs| && s < 4
    ensures UnitNodes(env, defs)[4 * k + s] == FunctionOf(env, STREAMS[s], defs[k])
  {
    hide FunctionOf;
    if k > 0 {
      NodesAt(env, defs[1..], k - 1, s);
      assert defs[1..][k - 1] == defs[k];
    }
  }

  /**
    The header of a translation unit is read as four functions for every definition, in order, and
    each is the function that the definition is streamed by.
   */
  lemma HeaderFunctions(env: Env, defs: seq<Def>, k: nat, s: nat) returns (nodes: seq<Node>)
    requires k < |defs| && s < 4
    ensures Parse(UnitText(env, defs)) == Some(nodes) && |nodes| == 4 * |defs|
    ensures nodes[4 * k + s].Block? && nodes[4 * k + s].bracket == Bracket.Function
    ensures TextOf([nodes[4 * k + s]]) == EmittedFor(env, STREAMS[s], defs[k]).text
  {
    hide ProgText; hide ProgOf; hide ProgBody; hide NodeText; hide Fields; hide Parse; hide UnitText; hide UnitNodes;
    nodes := UnitNodes(env, defs);
    UnitNodesText(env, defs);
    ParseText(nodes);
    NodesAt(env, defs, k, s);
    ModeText(env, STREAMS[s], defs[k]);
  }

  // ----- what they do -----

  function Compiled(env: Env, mode: Mode, ma: MaxAlign, capacity: nat, checked: bool): (u: Unit)
    ensures Origins(u) == Context(mode, env, Linked(env, mode), ma, capacity, checked)
  {
    Unit(mode, env, Header(env, mode), ma, capacity, checked)
  }

  /** Runs the function that is emitted for a definition. */
  function RunEmitted(u: Unit, fuel: nat, def: Def, self: Target, stream: Stream): Option<(Target, Stream)> {
    RunText(u, fuel, def, EmittedFor(u.env, u.mode, def), self, stream)
  }

  lemma Looks(env: Env, mode: Mode, ma: MaxAlign, capacity: nat, checked: bool, fuel: nat, def: Def, self: Target,
              c: Cursor)
    requires WellFormedEnv(env) && WellFormedDef(def) && mode != Read
    ensures RunEmitted(Compiled(env, mode, ma, capacity, checked), fuel, def, self, Out(c)) ==
            match RunProg(Context(mode, env, Linked(env, mode), ma, capacity, checked), fuel, ProgOf(env, mode, def),
                          self, c)
            case None => None
            case Some(c') => Some((self, Out(c')))
  {
    hide RunText; hide RunProg; hide ProgOf; hide WellFormedDef; hide EmittedFor; hide Linked;
    FunctionRuns(Compiled(env, mode, ma, capacity, checked), fuel, def, self, c);
  }

  lemma Fills(env: Env, ma: MaxAlign, capacity: nat, fuel: nat, def: Def, x: Val, r: Reader)
    requires WellFormedEnv(env) && WellFormedDef(def)
    ensures RunEmitted(Compiled(env, Read, ma, capacity, true), fuel, def, Live(x), In(r)) ==
            match ReadProg(Context(Read, env, Linked(env, Read), ma, capacity), fuel, ProgOf(env, Read, def), x, r)
            case None => None
            case Some((v, r')) => Some((Live(v), In(r')))
  {
    hide RunText; hide ReadProg; hide ProgOf; hide WellFormedDef; hide EmittedFor; hide Linked;
    FunctionReads(Compiled(env, Read, ma, capacity, true), fuel, def, x, r);
  }

  /**
    The emitted write function: it succeeds exactly when the buffer has room for the encoding, and then
    the buffer holds the numbers of the sample, each in its place.
   */
  lemma TextWritesLayout(env: Env, ma: MaxAlign, capacity: nat, fuel: nat, def: Def, v: Val)
    requires WellFormedEnv(env) && WellFormedDef(def) && StreamableDef(env, fuel, def) && HasDef(env, fuel, def, v)
    ensures var end := RunEmitted(Compiled(env, Write, ma, capacity, true), fuel, def, Live(v), Out(START));
            if |EncDef(env, ma, fuel, def, v, 0)| > capacity then end.None?
            else end.Some? && end.value.1.Out? && LaidOut(ma, end.value.1.c.out, 0, AtomsDef(env, fuel, def, v))
  {
    hide RunEmitted; hide RunProg; hide ProgOf; hide WellFormedDef; hide HasDef; hide StreamableDef; hide Linked;
    hide LaidOut; hide EncDef; hide Compiled;
    Looks(env, Write, ma, capacity, true, fuel, def, Live(v), START);
    WriteIsEncoding(env, ma, capacity, fuel, def, v);
    WriteIsLaidOut(env, ma, capacity, fuel, def, v);
  }

  /**
    The emitted read function restores what the emitted write function wrote, and consumes exactly the
    bytes that were written, wherever in a buffer they stand.
   */
  lemma TextReadsBack(env: Env, ma: MaxAlign, capacity: nat, fuel: nat, def: Def, v: Val, x: Val, prefix: seq<byte>,
                      al: nat, suffix: seq<byte>)
    requires WellFormedEnv(env) && WellFormedDef(def) && ReadableDef(env, fuel, def) && HasDef(env, fuel, def, v) &&
             ReceptiveDef(env, fuel, def, x)
    requires Aligned(|prefix|, al, ma) && |prefix| <= capacity
    ensures var written := RunEmitted(Compiled(env, Write, ma, capacity, true), fuel, def, Live(v),
                                      Out(Cursor(At(|prefix|), al, prefix)));
            written.Some? ==>
              written.value.1.Out? &&
              var out := written.value.1.c.out;
              var read := RunEmitted(Compiled(env, Read, ma, capacity, true), fuel, def, Live(x),
                                     In(Reader(out + suffix, |prefix|, al)));
              read.Some? && read.value.0 == Live(v) && read.value.1.In? && read.value.1.r.pos == |out|
  {
    hide RunEmitted; hide RunProg; hide ReadProg; hide ProgOf; hide WellFormedDef; hide HasDef; hide ReceptiveDef;
    hide ReadableDef; hide Linked; hide Compiled;
    var c := Cursor(At(|prefix|), al, prefix);
    var w := Context(Write, env, Linked(env, Write), ma, capacity);
    Looks(env, Write, ma, capacity, true, fuel, def, Live(v), c);
    ReadInvertsWrite(env, ma, capacity, fuel, def, v, x, prefix, al, suffix);
    match RunProg(w, fuel, ProgOf(env, Write, def), Live(v), c)
    case None =>
    case Some(end) => Fills(env, ma, capacity, fuel, def, x, Reader(end.out + suffix, |prefix|, al));
  }

  /** When the emitted max function completes on a full object, the emitted move function ends nowhere beyond. */
  lemma TextMaxBoundsMove(env: Env, ma: MaxAlign, capacity: nat, fm: nat, fv: nat, def: Def, x: Val, v: Val, q: nat,
                          ql: nat, p: nat, pl: nat, checked: bool)
    requires WellFormedEnv(env) && WellFormedDef(def) && StreamableDef(env, fv, def) && HasDef(env, fv, def, v)
    requires p <= q && Aligned(q, ql, ma) && Aligned(p, pl, ma)
    requires FullDef(Context(Max, env, Linked(env, Max), ma, capacity, checked), fm, def, Live(x))
    ensures var bound := RunEmitted(Compiled(env, Max, ma, capacity, checked), fm, def, Live(x),
                                    Out(Cursor(At(q), ql, [])));
            var moved := RunEmitted(Compiled(env, Move, ma, capacity, true), fv, def, Live(v),
                                    Out(Cursor(At(p), pl, [])));
            bound.Some? ==> bound.value.1.Out? && moved.Some? && moved.value.1.Out? &&
                            !Before(bound.value.1.c.pos, moved.value.1.c.pos)
  {
    hide RunEmitted; hide RunProg; hide ProgOf; hide WellFormedDef; hide HasDef; hide FullDef; hide StreamableDef;
    hide Linked; hide Compiled;
    Looks(env, Max, ma, capacity, checked, fm, def, Live(x), Cursor(At(q), ql, []));
    Looks(env, Move, ma, capacity, true, fv, def, Live(v), Cursor(At(p), pl, []));
    MaxBoundsMove(env, ma, capacity, fm, fv, def, x, v, q, ql, p, pl, checked);
  }
}
