/**
  The generator of streaming functions: it appends to four streams of text at once, in the
  order in which it walks over the definitions of a translation unit.
 */
module Generator {
  import opened Wrappers
  import opened Unions
  import opened Idl
  import opened Programs
  import opened Emitter
  import opened EmittedText

  class Streams {
    var write: seq<Token>
    var read: seq<Token>
    var move: seq<Token>
    var max: seq<Token>
    var props: seq<nat>       // the member ids of the table of entity properties
    var header: seq<Token>    // the generated header file
    var impl: seq<nat>        // the generated implementation file

    ghost function Out(m: Mode): seq<Token>
      reads this
    {
      match m
      case Write => write
      case Read => read
      case Move => move
      case Max => max
    }

    constructor ()
      ensures forall m :: Out(m) == []
      ensures props == [] && header == [] && impl == []
    {
      write, read, move, max, props, header, impl := [], [], [], [], [], [], [];
    }

    /** Every stream in the mask gains the text, every other stream stays as it is. */
    method Put(mask: set<Mode>, ts: seq<Token>)
      modifies `write, `read, `move, `max
      ensures forall m :: Out(m) == if m in mask then old(Out(m)) + ts else old(Out(m))
    {
      if Write in mask { write := write + ts; }
      if Read in mask { read := read + ts; }
      if Move in mask { move := move + ts; }
      if Max in mask { max := max + ts; }
    }

    /** The same statement over the accessor of each stream. */
    method PutBoth(op: Op, readOp: Op)
      requires Leaf(op) && Leaf(readOp)
      modifies `write, `read, `move, `max
      ensures forall m :: Out(m) == old(Out(m)) + FlattenAll([if m == Read then readOp else op])
    {
      Masks();
      LeafText(op);
      LeafText(readOp);
      hide *;
      Put(CONST, [Stmt(op)]);
      Put({Read}, [Stmt(readOp)]);
    }

    method WriteStreamingFunctions(env: Env, ty: Type, acc: Accessor, readAcc: Accessor, inVector: bool)
      requires !ty.Sequence?
      modifies `write, `read, `move, `max
      ensures forall m :: Out(m) == old(Out(m)) + FlattenAll(StreamOps(env, ty, Pick(m, acc, readAcc), inVector))
      decreases if ty.Named? then 1 else 0
    {
      hide FlattenAll; hide Out;
      match ty
      case Named(n) =>
        if n in env && env[n].Typedef? {
          var td := env[n];
          // an alias of a bare type is streamed as the bare type, unless its first declarator is an array
          if td.first == [] && !td.ty.Sequence? && (IsBaseType(td.ty) || td.ty.Str?) {
            WriteStreamingFunctions(env, td.ty, acc, readAcc, inVector);
          } else {
            PutBoth(Call(n, acc), Call(n, readAcc));
          }
        } else {
          PutBoth(Call(n, acc), Call(n, readAcc));
        }
      case Str(bound) =>
        PutBoth(Text(acc, bound), Text(readAcc, bound));
      case Num(num) =>
        if inVector && num.kind.Boolean? {
          PutBoth(BoolElement(acc, num), BoolElement(readAcc, num));
        } else {
          PutBoth(Prim(acc, num), Prim(readAcc, num));
        }
    }

    method SequenceWrites(env: Env, elem: Type, depth: nat, acc: Accessor, readAcc: Accessor)
      modifies `write, `read, `move, `max
      ensures forall m :: Out(m) == old(Out(m)) + FlattenAll(ElementOps(env, m, elem, depth, Pick(m, acc, readAcc)))
      decreases elem, 0
    {
      Masks();
      ElementText(env, elem, depth, acc, readAcc);
      hide *;
      if elem.Num? && !elem.num.kind.Boolean? {
        Put({Move}, [Stmt(BulkDefault(depth, elem.num))]);
        Put({Max}, [Stmt(BulkDefault(depth, elem.num))]);
        Put({Write}, [Stmt(BulkVector(acc, depth, elem.num))]);
        Put({Read}, [Stmt(BulkVector(readAcc, depth, elem.num))]);
        return;
      }
      Put(ALL, [Open(VectorLoop(depth))]);
      if elem.Sequence? {
        UnrollSequence(env, elem.elem, elem.bound, depth + 1, Element(acc, depth), Element(readAcc, depth));
      } else {
        WriteStreamingFunctions(env, elem, Element(acc, depth), Element(readAcc, depth), true);
      }
      Put(ALL, [Close(VectorLoop(depth))]);
      forall m ensures Out(m) == old(Out(m)) + FlattenAll(ElementOps(env, m, elem, depth, Pick(m, acc, readAcc))) {
        Associative4(old(Out(m)), [Open(VectorLoop(depth))], InnerText(env, m, elem, depth, acc, readAcc),
                     [Close(VectorLoop(depth))]);
      }
    }

    method OpenSequence(env: Env, elem: Type, bound: nat, depth: nat, acc: Accessor, readAcc: Accessor)
      modifies `write, `read, `move, `max
      ensures forall m :: Out(m) == old(Out(m)) + SequenceHead(env, m, elem, bound, depth, Pick(m, acc, readAcc))
    {
      Masks();
      forall m { HeadText(old(Out(m)), env, m, elem, bound, depth, Pick(m, acc, readAcc)); }
      hide *;
      Put(ALL, [Open(ConsecutiveOf(false, IsBaseType(Strip(env, elem))))]);
      Put({Read}, [Open(SequenceBlock(depth)), DeclareLength(depth, SizeOf(readAcc))]);
      Put({Write, Move}, [Open(SequenceBlock(depth)), DeclareLength(depth, SizeOf(acc))]);
      Put({Max}, [Open(SequenceBlock(depth)), DeclareLength(depth, Constant(bound))]);
      PutLength(elem, bound, depth, acc, readAcc);
    }

    method PutLength(elem: Type, bound: nat, depth: nat, acc: Accessor, readAcc: Accessor)
      modifies `write, `read, `move, `max
      ensures forall m ::
              Out(m) == WithLengthStreamed(old(Out(m)), m, elem, bound, depth, Pick(m, acc, readAcc))
    {
      Masks();
      hide Out; hide ALL; hide NOMAX;
      if bound > 0 { Put(NOMAX, [CheckBound(depth, bound)]); }
      Put(ALL, [StreamLength(depth)]);
      Put({Read}, [Resize(readAcc, depth, elem)]);
    }

    method UnrollSequence(env: Env, elem: Type, bound: nat, depth: nat, acc: Accessor, readAcc: Accessor)
      modifies `write, `read, `move, `max
      ensures forall m ::
              Out(m) == old(Out(m))
              + FlattenAll(VectorOps(env, m, elem, bound, depth, Pick(m, acc, readAcc)))
      decreases elem, 1
    {
      OpenSequence(env, elem, bound, depth, acc, readAcc);
      SequenceWrites(env, elem, depth, acc, readAcc);
      CloseSequence(env, elem, bound, depth);
      forall m ensures Out(m) == old(Out(m)) + FlattenAll(VectorOps(env, m, elem, bound, depth,
                                                                    Pick(m, acc, readAcc))) {
        hide *;
        var a := Pick(m, acc, readAcc);
        VectorText(env, m, elem, bound, depth, a);
        Associative4(old(Out(m)), SequenceHead(env, m, elem, bound, depth, a),
                     FlattenAll(ElementOps(env, m, elem, depth, a)),
                     SequenceTail(env, m, elem, bound, depth));
      }
    }

    method CloseSequence(env: Env, elem: Type, bound: nat, depth: nat)
      modifies `write, `read, `move, `max
      ensures forall m :: Out(m) == old(Out(m)) + SequenceTail(env, m, elem, bound, depth)
    {
      Masks();
      forall m { SequenceTailText(old(Out(m)), env, m, elem, bound, depth); }
      hide *;
      Put(ALL, [Close(SequenceBlock(depth))]);
      Put(ALL, [Close(ConsecutiveOf(false, IsBaseType(Strip(env, elem))))]);
      if bound == 0 { Put({Max}, [Stmt(Unbounded)]); }
    }

    /** Opens a loop for every dimension but one that can be copied in one go. */
    method OpenArray(env: Env, dims: seq<nat>, ty: Type, acc: Accessor, readAcc: Accessor)
      returns (nArr: nat, batchCopy: bool)
      modifies `write, `read, `move, `max
      ensures nArr == Loops(env, dims, ty) && batchCopy == (dims != [] && Strip(env, ty).Num?)
      ensures forall m :: Out(m) == old(Out(m)) + Opens(nArr, Pick(m, acc, readAcc))
    {
      Masks();
      hide Out; hide Opens; hide ALL; hide CONST; hide NOMAX; hide Strip;
      nArr, batchCopy := 0, false;
      forall m { OpensNone(Pick(m, acc, readAcc)); }
      while nArr < |dims|
        invariant nArr <= |dims| && !batchCopy
        invariant nArr > 0 && nArr == |dims| ==> !Strip(env, ty).Num?
        invariant forall m :: Out(m) == old(Out(m)) + Opens(nArr, Pick(m, acc, readAcc))
      {
        if nArr + 1 == |dims| && Strip(env, ty).Num? {
          batchCopy := true;
          break;
        }
        if nArr == 0 {
          Put(CONST, [Open(ArrayLoop(1)), Over(acc)]);
          Put({Read}, [Open(ArrayLoop(1)), Over(readAcc)]);
        } else {
          Put(ALL, [Open(ArrayLoop(nArr + 1)), Over(ArrayVar(nArr))]);
        }
        forall m ensures Out(m) == old(Out(m)) + Opens(nArr + 1, Pick(m, acc, readAcc)) {
          OpensNext(old(Out(m)), nArr, Pick(m, acc, readAcc));
        }
        nArr := nArr + 1;
      }
    }

    method CloseArray(n: nat)
      modifies `write, `read, `move, `max
      ensures forall m :: Out(m) == old(Out(m)) + Closes(n)
    {
      Masks();
      hide Out; hide ALL;
      var nArr := n;
      while nArr > 0
        invariant forall m :: Out(m) + Closes(nArr) == old(Out(m)) + Closes(n)
      {
        label Before:
        Put(ALL, [Close(ArrayLoop(nArr))]);
        forall m ensures Out(m) + Closes(nArr - 1) == old@Before(Out(m)) + Closes(nArr) {
          Associative(old@Before(Out(m)), [Close(ArrayLoop(nArr))], Closes(nArr - 1));
        }
        nArr := nArr - 1;
      }
    }

    method ProcessInner(env: Env, dims: seq<nat>, ty: Type, batchCopy: bool, acc: Accessor, readAcc: Accessor)
      requires batchCopy == (dims != [] && Strip(env, ty).Num?)
      modifies `write, `read, `move, `max
      ensures forall m :: Out(m) == old(Out(m)) + FlattenAll(InnerOps(env, m, dims, ty, Pick(m, acc, readAcc)))
    {
      hide FlattenAll; hide Out; hide Strip; hide StreamOps; hide VectorOps;
      if batchCopy {
        var num, dim := Strip(env, ty).num, dims[|dims| - 1];
        PutBoth(BulkArray(acc, num, dim), BulkArray(readAcc, num, dim));
      } else if ty.Sequence? {
        UnrollSequence(env, ty.elem, ty.bound, 1, acc, readAcc);
      } else {
        WriteStreamingFunctions(env, ty, acc, readAcc, false);
      }
    }

    method ProcessEntity(env: Env, dims: seq<nat>, ty: Type, acc: Accessor, readAcc: Accessor)
      modifies `write, `read, `move, `max
      ensures forall m :: Out(m) == old(Out(m)) + FlattenAll(EntityOps(env, m, dims, ty, Pick(m, acc, readAcc)))
    {
      Masks();
      var primitive := IsBaseType(Strip(env, ty));
      forall m { EntityText(old(Out(m)), env, m, dims, ty, Pick(m, acc, readAcc)); }
      Inner(acc, readAcc);
      hide *;
      if dims != [] {
        Put(ALL, [Open(ConsecutiveOf(true, primitive))]);
      }
      var nArr, batchCopy := OpenArray(env, dims, ty, acc, readAcc);
      var accessor, readAccessor := acc, readAcc;
      if nArr > 0 {
        accessor := ArrayVar(nArr);
        readAccessor := accessor;
      }
      ProcessInner(env, dims, ty, batchCopy, accessor, readAccessor);
      CloseArray(nArr);
      if dims != [] {
        Put(ALL, [Close(ConsecutiveOf(true, primitive))]);
      }
    }

    // ----- structs -----

    method AddMemberStart(decl: Declarator, acc: Accessor)
      modifies `write, `read, `move, `max
      ensures forall m :: Out(m) == old(Out(m)) + MemberHead(m, decl, acc)
    {
      Masks();
      forall m { HeadPieces(old(Out(m)), m, decl, acc); }
      hide *;
      Put(ALL, [Open(IdCase(decl.id)), Open(MemberOf)]);
      if decl.presence.External? {
        Put({Read}, [Allocate(acc)]);
        Put({Write, Move}, [RequireTarget(acc)]);
      } else if decl.presence.Optional? {
        Put({Write, Move}, [Open(HasValue(acc))]);
        Put({Read}, [Emplace(acc)]);
      }
    }

    method AddMemberFinish(decl: Declarator, acc: Accessor)
      modifies `write, `read, `move, `max
      ensures forall m :: Out(m) == old(Out(m)) + MemberTail(m, decl, acc)
    {
      Masks();
      forall m { TailPieces(old(Out(m)), m, decl, acc); }
      hide *;
      if decl.presence.Optional? {
        Put({Write, Move}, [Close(HasValue(acc))]);
      }
      Put(ALL, [Close(MemberOf), Close(IdCase(decl.id))]);
    }

    /** The cases of all declarators of a member. */
    method ProcessMember(env: Env, member: Member)
      modifies `write, `read, `move, `max
      ensures forall m :: Out(m) == old(Out(m)) + FieldsText(env, m, MemberFields(member))
    {
      Masks();
      hide Out; hide ALL; hide FieldsText; hide FlattenAll; hide EntityOps;
      ghost var fs := MemberFields(member);
      forall m { FieldsTextNone(old(Out(m)), env, m); }
      for k := 0 to |member.decls|
        invariant forall m :: Out(m) == old(Out(m)) + FieldsText(env, m, fs[..k])
      {
        label Before:
        var decl, acc := member.decls[k], Programs.Accessor.Member(member.decls[k].slot);
        AddMemberStart(decl, acc);
        ProcessEntity(env, decl.dims, member.ty, acc, acc);
        AddMemberFinish(decl, acc);
        forall m ensures Out(m) == old(Out(m)) + FieldsText(env, m, fs[..k + 1]) {
          assert Pick(m, acc, acc) == acc && fs[k] == Field(decl, member.ty);
          FieldText(old@Before(Out(m)), env, m, fs[k]);
          FieldsTextNext(old(Out(m)), env, m, fs, k);
        }
      }
      assert fs[..|member.decls|] == fs;
    }

    /** The entity properties of all members, going back over the inheritance from the farthest base. */
    method GenerateStructProperties(def: Def)
      requires Inheritance(def)
      modifies `props
      ensures props == old(props) + Ids(Fields(def))
    {
      hide Fields; hide FieldsOf;
      var nInheritances: nat := CountInheritances(def);
      while true
        invariant nInheritances <= Depth(def)
        invariant props == old(props) + Ids(Inherited(def, nInheritances + 1))
        decreases nInheritances
      {
        var base := WalkUp(def, nInheritances);
        AppendIds(base.members);
        InheritedStep(def, nInheritances);
        IdsAppend(Inherited(def, nInheritances + 1), FieldsOf(base.members));
        Associative(old(props), Ids(Inherited(def, nInheritances + 1)), Ids(FieldsOf(base.members)));
        if nInheritances == 0 { break; }
        nInheritances := nInheritances - 1;
      }
    }

    method AppendIds(members: seq<Member>)
      modifies `props
      ensures props == old(props) + Ids(FieldsOf(members))
    {
      for k := 0 to |members|
        invariant props == old(props) + Ids(FieldsOf(members[..k]))
      {
        ghost var was := props;
        var decls := members[k].decls;
        for l := 0 to |decls|
          invariant props == was + Ids(MemberFields(members[k])[..l])
        {
          props := props + [decls[l].id];
        }
        FieldsOfNext(members, k);
      }
      assert members[..|members|] == members;
    }

    static method CountInheritances(def: Def) returns (n: nat)
      requires Inheritance(def)
      ensures n == Depth(def)
    {
      var base := def;
      n := 0;
      while base.base.Inherits?
        invariant Inheritance(base) && n + Depth(base) == Depth(def)
        decreases base
      {
        base := base.base.def;
        n := n + 1;
      }
    }

    static method WalkUp(def: Def, n: nat) returns (base: Def)
      requires Inheritance(def) && n <= Depth(def)
      ensures base == Ancestor(def, n) && base.Struct?
    {
      base := def;
      for k := 0 to n
        invariant base == Ancestor(def, k)
      {
        AncestorStep(def, k);
        base := base.base.def;
      }
    }

    /** The table of properties, then a case for every member, both from the farthest base down. */
    method ProcessStructContents(env: Env, def: Def)
      requires Inheritance(def)
      modifies `write, `read, `move, `max, `props
      ensures props == old(props) + Ids(Fields(def))
      ensures forall m :: Out(m) == old(Out(m)) + FieldsText(env, m, Fields(def))
    {
      GenerateStructProperties(def);
      assert forall m :: Out(m) == old(Out(m));
      hide *;
      ProcessInherited(env, def);
    }

    method ProcessInherited(env: Env, def: Def)
      requires Inheritance(def)
      modifies `write, `read, `move, `max
      ensures forall m :: Out(m) == old(Out(m)) + FieldsText(env, m, Fields(def))
    {
      hide *;
      var toUnroll: nat := CountInheritances(def);
      toUnroll := toUnroll + 1;
      forall m { InheritedTextNone(old(Out(m)), env, m, def); }
      while true
        invariant 1 <= toUnroll <= Depth(def) + 1
        invariant forall m :: Out(m) == old(Out(m)) + InheritedText(env, m, def, toUnroll)
        decreases toUnroll
      {
        toUnroll := toUnroll - 1;
        ProcessAncestor(env, def, toUnroll);
        forall m ensures Out(m) == old(Out(m)) + InheritedText(env, m, def, toUnroll) {
          InheritedTextNext(old(Out(m)), env, m, def, toUnroll);
        }
        if toUnroll == 0 { break; }
      }
      forall m { InheritedTextAll(env, m, def); }
    }

    /** The cases of the members of the ancestor at this distance. */
    method ProcessAncestor(env: Env, def: Def, distance: nat)
      requires Inheritance(def) && distance <= Depth(def)
      modifies `write, `read, `move, `max
      ensures forall m :: Out(m) == old(Out(m)) + AncestorText(env, m, def, distance)
    {
      hide *;
      var base := WalkUp(def, distance);
      forall m { AncestorMembers(env, m, def, distance, base); }
      ProcessMembers(env, base.members);
    }

    method ProcessMembers(env: Env, members: seq<Member>)
      modifies `write, `read, `move, `max
      ensures forall m :: Out(m) == old(Out(m)) + FieldsText(env, m, FieldsOf(members))
    {
      hide Out; hide FieldsText;
      forall m { FieldsTextNone(old(Out(m)), env, m); }
      for k := 0 to |members|
        invariant forall m :: Out(m) == old(Out(m)) + FieldsText(env, m, FieldsOf(members[..k]))
      {
        ProcessMember(env, members[k]);
        forall m ensures Out(m) == old(Out(m)) + FieldsText(env, m, FieldsOf(members[..k + 1])) {
          MembersTextNext(old(Out(m)), env, m, members, k);
        }
      }
      assert members[..|members|] == members;
    }

    method ProcessStruct(env: Env, def: Def)
      requires Inheritance(def)
      modifies `write, `read, `move, `max, `props
      ensures props == old(props) + Ids(Fields(def))
      ensures forall m :: Out(m) == old(Out(m)) + ProgText(m, ProgOf(env, m, def))
    {
      Masks();
      var open := [Open(Bracket.Function), Open(Bracket.Struct)];
      var boxOpen := [Open(EntityLoop), Open(IdSwitch)];
      var boxClose := [Close(IdSwitch), Close(EntityLoop)];
      var close := [Close(Bracket.Struct), Close(Bracket.Function)];
      forall m { StructText(old(Out(m)), env, m, def); }
      hide *;
      Put(ALL, open);
      Put(ALL, boxOpen);
      ProcessStructContents(env, def);
      Put(ALL, boxClose);
      Put(ALL, close);
    }

    // ----- unions -----

    method ProcessSwitchTypeSpec(disc: NumType)
      modifies `write, `read, `move, `max
      ensures forall m :: Out(m) == old(Out(m)) + DiscriminatorText(m, disc)
    {
      Masks();
      hide Out; hide ALL;
      Put(ALL, [DeclareDiscriminator, StreamDiscriminator(disc)]);
      Put({Max}, [DeclareMaximum]);
      forall m ensures Out(m) == old(Out(m)) + DiscriminatorText(m, disc) {
        if m != Max {
          assert [DeclareDiscriminator, StreamDiscriminator(disc)]
                 + [] == [DeclareDiscriminator, StreamDiscriminator(disc)];
        }
      }
    }

    method ProcessCaseLabels(labels: Arm)
      modifies `write, `read, `move, `max
      ensures forall m :: Out(m) == if m == Max then old(Out(m)) else old(Out(m)) + LabelsText(labels)
    {
      Masks();
      forall m { LabelsNone(old(Out(m)), labels); }
      hide *;
      for k := 0 to |labels|
        invariant forall m :: Out(m) == if m == Max then old(Out(m)) else old(Out(m)) + LabelsTo(labels, k)
      {
        Put(NOMAX, [CaseLabel(labels[k])]);
        forall m { LabelsNext(old(Out(m)), labels, k); }
      }
      LabelsAll(labels);
    }

    /** The block of a branch. */
    method ProcessBlock(env: Env, c: Case, arm: nat)
      modifies `write, `read, `move, `max
      ensures forall m :: Out(m) == old(Out(m)) + BlockText(m, BranchingOf(env, m, c, arm), arm)
    {
      Masks();
      var single := |c.labels| == 1 && !c.labels[0].isDefault;
      forall m { BlockPieces(old(Out(m)), env, m, c, arm); }
      hide *;
      OpenBlock(arm);
      if c.keyed { Put(ALL, [Open(NotKey)]); }
      ProcessEntity(env, c.dims, c.ty, Branch(arm), Obj);
      if c.keyed { Put(ALL, [Close(NotKey)]); }
      CloseBlock(arm, single);
    }

    method OpenBlock(arm: nat)
      modifies `write, `read, `move, `max
      ensures forall m :: Out(m) == old(Out(m)) + BlockOpening(m, arm)
    {
      hide Out;
      Put({Write, Move}, [Open(CaseBlock)]);
      Put({Read}, [Open(CaseBlock), DeclareObj(arm)]);
      Put({Max}, [Open(CaseBlock), SavePosition]);
    }

    method CloseBlock(arm: nat, single: bool)
      modifies `write, `read, `move, `max
      ensures forall m :: Out(m) == old(Out(m)) + BlockClosing(m, arm, single)
    {
      hide Out;
      Put({Write, Move}, [Close(CaseBlock), Break]);
      Put({Read}, [SetBranch(arm, single), Close(CaseBlock), Break]);
      Put({Max}, [KeepLarger, RestorePosition, Close(CaseBlock)]);
    }

    method ProcessCase(env: Env, cases: seq<Case>, implicit: bool, arm: nat)
      requires arm < |cases|
      modifies `write, `read, `move, `max
      ensures forall m ::
              Out(m) == old(Out(m)) + EnterText(m, arm)
              + BranchText(m, BranchingOf(env, m, cases[arm], arm), arm)
              + LeaveText(m, implicit, arm + 1 == |cases|)
    {
      Masks();
      forall m { BranchPieces(old(Out(m)), env, m, cases[arm], arm); }
      hide *;
      if arm == 0 { Put(NOMAX, [Open(Bracket.Switch)]); }
      ProcessCaseLabels(cases[arm].labels);
      ProcessBlock(env, cases[arm], arm);
      forall m { LeavePieces(Out(m), m, implicit, arm + 1 == |cases|); }
      if arm + 1 == |cases| { LeaveSwitch(implicit); }
    }

    method LeaveSwitch(implicit: bool)
      modifies `write, `read, `move, `max
      ensures forall m :: Out(m) == old(Out(m)) + LeaveText(m, implicit, true)
    {
      Masks();
      forall m { LeavePieces(Out(m), m, implicit, true); }
      hide *;
      if implicit {
        Put({Read}, [DefaultLabel, SetDiscriminator]);
        Put({Write, Move}, [DefaultLabel, Break]);
      }
      Put(NOMAX, [Close(Bracket.Switch)]);
    }

    method ProcessUnion(env: Env, def: Def)
      requires def.Union? && def.cases != []
      modifies `write, `read, `move, `max
      ensures forall m :: Out(m) == old(Out(m)) + ProgText(m, ProgOf(env, m, def))
    {
      Masks();
      hide *;
      Put(ALL, [Open(Bracket.Function), Open(Bracket.Struct)]);
      ProcessSwitchTypeSpec(def.disc);
      label Started:
      forall m { CasesNone(Out(m), env, m, def); }
      for arm := 0 to |def.cases|
        invariant forall m ::
                Out(m) == old@Started(Out(m))
                + CasesTo(m, Branchings(env, m, def.cases), def.implicit, arm)
      {
        ProcessCase(env, def.cases, def.implicit, arm);
        forall m ensures Out(m) == old@Started(Out(m))
          + CasesTo(m, Branchings(env, m, def.cases), def.implicit, arm + 1) {
          BranchingAt(env, m, def.cases, arm);
          CasesNext(old@Started(Out(m)), m, Branchings(env, m, def.cases), def.implicit, arm);
        }
      }
      Put({Max}, [SetMaximum]);
      Put(ALL, [Close(Bracket.Struct), Close(Bracket.Function)]);
      forall m ensures Out(m) == old(Out(m)) + ProgText(m, ProgOf(env, m, def)) {
        UnionText(old(Out(m)), env, m, def);
      }
    }

    method ProcessTypedefDecl(env: Env, ty: Type, dims: seq<nat>)
      modifies `write, `read, `move, `max
      ensures forall m :: Out(m) == old(Out(m)) + ProgText(m, TypedefProg(EntityOps(env, m, dims, ty, Instance)))
    {
      Masks();
      hide Out; hide ALL; hide EntityOps; hide FlattenAll;
      Put(ALL, [Open(Bracket.Function)]);
      ProcessEntity(env, dims, ty, Instance, Instance);
      Put(ALL, [Close(Bracket.Function)]);
      forall m ensures Out(m) == old(Out(m)) + ProgText(m, TypedefProg(EntityOps(env, m, dims, ty, Instance))) {
        Associative4(old(Out(m)), [Open(Bracket.Function)], FlattenAll(EntityOps(env, m, dims, ty, Instance)),
                     [Close(Bracket.Function)]);
      }
    }

    // ----- files -----

    /** Moves all text to the files; the four functions of a definition end up one after the other. */
    method Flush()
      modifies this
      ensures forall m :: Out(m) == []
      ensures props == [] && impl == old(impl) + old(props)
      ensures header == old(header) + old(Out(Write)) + old(Out(Read)) + old(Out(Move)) + old(Out(Max))
    {
      impl, props := impl + props, [];
      header, write := header + write, [];
      header, read := header + read, [];
      header, move := header + move, [];
      header, max := header + max, [];
    }

    method ProcessDefinition(env: Env, def: Def)
      requires Generable(def)
      requires props == [] && forall m :: Out(m) == []
      modifies this
      ensures props == [] && forall m :: Out(m) == []
      ensures header == old(header) + DefText(env, def)
      ensures impl == old(impl) + Ids(Fields(def))
    {
      hide Out; hide ProgText; hide EntityOps; hide Entries; hide Branchings;
      match def {
        case Struct(_, _) =>
          ProcessStruct(env, def);
        case Union(_, _, _, _) =>
          ProcessUnion(env, def);
          NoFields(env, def);
        case Typedef(ty, dims, _) =>
          ProcessTypedefDecl(env, ty, dims);
          NoFields(env, def);
      }
      forall m { Units(ProgText(m, ProgOf(env, m, def)), []); }
      hide Fields;
      Flush();
      Associative5(old(header), ProgText(Write, ProgOf(env, Write, def)), ProgText(Read, ProgOf(env, Read, def)),
                   ProgText(Move, ProgOf(env, Move, def)), ProgText(Max, ProgOf(env, Max, def)));
    }

    /** The visit of a whole translation unit. */
    method GenerateStreamers(env: Env, defs: seq<Def>)
      requires forall k :: 0 <= k < |defs| ==> Generable(defs[k])
      requires props == [] && forall m :: Out(m) == []
      modifies this
      ensures header == old(header) + UnitText(env, defs)
      ensures impl == old(impl) + UnitIds(defs)
    {
      hide Out; hide DefText; hide Fields;
      for k := 0 to |defs|
        invariant props == [] && forall m :: Out(m) == []
        invariant header + UnitText(env, defs[k..]) == old(header) + UnitText(env, defs)
        invariant impl + UnitIds(defs[k..]) == old(impl) + UnitIds(defs)
      {
        ghost var was, had := header, impl;
        assert defs[k..][1..] == defs[k + 1..];
        ProcessDefinition(env, defs[k]);
        Associative(was, DefText(env, defs[k]), UnitText(env, defs[k + 1..]));
        Associative(had, Ids(Fields(defs[k])), UnitIds(defs[k + 1..]));
      }
      assert UnitText(env, defs[|defs|..]) == [] && UnitIds(defs[|defs|..]) == [];
    }
  }
}
