/**
  Which branches of a union have the same C++ type: types are flattened into arrays of numbers
  that are compared, so that a variant accessed by type lists every type once.
 */
module TypeIdentity {
  import opened Wrappers

  // ----- types -----

  datatype Kind =
    | Char | WChar | Bool | Octet
    | Int8 | UInt8 | Short | UShort | Int16 | UInt16 | Long | ULong | Int32 | UInt32 | LLong | ULLong | Int64 | UInt64
    | Float | Double | LDouble

  /**
    An alias is one declarator of a typedef. A constructed type is mentioned by a node, which is its
    definition or a forward declaration to it.
   */
  datatype Ty =
    | Basic(kind: Kind)
    | Sequence(elem: Ty, bound: nat)
    | Text(bound: nat)
    | Bitmask(bitBound: nat)
    | Constructed(tag: ConstructedTag, node: nat, definition: nat)
    | Alias(td: Typedef, declarator: nat)

  datatype Typedef = Typedef(ty: Ty, dims: seq<seq<nat>>)

  datatype ConstructedTag = StructTag | UnionTag | EnumTag

  /**
    The templates: whether the one for bounded types differs from the one for unbounded types,
    and whether the bound shows in what it renders.
   */
  datatype Options = Options(bseqUnique: bool, bstrUnique: bool, bseqShowsBound: bool, bstrShowsBound: bool)

  /** A C++ type, with typedefs expanded. */
  datatype Cpp =
    | Prim(kind: Kind)
    | Vector(elem: Cpp, variety: Variety)
    | String(variety: Variety)
    | Class(tag: ConstructedTag, definition: nat)
    | StdArray(size: nat, elem: Cpp)

  datatype Variety = Only | Unbounded | Bounded | BoundedBy(n: nat)

  /** C++ only has integers of fixed width. */
  function Fixed(kind: Kind): Kind {
    match kind
    case Octet => UInt8
    case Short => Int16
    case UShort => UInt16
    case Long => Int32
    case ULong => UInt32
    case LLong => Int64
    case ULLong => UInt64
    case _ => kind
  }

  function VarietyOf(unique: bool, showsBound: bool, bound: nat): Variety {
    if !unique then Only else if bound == 0 then Unbounded else if showsBound then BoundedBy(bound) else Bounded
  }

  /** The integer that a bitmask is declared as. */
  function DeclaredAs(bitBound: nat): Kind {
    if bitBound > 32 then UInt64 else if bitBound > 16 then UInt32 else if bitBound > 8 then UInt16 else UInt8
  }

  function Arrays(dims: seq<nat>, elem: Cpp): Cpp {
    if dims == [] then elem else StdArray(dims[0], Arrays(dims[1..], elem))
  }

  /** What the C++ compiler makes of the type of a branch. */
  function CppOf(o: Options, ty: Ty, dims: seq<nat>): Cpp
    requires Closed(ty)
    decreases ty
  {
    Arrays(dims,
      match ty
      case Basic(kind) => Prim(Fixed(kind))
      case Sequence(elem, bound) => Vector(CppOf(o, elem, []), VarietyOf(o.bseqUnique, o.bseqShowsBound, bound))
      case Text(bound) => String(VarietyOf(o.bstrUnique, o.bstrShowsBound, bound))
      case Bitmask(bitBound) => Prim(DeclaredAs(bitBound))
      case Constructed(tag, _, definition) => Class(tag, definition)
      case Alias(td, k) => CppOf(o, td.ty, td.dims[k]))
  }

  /** Every alias is a declarator of its typedef. */
  predicate Closed(ty: Ty) {
    match ty
    case Sequence(elem, _) => Closed(elem)
    case Alias(td, k) => k < |td.dims| && Closed(td.ty)
    case _ => true
  }

  // ----- flattening -----

  // Sizes have 32 bits, so setting a flag bit of a field is adding it.
  const ARRAY_SZ_FIELD := 0x8000_0000_0000_0000
  const BOUND_FIELD := 0x4000_0000_0000_0000
  const SZ_MAX := 1024

  /** Numbers for the parser's type fields, of which it only matters that they differ and are small. */
  function Field(kind: Kind): nat {
    match kind
    case Char => 1 case WChar => 2 case Bool => 3 case Octet => 4
    case Int8 => 5 case UInt8 => 6 case Short => 7 case UShort => 8 case Int16 => 9 case UInt16 => 10
    case Long => 11 case ULong => 12 case Int32 => 13 case UInt32 => 14
    case LLong => 15 case ULLong => 16 case Int64 => 17 case UInt64 => 18
    case Float => 19 case Double => 20 case LDouble => 21
  }

  const SEQUENCE_FIELD := 22
  const STRING_FIELD := 23

  function ConstructedField(tag: ConstructedTag): nat {
    match tag case StructTag => 24 case UnionTag => 25 case EnumTag => 26
  }

  /** The integer that a bitmask is flattened to. */
  function PushedAs(bitBound: nat): Kind {
    if bitBound >= 32 then UInt64 else if bitBound >= 16 then UInt32 else if bitBound >= 8 then UInt16 else UInt8
  }

  function DimFields(dims: seq<nat>): seq<nat> {
    if dims == [] then [] else (if dims[0] > 0 then [dims[0] + ARRAY_SZ_FIELD] else []) + DimFields(dims[1..])
  }

  function BoundFields(unique: bool, bound: nat): seq<nat> {
    if unique then [bound + BOUND_FIELD] else []
  }

  /** All fields of a type, the dimensions of its declarator first. */
  function Fields(o: Options, ty: Ty, dims: seq<nat>): seq<nat>
    requires Closed(ty)
    decreases ty, 1
  {
    DimFields(dims) + Head(o, ty)
  }

  /** Of a typedef only the first declarator is looked at. */
  function Head(o: Options, ty: Ty): seq<nat>
    requires Closed(ty)
    decreases ty, 0
  {
    match ty
    case Basic(kind) => [Field(Fixed(kind))]
    case Sequence(elem, bound) => [SEQUENCE_FIELD] + BoundFields(o.bseqUnique, bound) + Fields(o, elem, [])
    case Text(bound) => [STRING_FIELD] + BoundFields(o.bstrUnique, bound)
    case Bitmask(bitBound) => [Field(PushedAs(bitBound))]
    case Constructed(tag, node, _) => [ConstructedField(tag), node]
    case Alias(td, _) => Fields(o, td.ty, td.dims[0])
  }

  class TypeChecker {
    const info: array<nat>
    var idx: nat
    const o: Options

    ghost predicate Valid()
      reads this
    {
      idx <= info.Length == SZ_MAX
    }

    ghost function Pushed(): seq<nat>
      requires Valid()
      reads this, info
    {
      info[..idx]
    }

    constructor (o: Options)
      ensures Valid() && Pushed() == [] && this.o == o && fresh(info)
    {
      this.o := o;
      info := new nat[SZ_MAX];
      idx := 0;
    }

    method Push(field: nat) returns (ok: bool)
      requires Valid()
      modifies this`idx, info
      ensures Valid() && ok == (|old(Pushed())| < SZ_MAX)
      ensures Pushed() == if ok then old(Pushed()) + [field] else old(Pushed())
    {
      if idx >= SZ_MAX { return false; }
      info[idx] := field;
      idx := idx + 1;
      ok := true;
    }

    method PushArray(dims: seq<nat>) returns (ok: bool)
      requires Valid()
      modifies this`idx, info
      ensures Valid() && (ok <==> |old(Pushed())| + |DimFields(dims)| <= SZ_MAX)
      ensures ok ==> Pushed() == old(Pushed()) + DimFields(dims)
    {
      assert dims[0..] == dims;
      for k := 0 to |dims|
        invariant Valid() && Pushed() + DimFields(dims[k..]) == old(Pushed()) + DimFields(dims)
      {
        assert dims[k..][1..] == dims[k + 1..];
        if dims[k] > 0 {
          ghost var before := Pushed();
          Associative(before, [dims[k] + ARRAY_SZ_FIELD], DimFields(dims[k + 1..]));
          ok := Push(dims[k] + ARRAY_SZ_FIELD);
          if !ok {
            assert |before + DimFields(dims[k..])| > SZ_MAX;
            return;
          }
        }
      }
      assert DimFields(dims[|dims|..]) == [];
      assert Pushed() + [] == Pushed();
      ok := true;
    }

    method PushBound(unique: bool, bound: nat) returns (ok: bool)
      requires Valid()
      modifies this`idx, info
      ensures Valid() && (ok <==> |old(Pushed())| + |BoundFields(unique, bound)| <= SZ_MAX)
      ensures ok ==> Pushed() == old(Pushed()) + BoundFields(unique, bound)
    {
      ok := true;
      if unique { ok := Push(bound + BOUND_FIELD); }
    }

    /** Flattens a type, unless it does not fit. */
    method PushType(ty: Ty, dims: seq<nat>) returns (ok: bool)
      requires Valid() && Closed(ty)
      modifies this`idx, info
      ensures Valid() && (ok <==> |old(Pushed())| + |Fields(o, ty, dims)| <= SZ_MAX)
      ensures ok ==> Pushed() == old(Pushed()) + Fields(o, ty, dims)
      decreases ty, 1
    {
      hide DimFields; hide Head;
      ok := PushArray(dims);
      if !ok { return; }
      ok := PushHead(ty);
      Associative(old(Pushed()), DimFields(dims), Head(o, ty));
    }

    method PushHead(ty: Ty) returns (ok: bool)
      requires Valid() && Closed(ty)
      modifies this`idx, info
      ensures Valid() && (ok <==> |old(Pushed())| + |Head(o, ty)| <= SZ_MAX)
      ensures ok ==> Pushed() == old(Pushed()) + Head(o, ty)
      decreases ty, 0
    {
      hide Fields; hide BoundFields;
      match ty
      case Alias(td, _) => ok := PushType(td.ty, td.dims[0]);
      case Sequence(elem, bound) => ok := PushSequence(elem, bound);
      case Text(bound) => ok := PushString(bound);
      case Bitmask(bitBound) => ok := Push(Field(PushedAs(bitBound)));
      case Constructed(tag, node, _) => ok := PushConstrType(tag, node);
      case Basic(kind) => ok := Push(Field(Fixed(kind)));
    }

    method PushSequence(elem: Ty, bound: nat) returns (ok: bool)
      requires Valid() && Closed(elem)
      modifies this`idx, info
      ensures var fields := [SEQUENCE_FIELD] + BoundFields(o.bseqUnique, bound) + Fields(o, elem, []);
              Valid() && (ok <==> |old(Pushed())| + |fields| <= SZ_MAX) && (ok ==> Pushed() == old(Pushed()) + fields)
      decreases elem, 2
    {
      hide Fields; hide BoundFields;
      var a, b, c := [SEQUENCE_FIELD], BoundFields(o.bseqUnique, bound), Fields(o, elem, []);
      ok := Push(SEQUENCE_FIELD);
      if !ok { return; }
      ok := PushBound(o.bseqUnique, bound);
      if !ok { return; }
      ok := PushType(elem, []);
      assert old(Pushed()) + a + b + c == old(Pushed()) + (a + b + c);
    }

    method PushString(bound: nat) returns (ok: bool)
      requires Valid()
      modifies this`idx, info
      ensures var fields := [STRING_FIELD] + BoundFields(o.bstrUnique, bound);
              Valid() && (ok <==> |old(Pushed())| + |fields| <= SZ_MAX) && (ok ==> Pushed() == old(Pushed()) + fields)
    {
      hide BoundFields;
      ok := Push(STRING_FIELD);
      if !ok { return; }
      ok := PushBound(o.bstrUnique, bound);
      Associative(old(Pushed()), [STRING_FIELD], BoundFields(o.bstrUnique, bound));
    }

    method PushConstrType(tag: ConstructedTag, node: nat) returns (ok: bool)
      requires Valid()
      modifies this`idx, info
      ensures var fields := [ConstructedField(tag), node];
              Valid() && (ok <==> |old(Pushed())| + |fields| <= SZ_MAX) && (ok ==> Pushed() == old(Pushed()) + fields)
    {
      ok := Push(ConstructedField(tag));
      if ok { ok := Push(node); }
    }
  }

  // ----- unique decodability -----

  /** What the fields can tell: bit bounds away from the borders, and declarators like the first. */
  predicate Faithful(ty: Ty)
    requires Closed(ty)
  {
    match ty
    case Sequence(elem, _) => Faithful(elem)
    case Bitmask(bitBound) => bitBound != 8 && bitBound != 16 && bitBound != 32
    case Alias(td, k) => td.dims[k] == td.dims[0] && Positive(td.dims[0]) && Faithful(td.ty)
    case _ => true
  }

  /**
    The fields have the node by which a class is mentioned and know nothing of its definition. They
    can tell classes apart where every class is mentioned by one node only, which `nodes` gives for it.
   */
  predicate MentionedBy(ty: Ty, nodes: nat -> nat)
    requires Closed(ty)
  {
    match ty
    case Sequence(elem, _) => MentionedBy(elem, nodes)
    case Constructed(_, node, definition) => node == nodes(definition)
    case Alias(td, _) => MentionedBy(td.ty, nodes)
    case _ => true
  }

  ghost predicate OneToOne(nodes: nat -> nat) {
    forall i, j :: nodes(i) == nodes(j) ==> i == j
  }

  /** The parser rejects dimensions of zero. */
  predicate Positive(dims: seq<nat>) {
    forall k :: 0 <= k < |dims| ==> dims[k] > 0
  }

  /** Different templates for bounded types must show the bound. */
  predicate Telling(o: Options) {
    (o.bseqUnique ==> o.bseqShowsBound) && (o.bstrUnique ==> o.bstrShowsBound)
  }

  // ----- what integer kinds are -----

  datatype Sort = Character | WideCharacter | Truth | Number | Floating

  /** What values a kind has: the sort, the bits, and the sign. */
  datatype Form = Form(sort: Sort, bits: nat, signed: bool)

  function FormOf(kind: Kind): Form {
    match kind
    case Char => Form(Character, 8, true)
    case WChar => Form(WideCharacter, 16, false)
    case Bool => Form(Truth, 8, false)
    case Octet => Form(Number, 8, false)
    case Int8 => Form(Number, 8, true)
    case UInt8 => Form(Number, 8, false)
    case Short => Form(Number, 16, true)
    case UShort => Form(Number, 16, false)
    case Int16 => Form(Number, 16, true)
    case UInt16 => Form(Number, 16, false)
    case Long => Form(Number, 32, true)
    case ULong => Form(Number, 32, false)
    case Int32 => Form(Number, 32, true)
    case UInt32 => Form(Number, 32, false)
    case LLong => Form(Number, 64, true)
    case ULLong => Form(Number, 64, false)
    case Int64 => Form(Number, 64, true)
    case UInt64 => Form(Number, 64, false)
    case Float => Form(Floating, 32, true)
    case Double => Form(Floating, 64, true)
    case LDouble => Form(Floating, 128, true)
  }

  /** Integers of one width and sign are one C++ type, and nothing else is: its values are those of the kind. */
  lemma FixedKeepsForm(j: Kind, k: Kind)
    ensures FormOf(Fixed(k)) == FormOf(k)
    ensures Fixed(j) == Fixed(k) <==> FormOf(j) == FormOf(k)
  {
  }

  /** A bitmask is declared as the unsigned integer with the least bits that suffice. */
  lemma LeastInteger(bitBound: nat, k: Kind)
    requires bitBound <= 64
    ensures var f := FormOf(DeclaredAs(bitBound)); f.sort == Number && !f.signed && f.bits >= bitBound
    ensures FormOf(k).sort == Number && FormOf(k).bits >= bitBound ==>
              FormOf(k).bits >= FormOf(DeclaredAs(bitBound)).bits
  {
  }

  /** What shows of a bound: nothing where the templates are the same, and else whether there is one, or which. */
  lemma VarietyMeans(unique: bool, showsBound: bool, b: nat, c: nat)
    ensures VarietyOf(unique, showsBound, b) == VarietyOf(unique, showsBound, c) <==>
            !unique || (if showsBound then b == c else (b == 0 <==> c == 0))
  {
  }

  /** So arrays of basic types are told apart by their dimensions and by width, sign and sort. */
  lemma BasicTypes(o: Options, j: Kind, dims: seq<nat>, k: Kind, more: seq<nat>)
    ensures CppOf(o, Basic(j), dims) == CppOf(o, Basic(k), more) <==> dims == more && FormOf(j) == FormOf(k)
  {
    FixedKeepsForm(j, k);
    ArraysDecode(dims, Prim(Fixed(j)), more, Prim(Fixed(k)));
  }

  /** Typedefs expanded at the outside. */
  function Expand(ty: Ty, dims: seq<nat>): (r: (Ty, seq<nat>))
    requires Closed(ty)
    ensures Closed(r.0) && !r.0.Alias?
    ensures Faithful(ty) ==> Faithful(r.0) && (Positive(dims) ==> Positive(r.1))
    ensures r.0 == ty || r.0 < ty
    decreases ty
  {
    match ty
    case Alias(td, k) => Expand(td.ty, dims + td.dims[k])
    case _ => (ty, dims)
  }

  lemma {:induction false} ExpandKeepsNodes(ty: Ty, dims: seq<nat>, nodes: nat -> nat)
    requires Closed(ty) && MentionedBy(ty, nodes)
    ensures MentionedBy(Expand(ty, dims).0, nodes)
    decreases ty
  {
    if ty.Alias? { ExpandKeepsNodes(ty.td.ty, dims + ty.td.dims[ty.declarator], nodes); }
  }

  lemma {:induction false} ArraysAppend(a: seq<nat>, b: seq<nat>, elem: Cpp)
    ensures Arrays(a + b, elem) == Arrays(a, Arrays(b, elem))
  {
    if a == [] {
      assert a + b == b;
    } else {
      assert (a + b)[1..] == a[1..] + b;
      ArraysAppend(a[1..], b, elem);
    }
  }

  lemma {:induction false} DimFieldsAppend(a: seq<nat>, b: seq<nat>)
    ensures DimFields(a + b) == DimFields(a) + DimFields(b)
  {
    if a == [] {
      assert a + b == b;
    } else {
      assert (a + b)[1..] == a[1..] + b;
      DimFieldsAppend(a[1..], b);
    }
  }

  lemma {:induction false} ExpandKeepsCpp(o: Options, ty: Ty, dims: seq<nat>)
    requires Closed(ty)
    ensures var (t, d) := Expand(ty, dims); CppOf(o, ty, dims) == CppOf(o, t, d)
    decreases ty
  {
    if ty.Alias? {
      ExpandKeepsCpp(o, ty.td.ty, dims + ty.td.dims[ty.declarator]);
      ArraysOnly(o, ty.td.ty, ty.td.dims[ty.declarator]);
      ArraysOnly(o, ty.td.ty, dims + ty.td.dims[ty.declarator]);
      ArraysAppend(dims, ty.td.dims[ty.declarator], CppOf(o, ty.td.ty, []));
    }
  }

  lemma ArraysOnly(o: Options, ty: Ty, dims: seq<nat>)
    requires Closed(ty)
    ensures CppOf(o, ty, dims) == Arrays(dims, CppOf(o, ty, []))
  {
  }

  lemma {:induction false} ExpandKeepsFields(o: Options, ty: Ty, dims: seq<nat>)
    requires Closed(ty) && Faithful(ty)
    ensures var (t, d) := Expand(ty, dims); Fields(o, ty, dims) == Fields(o, t, d)
    decreases ty
  {
    if ty.Alias? {
      var more := ty.td.dims[ty.declarator];
      ExpandKeepsFields(o, ty.td.ty, dims + more);
      DimFieldsAppend(dims, more);
      hide DimFields;
      assert Head(o, ty) == DimFields(more) + Head(o, ty.td.ty);
      Associative(DimFields(dims), DimFields(more), Head(o, ty.td.ty));
    }
  }

  /** The dimensions end where a field is too small to be one. */
  lemma {:induction false} DimFieldsDecode(a: seq<nat>, x: seq<nat>, b: seq<nat>, y: seq<nat>)
    requires Positive(a) && Positive(b) && x != [] && y != [] && x[0] < ARRAY_SZ_FIELD && y[0] < ARRAY_SZ_FIELD
    ensures DimFields(a) + x == DimFields(b) + y <==> a == b && x == y
  {
    if a != [] && b != [] {
      var p, q := [a[0] + ARRAY_SZ_FIELD], [b[0] + ARRAY_SZ_FIELD];
      Associative(p, DimFields(a[1..]), x);
      Associative(q, DimFields(b[1..]), y);
      SingleDecode(p[0], DimFields(a[1..]) + x, q[0], DimFields(b[1..]) + y);
      DimFieldsDecode(a[1..], x, b[1..], y);
      assert a == [a[0]] + a[1..] && b == [b[0]] + b[1..];
    } else if a == [] {
      assert DimFields(a) + x == x;
      if b != [] { assert (DimFields(b) + y)[0] == b[0] + ARRAY_SZ_FIELD; } else { assert DimFields(b) + y == y; }
    } else {
      assert (DimFields(a) + x)[0] == a[0] + ARRAY_SZ_FIELD;
      assert DimFields(b) + y == y;
    }
  }

  lemma SingleDecode(p: nat, x: seq<nat>, q: nat, y: seq<nat>)
    ensures [p] + x == [q] + y <==> p == q && x == y
  {
    if [p] + x == [q] + y {
      assert ([p] + x)[0] == p && ([q] + y)[0] == q;
      assert ([p] + x)[1..] == x && ([q] + y)[1..] == y;
    }
  }

  lemma {:induction false} ArraysDecode(a: seq<nat>, x: Cpp, b: seq<nat>, y: Cpp)
    requires !x.StdArray? && !y.StdArray?
    ensures Arrays(a, x) == Arrays(b, y) <==> a == b && x == y
  {
    if a != [] && b != [] {
      ArraysDecode(a[1..], x, b[1..], y);
      assert a == [a[0]] + a[1..] && b == [b[0]] + b[1..];
    }
  }

  lemma FieldsDiffer(j: Kind, k: Kind)
    ensures Field(j) == Field(k) <==> j == k
    ensures Field(j) < SEQUENCE_FIELD
  {
  }

  lemma BoundDecode(unique: bool, shows: bool, b: nat, c: nat, x: seq<nat>, y: seq<nat>)
    requires unique ==> shows
    ensures BoundFields(unique, b) + x == BoundFields(unique, c) + y <==>
            VarietyOf(unique, shows, b) == VarietyOf(unique, shows, c) && x == y
  {
    if unique {
      SingleDecode(b + BOUND_FIELD, x, c + BOUND_FIELD, y);
    } else {
      assert [] + x == x && [] + y == y;
    }
  }

  /** The first field of a type without typedefs at the outside says which kind of type it is. */
  lemma HeadFirst(o: Options, ty: Ty)
    requires Closed(ty) && !ty.Alias?
    ensures Head(o, ty) != []
    ensures var f := Head(o, ty)[0];
            f < ARRAY_SZ_FIELD &&
            f == match ty
                 case Basic(kind) => Field(Fixed(kind))
                 case Sequence(_, _) => SEQUENCE_FIELD
                 case Text(_) => STRING_FIELD
                 case Bitmask(bitBound) => Field(PushedAs(bitBound))
                 case Constructed(tag, _, _) => ConstructedField(tag)
                 case Alias(_, _) => 0
  {
    hide Fields; hide BoundFields;
  }

  lemma {:induction false} HeadDecode(o: Options, nodes: nat -> nat, a: Ty, x: seq<nat>, b: Ty, y: seq<nat>)
    requires Closed(a) && Closed(b) && Faithful(a) && Faithful(b) && Telling(o) && !a.Alias? && !b.Alias?
    requires OneToOne(nodes) && MentionedBy(a, nodes) && MentionedBy(b, nodes)
    ensures Head(o, a) + x == Head(o, b) + y <==> CppOf(o, a, []) == CppOf(o, b, []) && x == y
    decreases a, b, 0
  {
    HeadFirst(o, a);
    HeadFirst(o, b);
    assert (Head(o, a) + x)[0] == Head(o, a)[0] && (Head(o, b) + y)[0] == Head(o, b)[0];
    match (a, b)
    case (Sequence(ea, na), Sequence(eb, nb)) =>
      SequenceDecode(o, nodes, ea, na, x, eb, nb, y);
    case (Text(na), Text(nb)) =>
      Associative([STRING_FIELD], BoundFields(o.bstrUnique, na), x);
      Associative([STRING_FIELD], BoundFields(o.bstrUnique, nb), y);
      SingleDecode(STRING_FIELD, BoundFields(o.bstrUnique, na) + x, STRING_FIELD, BoundFields(o.bstrUnique, nb) + y);
      BoundDecode(o.bstrUnique, o.bstrShowsBound, na, nb, x, y);
    case (Constructed(ta, na, da), Constructed(tb, nb, db)) =>
      assert na == nb <==> da == db by { assert nodes(da) == na && nodes(db) == nb; }
      assert [ConstructedField(ta), na] + x == [ConstructedField(ta)] + ([na] + x);
      assert [ConstructedField(tb), nb] + y == [ConstructedField(tb)] + ([nb] + y);
      SingleDecode(ConstructedField(ta), [na] + x, ConstructedField(tb), [nb] + y);
      SingleDecode(na, x, nb, y);
    case _ =>
      NumbersDecode(o, a, x, b, y);
  }

  predicate IsNumber(ty: Ty) { ty.Basic? || ty.Bitmask? }

  lemma NumbersDecode(o: Options, a: Ty, x: seq<nat>, b: Ty, y: seq<nat>)
    requires Closed(a) && Closed(b) && Faithful(a) && Faithful(b) && !a.Alias? && !b.Alias?
    requires IsNumber(a) || IsNumber(b) || (a.Sequence? && !b.Sequence?) || (a.Text? && !b.Text?) ||
             (a.Constructed? && !b.Constructed?)
    ensures Head(o, a) + x == Head(o, b) + y <==> CppOf(o, a, []) == CppOf(o, b, []) && x == y
  {
    HeadFirst(o, a);
    HeadFirst(o, b);
    assert (Head(o, a) + x)[0] == Head(o, a)[0] && (Head(o, b) + y)[0] == Head(o, b)[0];
    if IsNumber(a) && IsNumber(b) {
      var ka := if a.Basic? then Fixed(a.kind) else DeclaredAs(a.bitBound);
      var kb := if b.Basic? then Fixed(b.kind) else DeclaredAs(b.bitBound);
      FieldsDiffer(ka, kb);
      SingleDecode(Field(ka), x, Field(kb), y);
    } else {
      if IsNumber(a) { FieldsDiffer(if a.Basic? then Fixed(a.kind) else PushedAs(a.bitBound), Char); }
      if IsNumber(b) { FieldsDiffer(if b.Basic? then Fixed(b.kind) else PushedAs(b.bitBound), Char); }
    }
  }

  lemma SequenceParts(o: Options, elem: Ty, n: nat, x: seq<nat>)
    requires Closed(elem)
    ensures Head(o, Sequence(elem, n)) + x == [SEQUENCE_FIELD]
            + (BoundFields(o.bseqUnique, n) + (Fields(o, elem, []) + x))
    ensures CppOf(o, Sequence(elem, n), []) == Vector(CppOf(o, elem, []), VarietyOf(o.bseqUnique, o.bseqShowsBound, n))
  {
    hide Fields; hide BoundFields;
  }

  lemma {:induction false} SequenceDecode(o: Options, nodes: nat -> nat, ea: Ty, na: nat, x: seq<nat>, eb: Ty, nb: nat,
                                          y: seq<nat>)
    requires Closed(ea) && Closed(eb) && Faithful(ea) && Faithful(eb) && Telling(o)
    requires OneToOne(nodes) && MentionedBy(ea, nodes) && MentionedBy(eb, nodes)
    ensures Head(o, Sequence(ea, na)) + x == Head(o, Sequence(eb, nb)) + y <==>
            CppOf(o, Sequence(ea, na), []) == CppOf(o, Sequence(eb, nb), []) && x == y
    decreases Sequence(ea, na), eb, 2
  {
    var ba, bb := BoundFields(o.bseqUnique, na), BoundFields(o.bseqUnique, nb);
    var fa, fb := Fields(o, ea, []), Fields(o, eb, []);
    hide Fields; hide BoundFields; hide CppOf; hide Head; hide VarietyOf; hide Faithful; hide Closed;
    hide MentionedBy; hide OneToOne;
    FaithfulDecode(o, nodes, ea, [], x, eb, [], y);
    BoundDecode(o.bseqUnique, o.bseqShowsBound, na, nb, fa + x, fb + y);
    SingleDecode(SEQUENCE_FIELD, ba + (fa + x), SEQUENCE_FIELD, bb + (fb + y));
    SequenceParts(o, ea, na, x);
    SequenceParts(o, eb, nb, y);
  }

  lemma {:induction false} FaithfulDecode(o: Options, nodes: nat -> nat, a: Ty, da: seq<nat>, x: seq<nat>, b: Ty,
                                          db: seq<nat>, y: seq<nat>)
    requires Closed(a) && Closed(b) && Faithful(a) && Faithful(b) && Telling(o) && Positive(da) && Positive(db)
    requires OneToOne(nodes) && MentionedBy(a, nodes) && MentionedBy(b, nodes)
    ensures Fields(o, a, da) + x == Fields(o, b, db) + y <==> CppOf(o, a, da) == CppOf(o, b, db) && x == y
    decreases a, b, 1
  {
    var (ta, xa) := Expand(a, da);
    var (tb, xb) := Expand(b, db);
    ExpandKeepsCpp(o, a, da);
    ExpandKeepsCpp(o, b, db);
    ExpandKeepsFields(o, a, da);
    ExpandKeepsFields(o, b, db);
    ExpandKeepsNodes(a, da, nodes);
    ExpandKeepsNodes(b, db, nodes);
    HeadDecode(o, nodes, ta, x, tb, y);
    hide MentionedBy; hide OneToOne;
    ArraysOnly(o, ta, xa);
    ArraysOnly(o, tb, xb);
    NoArray(o, ta);
    NoArray(o, tb);
    ArraysDecode(xa, CppOf(o, ta, []), xb, CppOf(o, tb, []));
    HeadFirst(o, ta);
    HeadFirst(o, tb);
    Associative(DimFields(xa), Head(o, ta), x);
    Associative(DimFields(xb), Head(o, tb), y);
    hide Head; hide CppOf; hide DimFields;
    assert (Head(o, ta) + x)[0] == Head(o, ta)[0] && (Head(o, tb) + y)[0] == Head(o, tb)[0];
    DimFieldsDecode(xa, Head(o, ta) + x, xb, Head(o, tb) + y);
  }

  lemma NoArray(o: Options, ty: Ty)
    requires Closed(ty) && !ty.Alias?
    ensures !CppOf(o, ty, []).StdArray?
  {
  }

  // ----- what flattening sees of a type -----

  /** The type as it is flattened: bitmasks as integers, aliases by their first declarator, nodes for definitions. */
  function Normal(ty: Ty): (r: Ty)
    requires Closed(ty)
    ensures Closed(r) && Faithful(r) && MentionedBy(r, Itself)
  {
    match ty
    case Sequence(elem, bound) => Sequence(Normal(elem), bound)
    case Constructed(tag, node, _) => Constructed(tag, node, node)
    case Bitmask(bitBound) => Basic(PushedAs(bitBound))
    case Alias(td, _) => Alias(Typedef(Normal(td.ty), [NonZero(td.dims[0])]), 0)
    case _ => ty
  }

  function Itself(n: nat): nat { n }

  function NonZero(dims: seq<nat>): (r: seq<nat>)
    ensures Positive(r) && (Positive(dims) ==> r == dims)
  {
    if dims == [] then [] else (if dims[0] > 0 then [dims[0]] else []) + NonZero(dims[1..])
  }

  /** The same options with templates that show every bound, as the fields do. */
  function Told(o: Options): (r: Options)
    ensures Telling(r)
  {
    o.(bseqShowsBound := true, bstrShowsBound := true)
  }

  /** The C++ type that a type is taken for. */
  function Seen(o: Options, ty: Ty, dims: seq<nat>): Cpp
    requires Closed(ty)
  {
    CppOf(Told(o), Normal(ty), NonZero(dims))
  }

  lemma {:induction false} NonZeroFields(dims: seq<nat>)
    ensures DimFields(NonZero(dims)) == DimFields(dims)
  {
    if dims != [] {
      NonZeroFields(dims[1..]);
      if dims[0] > 0 {
        assert NonZero(dims)[1..] == NonZero(dims[1..]);
      } else {
        assert [] + NonZero(dims[1..]) == NonZero(dims[1..]);
        assert [] + DimFields(dims[1..]) == DimFields(dims[1..]);
      }
    }
  }

  lemma {:induction false} NormalFields(o: Options, ty: Ty, dims: seq<nat>)
    requires Closed(ty)
    ensures Fields(Told(o), Normal(ty), NonZero(dims)) == Fields(o, ty, dims)
    decreases ty
  {
    NonZeroFields(dims);
    match ty
    case Sequence(elem, _) => NormalFields(o, elem, []);
    case Alias(td, _) => NormalFields(o, td.ty, td.dims[0]);
    case _ =>
  }

  /** Flattening is uniquely decodable: neither what it sees of the types nor what follows can be mistaken. */
  lemma FieldsDecode(o: Options, a: Ty, da: seq<nat>, x: seq<nat>, b: Ty, db: seq<nat>, y: seq<nat>)
    requires Closed(a) && Closed(b)
    ensures Fields(o, a, da) + x == Fields(o, b, db) + y <==> Seen(o, a, da) == Seen(o, b, db) && x == y
  {
    NormalFields(o, a, da);
    NormalFields(o, b, db);
    hide Fields; hide CppOf; hide Normal; hide NonZero;
    FaithfulDecode(Told(o), Itself, Normal(a), NonZero(da), x, Normal(b), NonZero(db), y);
  }

  /**
    For faithful types, in which every class is mentioned by one node, and templates that show the
    bounds they tell apart, types are taken for the same if and only if they are the same in C++.
   */
  lemma SeenAsCpp(o: Options, nodes: nat -> nat, a: Ty, da: seq<nat>, b: Ty, db: seq<nat>)
    requires Closed(a) && Closed(b) && Faithful(a) && Faithful(b) && Telling(o) && Positive(da) && Positive(db)
    requires OneToOne(nodes) && MentionedBy(a, nodes) && MentionedBy(b, nodes)
    ensures Seen(o, a, da) == Seen(o, b, db) <==> CppOf(o, a, da) == CppOf(o, b, db)
  {
    hide *;
    FieldsDecode(o, a, da, [], b, db, []);
    FaithfulDecode(o, nodes, a, da, [], b, db, []);
  }

  // ----- where flattening and C++ disagree -----

  /** A bitmask is taken for the integer it is declared as, except at the borders. */
  lemma BitmaskBorders(o: Options, bitBound: nat)
    ensures Fields(o, Bitmask(bitBound), []) == Fields(o, Basic(DeclaredAs(bitBound)), []) <==>
            bitBound != 8 && bitBound != 16 && bitBound != 32
  {
    FieldsDiffer(PushedAs(bitBound), DeclaredAs(bitBound));
    FieldsAreHead(o, Bitmask(bitBound));
    FieldsAreHead(o, Basic(DeclaredAs(bitBound)));
  }

  /** An alias is taken for what it stands for exactly when its dimensions are those of the first declarator. */
  lemma LaterDeclarators(o: Options, td: Typedef, k: nat)
    requires Closed(Alias(td, k)) && Faithful(td.ty) && Positive(td.dims[0]) && Positive(td.dims[k])
    ensures Fields(o, Alias(td, k), []) == Fields(o, td.ty, td.dims[k]) <==> td.dims[k] == td.dims[0]
  {
    var a, b, h := td.dims[0], td.dims[k], Head(o, td.ty);
    var (t, d) := Expand(td.ty, []);
    ExpandKeepsFields(o, td.ty, []);
    FieldsAreHead(o, td.ty);
    FieldsAreHead(o, Alias(td, k));
    HeadFirst(o, t);
    DimFieldsAppend(a, d);
    DimFieldsAppend(b, d);
    Associative(DimFields(a), DimFields(d), Head(o, t));
    Associative(DimFields(b), DimFields(d), Head(o, t));
    assert Fields(o, Alias(td, k), []) == DimFields(a + d) + Head(o, t);
    assert Fields(o, td.ty, b) == DimFields(b + d) + Head(o, t);
    assert Positive(a + d) && Positive(b + d);
    DimFieldsDecode(a + d, Head(o, t), b + d, Head(o, t));
    SameSuffix(a, b, d);
  }

  lemma SameSuffix(a: seq<nat>, b: seq<nat>, d: seq<nat>)
    ensures a + d == b + d <==> a == b
  {
    if a + d == b + d {
      assert |a| == |b|;
      assert (a + d)[..|a|] == a && (b + d)[..|b|] == b;
    }
  }

  /**
    `struct N; typedef sequence<N> Ns; struct N { ... };` and then Ns and `sequence<N>`: one type in C++,
    which is taken for one exactly when both mention the class by the same node.
   */
  lemma ForwardNodes(o: Options, tag: ConstructedTag, definition: nat, n: nat, m: nat, bound: nat)
    ensures var a := Sequence(Constructed(tag, n, definition), bound);
            var b := Sequence(Constructed(tag, m, definition), bound);
            && Faithful(a) && Faithful(b) && CppOf(o, a, []) == CppOf(o, b, [])
            && (Fields(o, a, []) == Fields(o, b, []) <==> n == m)
  {
    var a, b := Constructed(tag, n, definition), Constructed(tag, m, definition);
    FieldsAreHead(o, a);
    FieldsAreHead(o, b);
    FieldsAreHead(o, Sequence(a, bound));
    FieldsAreHead(o, Sequence(b, bound));
    var head := [SEQUENCE_FIELD] + BoundFields(o.bseqUnique, bound);
    assert Fields(o, Sequence(a, bound), []) == head + [ConstructedField(tag), n];
    assert Fields(o, Sequence(b, bound), []) == head + [ConstructedField(tag), m];
    assert (head + [ConstructedField(tag), n])[|head| + 1] == n && (head + [ConstructedField(tag), m])[|head| + 1] == m;
  }

  /** Sequences with different bounds are told apart as C++ does exactly when their template does. */
  lemma SequenceBounds(o: Options, elem: Ty, n: nat, m: nat)
    requires Closed(elem) && 0 < n < m
    ensures (Fields(o, Sequence(elem, n), []) == Fields(o, Sequence(elem, m), []) <==>
             CppOf(o, Sequence(elem, n), []) == CppOf(o, Sequence(elem, m), [])) <==>
            (o.bseqUnique ==> o.bseqShowsBound)
  {
    var f := Fields(o, elem, []);
    var a, b := BoundFields(o.bseqUnique, n), BoundFields(o.bseqUnique, m);
    if o.bseqUnique {
      assert ([SEQUENCE_FIELD] + a + f)[1] == n + BOUND_FIELD && ([SEQUENCE_FIELD] + b + f)[1] == m + BOUND_FIELD;
    }
    hide Fields;
    assert DimFields([]) == [];
    FieldsAreHead(o, Sequence(elem, n));
    FieldsAreHead(o, Sequence(elem, m));
  }

  /** And so are strings. */
  lemma StringBounds(o: Options, n: nat, m: nat)
    requires 0 < n < m
    ensures (Fields(o, Text(n), []) == Fields(o, Text(m), []) <==> CppOf(o, Text(n), []) == CppOf(o, Text(m), [])) <==>
            (o.bstrUnique ==> o.bstrShowsBound)
  {
    var a, b := BoundFields(o.bstrUnique, n), BoundFields(o.bstrUnique, m);
    if o.bstrUnique {
      assert ([STRING_FIELD] + a)[1] == n + BOUND_FIELD && ([STRING_FIELD] + b)[1] == m + BOUND_FIELD;
    }
    hide Fields;
    FieldsAreHead(o, Text(n));
    FieldsAreHead(o, Text(m));
  }

  lemma FieldsAreHead(o: Options, ty: Ty)
    requires Closed(ty)
    ensures Fields(o, ty, []) == Head(o, ty)
  {
    assert [] + Head(o, ty) == Head(o, ty);
  }

  // ----- the list of alternatives -----

  datatype Branch = Branch(ty: Ty, dims: seq<nat>)

  predicate ClosedBranches(bs: seq<Branch>) {
    forall k :: 0 <= k < |bs| ==> Closed(bs[k].ty)
  }

  /** Nothing in the types of the branches is of those that flattening and C++ disagree about. */
  ghost predicate Tellable(bs: seq<Branch>, nodes: nat -> nat)
    requires ClosedBranches(bs)
  {
    OneToOne(nodes) &&
    forall k :: 0 <= k < |bs| ==> Faithful(bs[k].ty) && Positive(bs[k].dims) && MentionedBy(bs[k].ty, nodes)
  }

  function BranchFields(o: Options, bs: seq<Branch>): (r: seq<seq<nat>>)
    requires ClosedBranches(bs)
    ensures |r| == |bs|
  {
    seq(|bs|, k requires 0 <= k < |bs| => Fields(o, bs[k].ty, bs[k].dims))
  }

  function BranchesSeen(o: Options, bs: seq<Branch>): (r: seq<Cpp>)
    requires ClosedBranches(bs)
    ensures |r| == |bs|
  {
    seq(|bs|, k requires 0 <= k < |bs| => Seen(o, bs[k].ty, bs[k].dims))
  }

  function BranchCpps(o: Options, bs: seq<Branch>): (r: seq<Cpp>)
    requires ClosedBranches(bs)
    ensures |r| == |bs|
  {
    seq(|bs|, k requires 0 <= k < |bs| => CppOf(o, bs[k].ty, bs[k].dims))
  }

  /** Whether two types are taken for the same C++ type; None when one of them does not fit. */
  method IsSameType(o: Options, a: Branch, b: Branch, ghost nodes: nat -> nat) returns (r: Option<bool>)
    requires Closed(a.ty) && Closed(b.ty)
    ensures r.Some? <==> |Fields(o, a.ty, a.dims)| <= SZ_MAX && |Fields(o, b.ty, b.dims)| <= SZ_MAX
    ensures r.Some? ==> (r.value <==> Seen(o, a.ty, a.dims) == Seen(o, b.ty, b.dims))
    ensures r.Some? && Telling(o) && Tellable([a, b], nodes) ==>
              (r.value <==> CppOf(o, a.ty, a.dims) == CppOf(o, b.ty, b.dims))
    ensures r.Some? && a.ty.Basic? && b.ty.Basic? && Positive(a.dims) && Positive(b.dims) ==>
              (r.value <==> a.dims == b.dims && FormOf(a.ty.kind) == FormOf(b.ty.kind))
  {
    SameFields(o, a, b);
    SeenMeans(o, a, b, nodes);
    hide Fields; hide CppOf; hide Seen; hide Faithful; hide Positive; hide Telling; hide Tellable; hide FormOf;
    var tcA := new TypeChecker(o);
    var tcB := new TypeChecker(o);
    var ok := tcA.PushType(a.ty, a.dims);
    if !ok { return None; }
    ok := tcB.PushType(b.ty, b.dims);
    if !ok { return None; }
    r := Some(tcA.info[..tcA.idx] == tcB.info[..tcB.idx]);
  }

  lemma SeenMeans(o: Options, a: Branch, b: Branch, nodes: nat -> nat)
    requires Closed(a.ty) && Closed(b.ty)
    ensures Telling(o) && Tellable([a, b], nodes) ==>
              (Seen(o, a.ty, a.dims) == Seen(o, b.ty, b.dims) <==> CppOf(o, a.ty, a.dims) == CppOf(o, b.ty, b.dims))
    ensures a.ty.Basic? && b.ty.Basic? && Positive(a.dims) && Positive(b.dims) ==>
              (Seen(o, a.ty, a.dims) == Seen(o, b.ty, b.dims) <==>
               a.dims == b.dims && FormOf(a.ty.kind) == FormOf(b.ty.kind))
  {
    hide Seen; hide CppOf; hide Faithful; hide Positive; hide Telling; hide FormOf; hide OneToOne; hide MentionedBy;
    if Tellable([a, b], nodes) && Telling(o) {
      assert [a, b][0] == a && [a, b][1] == b;
      SeenAsCpp(o, nodes, a.ty, a.dims, b.ty, b.dims);
    }
    if a.ty.Basic? && b.ty.Basic? && Positive(a.dims) && Positive(b.dims) { BasicSeen(o, a, b); }
  }

  lemma BasicSeen(o: Options, a: Branch, b: Branch)
    requires a.ty.Basic? && b.ty.Basic? && Positive(a.dims) && Positive(b.dims)
    ensures Seen(o, a.ty, a.dims) == Seen(o, b.ty, b.dims) <==>
            a.dims == b.dims && FormOf(a.ty.kind) == FormOf(b.ty.kind)
  {
    hide FormOf; hide CppOf;
    BasicTypes(Told(o), a.ty.kind, a.dims, b.ty.kind, b.dims);
  }

  lemma SameFields(o: Options, a: Branch, b: Branch)
    requires Closed(a.ty) && Closed(b.ty)
    ensures Fields(o, a.ty, a.dims) == Fields(o, b.ty, b.dims) <==> Seen(o, a.ty, a.dims) == Seen(o, b.ty, b.dims)
    ensures [] + Fields(o, a.ty, a.dims) == Fields(o, a.ty, a.dims) &&
            [] + Fields(o, b.ty, b.dims) == Fields(o, b.ty, b.dims)
  {
    hide *;
    FieldsDecode(o, a.ty, a.dims, [], b.ty, b.dims, []);
    assert Fields(o, a.ty, a.dims) + [] == Fields(o, a.ty, a.dims) &&
           Fields(o, b.ty, b.dims) + [] == Fields(o, b.ty, b.dims);
  }

  /** No two of the chosen have the same key, and everything has the key of a chosen one. */
  ghost predicate Represents<K(!new)>(keys: seq<K>, list: seq<nat>) {
    && (forall j :: 0 <= j < |list| ==> list[j] < |keys|)
    && (forall i, j :: 0 <= i < j < |list| ==> keys[list[i]] != keys[list[j]])
    && (forall k :: 0 <= k < |keys| ==> Chosen(keys, list, keys[k]))
  }

  predicate Chosen<K(==)>(keys: seq<K>, list: seq<nat>, key: K) {
    exists j :: 0 <= j < |list| && list[j] < |keys| && keys[list[j]] == key
  }

  /** Whether a type taken for the same as that of branch `k` is in the list already. */
  method AlreadyPresent(o: Options, bs: seq<Branch>, list: seq<nat>, k: nat) returns (r: Option<bool>)
    requires ClosedBranches(bs) && k < |bs| && forall j :: 0 <= j < |list| ==> list[j] < |bs|
    ensures r.Some? ==> (r.value <==> Chosen(BranchesSeen(o, bs), list, BranchesSeen(o, bs)[k]))
    ensures r == None ==> exists j :: 0 <= j < |bs| && |BranchFields(o, bs)[j]| > SZ_MAX
  {
    hide Fields; hide CppOf; hide Faithful; hide Seen;
    ghost var keys := BranchesSeen(o, bs);
    for j := 0 to |list|
      invariant forall i :: 0 <= i < j ==> keys[list[i]] != keys[k]
    {
      r := IsSameType(o, bs[list[j]], bs[k], Itself);
      if r == None { assert |BranchFields(o, bs)[list[j]]| > SZ_MAX || |BranchFields(o, bs)[k]| > SZ_MAX; }
      if r != Some(false) { return; }
    }
    r := Some(false);
  }

  /** The branches whose types become the alternatives of the variant; None when a type does not fit. */
  method Deduplicate(o: Options, bs: seq<Branch>, ghost nodes: nat -> nat) returns (r: Option<seq<nat>>)
    requires ClosedBranches(bs)
    ensures r.Some? ==> Represents(BranchesSeen(o, bs), r.value)
    ensures r.None? ==> exists k :: 0 <= k < |bs| && |BranchFields(o, bs)[k]| > SZ_MAX
    ensures r.Some? && Telling(o) && Tellable(bs, nodes) ==> Represents(BranchCpps(o, bs), r.value)
  {
    hide Represents; hide Chosen; hide BranchFields; hide BranchCpps; hide BranchesSeen;
    ghost var keys := BranchesSeen(o, bs);
    var list: seq<nat> := [];
    RepresentsNone(keys);
    for k := 0 to |bs|
      invariant forall j :: 0 <= j < |list| ==> list[j] < k
      invariant Represents(keys[..k], list)
    {
      var present := AlreadyPresent(o, bs, list, k);
      if present == None { return None; }
      OneMore(keys, list, k);
      if !present.value { list := list + [k]; }
    }
    assert keys[..|bs|] == keys;
    if Telling(o) && Tellable(bs, nodes) { CppsRepresented(o, bs, nodes, list); }
    r := Some(list);
  }

  lemma RepresentsNone<K(!new)>(keys: seq<K>)
    ensures Represents(keys[..0], [])
  {
  }

  lemma OneMore<K(!new)>(keys: seq<K>, list: seq<nat>, k: nat)
    requires k < |keys| && Represents(keys[..k], list)
    ensures Represents(keys[..k + 1], if Chosen(keys, list, keys[k]) then list else list + [k])
  {
    var all := if Chosen(keys, list, keys[k]) then list else list + [k];
    var before, after := keys[..k], keys[..k + 1];
    assert forall j :: 0 <= j < |list| ==>
              list[j] < k && all[j] == list[j] &&
              before[list[j]] == after[list[j]] == keys[list[j]];
    forall i | 0 <= i < |after| ensures Chosen(after, all, after[i]) {
      if i < k {
        assert Chosen(before, list, before[i]);
        ChosenLater(before, after, list, all, after[i]);
      } else if Chosen(keys, list, keys[k]) {
        ChosenLater(keys, after, list, all, after[i]);
      } else {
        assert all[|list|] == k;
      }
    }
    if !Chosen(keys, list, keys[k]) {
      assert forall j :: 0 <= j < |list| ==> after[list[j]] != after[k];
    }
  }

  lemma ChosenLater<K(!new)>(before: seq<K>, after: seq<K>, list: seq<nat>, all: seq<nat>, key: K)
    requires Chosen(before, list, key) && |list| <= |all|
    requires forall j :: 0 <= j < |list| ==>
              list[j] < |before| && all[j] == list[j] < |after| &&
              before[list[j]] == after[list[j]]
    ensures Chosen(after, all, key)
  {
    var j :| 0 <= j < |list| && list[j] < |before| && before[list[j]] == key;
    assert all[j] == list[j];
  }

  /** For branches that can be told apart these are the alternatives of the variant: no C++ type twice, and all. */
  lemma CppsRepresented(o: Options, bs: seq<Branch>, nodes: nat -> nat, list: seq<nat>)
    requires ClosedBranches(bs) && Tellable(bs, nodes) && Telling(o) && Represents(BranchesSeen(o, bs), list)
    ensures Represents(BranchCpps(o, bs), list)
  {
    hide Seen; hide CppOf; hide Faithful; hide Positive; hide Telling; hide OneToOne; hide MentionedBy;
    forall j, k | 0 <= j < |bs| && 0 <= k < |bs|
      ensures BranchesSeen(o, bs)[j] == BranchesSeen(o, bs)[k] <==> BranchCpps(o, bs)[j] == BranchCpps(o, bs)[k]
    {
      SeenAsCpp(o, nodes, bs[j].ty, bs[j].dims, bs[k].ty, bs[k].dims);
    }
    hide BranchesSeen; hide BranchCpps;
    SameRepresents(BranchesSeen(o, bs), BranchCpps(o, bs), list);
  }

  lemma SameRepresents<K(!new), L(!new)>(a: seq<K>, b: seq<L>, list: seq<nat>)
    requires |a| == |b| && Represents(a, list)
    requires forall j, k :: 0 <= j < |a| && 0 <= k < |a| ==> (a[j] == a[k] <==> b[j] == b[k])
    ensures Represents(b, list)
  {
    forall k | 0 <= k < |b| ensures Chosen(b, list, b[k]) {
      assert Chosen(a, list, a[k]);
      var j :| 0 <= j < |list| && list[j] < |a| && a[list[j]] == a[k];
      assert b[list[j]] == b[k];
    }
  }
}
