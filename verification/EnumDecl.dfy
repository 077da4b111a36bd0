/** The C++ enumeration declared for an IDL enum, and the switch that converts numbers back to it. */
module EnumDecl {
  import opened Wrappers

  const UINT32_LIMIT := 0x1_0000_0000

  /** Enumerator values are 32 bits wide. */
  predicate Values(values: seq<nat>) {
    forall k :: 0 <= k < |values| ==> values[k] < UINT32_LIMIT
  }

  predicate Distinct(values: seq<nat>) {
    forall i, j :: 0 <= i < j < |values| ==> values[i] != values[j]
  }

  // ----- declaration -----

  /** What C++ gives the enumerators of a declaration, in which `None` stands for a missing value. */
  function CppValues(decl: seq<Option<nat>>, next: nat): (r: seq<nat>)
    ensures |r| == |decl|
  {
    if decl == [] then []
    else
      var value := match decl[0] case Some(n) => n case None => next;
      [value] + CppValues(decl[1..], value + 1)
  }

  /** The declaration that leaves out every value equal to the 32-bit successor of the one before. */
  function Declaration(values: seq<nat>, skip: nat): (r: seq<Option<nat>>)
    ensures |r| == |values|
  {
    if values == [] then []
    else [if values[0] == skip then None else Some(values[0])]
         + Declaration(values[1..], (values[0] + 1) % UINT32_LIMIT)
  }

  method EmitEnum(values: seq<nat>) returns (decl: seq<Option<nat>>)
    requires Values(values)
    ensures decl == Declaration(values, 0)
    ensures CppValues(decl, 0) == values <==> !WrapsAround(values)
  {
    hide Declaration; hide CppValues; hide WrapsAround;
    decl := [];
    var skip: nat := 0;
    assert values[0..] == values;
    for k := 0 to |values|
      invariant skip < UINT32_LIMIT && decl + Declaration(values[k..], skip) == Declaration(values, 0)
    {
      DeclarationStep(values, k, skip, decl);
      var value := values[k];
      decl := decl + [if value == skip then None else Some(value)];
      skip := (value + 1) % UINT32_LIMIT;
    }
    DeclarationEnds(values, skip, decl);
    DeclaresItsValues(values, 0, 0);
  }

  lemma DeclarationStep(values: seq<nat>, k: nat, skip: nat, decl: seq<Option<nat>>)
    requires k < |values|
    ensures decl + Declaration(values[k..], skip) ==
            decl + [if values[k] == skip then None else Some(values[k])]
              + Declaration(values[k + 1..], (values[k] + 1) % UINT32_LIMIT)
  {
    assert values[k..][1..] == values[k + 1..];
  }

  lemma DeclarationEnds(values: seq<nat>, skip: nat, decl: seq<Option<nat>>)
    ensures decl + Declaration(values[|values|..], skip) == decl
  {
  }

  /** An enumerator with value 0 directly after one with the largest value. */
  predicate WrapsAround(values: seq<nat>) {
    exists k :: 0 <= k < |values| - 1 && values[k] == UINT32_LIMIT - 1 && values[k + 1] == 0
  }

  /**
    C++ counts on where the omitted value would have wrapped around, so the declaration gives
    every enumerator its value exactly when nothing wraps around.
   */
  lemma {:induction false} DeclaresItsValues(values: seq<nat>, skip: nat, next: nat)
    requires Values(values) && next <= UINT32_LIMIT && skip == if next == UINT32_LIMIT then 0 else next
    ensures CppValues(Declaration(values, skip), next) == values <==>
            !WrapsAround(values) && !(values != [] && next == UINT32_LIMIT && values[0] == 0)
  {
    hide *;
    if values == [] {
      NoneDeclared(skip, next);
    } else {
      var v := values[0];
      FirstDeclared(values, skip, next);
      Successor(values);
      if v != skip || v == next {
        DeclaresItsValues(values[1..], (v + 1) % UINT32_LIMIT, v + 1);
        WrapsAroundParts(values);
      }
    }
  }

  lemma NoneDeclared(skip: nat, next: nat)
    ensures CppValues(Declaration([], skip), next) == [] && !WrapsAround([])
  {
  }

  lemma Successor(values: seq<nat>)
    requires Values(values) && values != []
    ensures values[0] < UINT32_LIMIT && Values(values[1..])
    ensures (values[0] + 1) % UINT32_LIMIT == if values[0] + 1 == UINT32_LIMIT then 0 else values[0] + 1
  {
  }

  /** The first enumerator has its value, and so have the others. */
  lemma FirstDeclared(values: seq<nat>, skip: nat, next: nat)
    requires values != []
    ensures var first := if values[0] == skip then next else values[0];
            CppValues(Declaration(values, skip), next) == values <==>
            first == values[0] && CppValues(Declaration(values[1..], (values[0] + 1) % UINT32_LIMIT), first + 1) ==
              values[1..]
  {
    hide Declaration; hide CppValues;
    var first := if values[0] == skip then next else values[0];
    var rest := Declaration(values[1..], (values[0] + 1) % UINT32_LIMIT);
    DeclarationHead(values, skip);
    CppHead(if values[0] == skip then None else Some(values[0]), rest, next);
    assert values == [values[0]] + values[1..];
    SameParts(first, CppValues(rest, first + 1), values[0], values[1..]);
  }

  lemma DeclarationHead(values: seq<nat>, skip: nat)
    requires values != []
    ensures Declaration(values, skip) ==
            [if values[0] == skip then None else Some(values[0])]
              + Declaration(values[1..], (values[0] + 1) % UINT32_LIMIT)
  {
  }

  lemma CppHead(value: Option<nat>, rest: seq<Option<nat>>, next: nat)
    ensures var first := if value.Some? then value.value else next;
            CppValues([value] + rest, next) == [first] + CppValues(rest, first + 1)
  {
    assert ([value] + rest)[1..] == rest;
  }

  lemma SameParts(x: nat, a: seq<nat>, y: nat, b: seq<nat>)
    ensures [x] + a == [y] + b <==> x == y && a == b
  {
    if [x] + a == [y] + b { assert a == ([x] + a)[1..] && b == ([y] + b)[1..] && x == ([x] + a)[0]; }
  }

  lemma WrapsAroundParts(values: seq<nat>)
    requires values != []
    ensures WrapsAround(values) <==>
            WrapsAround(values[1..]) || (|values| > 1 && values[0] == UINT32_LIMIT - 1 && values[1] == 0)
  {
    var rest := values[1..];
    if WrapsAround(values) {
      var k :| 0 <= k < |values| - 1 && values[k] == UINT32_LIMIT - 1 && values[k + 1] == 0;
      if k > 0 { assert rest[k - 1] == values[k] && rest[k - 1 + 1] == values[k + 1]; }
    }
    if WrapsAround(rest) {
      var k :| 0 <= k < |rest| - 1 && rest[k] == UINT32_LIMIT - 1 && rest[k + 1] == 0;
      assert values[k + 1] == rest[k] && values[k + 1 + 1] == rest[k + 1];
    }
  }

  // ----- conversion -----

  /** One label of the switch and the enumerator it returns. */
  datatype Label = Label(value: nat, enumerator: nat, isDefault: bool)

  function FirstIndex(values: seq<nat>, v: nat): (r: Option<nat>)
    ensures r.Some? ==> r.value < |values| && values[r.value] == v && v !in values[..r.value]
    ensures r.None? ==> v !in values
  {
    if values == [] then None
    else if values[0] == v then Some(0)
    else match FirstIndex(values[1..], v)
      case Some(k) => assert values[..k + 1] == [values[0]] + values[1..][..k]; Some(k + 1)
      case None => None
  }

  /** What the emitted switch returns; nothing when no label applies. */
  function Convert(labels: seq<Label>, v: nat): Option<nat> {
    match Matching(labels, v)
    case Some(e) => Some(e)
    case None => DefaultOf(labels)
  }

  function Matching(labels: seq<Label>, v: nat): Option<nat> {
    if labels == [] then None else if labels[0].value == v then Some(labels[0].enumerator) else Matching(labels[1..], v)
  }

  function DefaultOf(labels: seq<Label>): Option<nat> {
    if labels == [] then None else if labels[0].isDefault then Some(labels[0].enumerator) else DefaultOf(labels[1..])
  }

  lemma {:induction false} MatchingAppend(a: seq<Label>, b: seq<Label>, v: nat)
    ensures Matching(a + b, v) == if Matching(a, v).Some? then Matching(a, v) else Matching(b, v)
    ensures DefaultOf(a + b) == if DefaultOf(a).Some? then DefaultOf(a) else DefaultOf(b)
  {
    if a == [] {
      assert a + b == b;
    } else {
      assert (a + b)[1..] == a[1..] + b;
      MatchingAppend(a[1..], b, v);
    }
  }

  /** The default enumerator, unless an earlier one has the same value and takes its label away. */
  function EffectiveDefault(values: seq<nat>, dflt: Option<nat>): Option<nat> {
    if dflt.Some? && dflt.value < |values| && FirstIndex(values, values[dflt.value]) == dflt then dflt else None
  }

  method Encountered(alreadyEncountered: array<nat>, n: nat, value: nat) returns (present: bool)
    requires n <= alreadyEncountered.Length
    ensures present <==> value in alreadyEncountered[..n]
  {
    present := false;
    for i := 0 to n
      invariant present <==> value in alreadyEncountered[..i]
    {
      present := present || value == alreadyEncountered[i];
    }
  }

  /** Emits a label for the first enumerator with every value. */
  method ProcessEnum(values: seq<nat>, dflt: Option<nat>) returns (labels: seq<Label>)
    ensures forall v :: Convert(labels, v) == if FirstIndex(values, v).Some? then FirstIndex(values, v)
            else EffectiveDefault(values, dflt)
  {
    hide Matching; hide DefaultOf; hide EffectiveDefault; hide FirstIndex;
    var alreadyEncountered := new nat[|values|];
    var n: nat := 0;
    labels := [];
    NoLabels(dflt);
    for k := 0 to |values|
      invariant n <= k
      invariant forall v :: v in alreadyEncountered[..n] <==> v in values[..k]
      invariant forall v :: Matching(labels, v) == FirstIndex(values[..k], v)
      invariant DefaultOf(labels) == EffectiveDefault(values[..k], dflt)
    {
      var value := values[k];
      var present := Encountered(alreadyEncountered, n, value);
      NextEnumerator(values, k, dflt);
      if present { continue; }
      ghost var before := alreadyEncountered[..n];
      alreadyEncountered[n] := value;
      n := n + 1;
      assert alreadyEncountered[..n] == before + [value];
      var lab := Label(value, k, dflt == Some(k));
      forall v { MatchingAppend(labels, [lab], v); }
      MatchingAppend(labels, [lab], value);
      OneLabel(lab);
      labels := labels + [lab];
    }
    assert values[..|values|] == values;
  }

  lemma NoLabels(dflt: Option<nat>)
    ensures forall v :: Matching([], v) == None
    ensures DefaultOf([]) == None == EffectiveDefault([], dflt)
  {
  }

  lemma OneLabel(lab: Label)
    ensures forall v :: Matching([lab], v) == if lab.value == v then Some(lab.enumerator) else None
    ensures DefaultOf([lab]) == if lab.isDefault then Some(lab.enumerator) else None
  {
  }

  lemma {:induction false} FirstIndexAppend(values: seq<nat>, x: nat, v: nat)
    ensures FirstIndex(values + [x], v) ==
            if FirstIndex(values, v).Some? then FirstIndex(values, v) else if v == x then Some(|values|) else None
  {
    if values == [] {
      assert values + [x] == [x];
    } else {
      assert (values + [x])[1..] == values[1..] + [x];
      FirstIndexAppend(values[1..], x, v);
    }
  }

  lemma NextEnumerator(values: seq<nat>, k: nat, dflt: Option<nat>)
    requires k < |values|
    ensures values[..k + 1] == values[..k] + [values[k]]
    ensures forall v :: FirstIndex(values[..k + 1], v) ==
                        if FirstIndex(values[..k], v).Some? then FirstIndex(values[..k], v)
                        else if v == values[k] then Some(k) else None
    ensures dflt == Some(k) ==> EffectiveDefault(values[..k], dflt) == None
    ensures EffectiveDefault(values[..k + 1], dflt) ==
            if dflt == Some(k) && FirstIndex(values[..k], values[k]).None? then dflt
              else EffectiveDefault(values[..k], dflt)
  {
    assert values[..k + 1] == values[..k] + [values[k]];
    forall v { FirstIndexAppend(values[..k], values[k], v); }
    hide FirstIndex;
  }

  /**
    The conversion is the inverse of the declaration for distinct values that do not wrap around,
    and every other number becomes the default enumerator.
   */
  lemma ConversionInverts(values: seq<nat>, dflt: Option<nat>, labels: seq<Label>)
    requires Values(values) && Distinct(values) && !WrapsAround(values) && (dflt.Some? ==> dflt.value < |values|)
    requires forall v :: Convert(labels, v) == if FirstIndex(values, v).Some? then FirstIndex(values, v)
             else EffectiveDefault(values, dflt)
    ensures forall k :: 0 <= k < |values| ==> Convert(labels, CppValues(Declaration(values, 0), 0)[k]) == Some(k)
    ensures forall v :: v !in values ==> Convert(labels, v) == dflt
  {
    DeclaresItsValues(values, 0, 0);
    forall k | 0 <= k < |values| ensures FirstIndex(values, values[k]) == Some(k) {
      var j := FirstIndex(values, values[k]).value;
    }
  }
}
