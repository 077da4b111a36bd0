/**
  The nodes of the IDL syntax tree as a graph, which may be cyclic, and the depth-first searches
  through it that share one array of visited nodes.
 */
module TypeGraphs {
  import opened Wrappers
  import opened Digraphs

  type Id = nat

  datatype Member = Member(ty: Id, optional: bool, external: bool)

  datatype Case = Case(ty: Id, external: bool)

  /** A forward declaration may stay without a definition. */
  datatype Node =
    | Scalar(ofOptional: bool)    // a base type or enum; whether its parent is an optional member
    | Text
    | Alias(to: Id, isArray: bool)
    | Forward(definition: Option<Id>)
    | Sequence(elem: Id)
    | Struct(base: Option<Id>, members: seq<Member>)
    | Union(disc: Id, cases: seq<Case>)

  type Graph = seq<Node>

  /** An integer, boolean or enum, possibly by way of typedefs. */
  predicate IsDiscriminator(g: Graph, n: Id)
    decreases n
  {
    n < |g| && match g[n]
    case Scalar(ofOptional) => !ofOptional
    case Alias(to, _) => to < n && IsDiscriminator(g, to)
    case _ => false
  }

  /** What the parser guarantees: typedefs and bases are declared before their use, nothing dangles. */
  predicate WellFormedNode(g: Graph, n: Id) {
    n < |g| &&
    match g[n]
    case Alias(to, _) => to < n
    case Forward(Some(def)) => def < |g| && (g[def].Struct? || g[def].Union?)
    case Sequence(elem) => elem < |g| && (g[elem].Sequence? || g[elem].Alias? ==> elem < n)
    case Struct(base, members) =>
      && (base.Some? ==> base.value < n && g[base.value].Struct?)
      && forall k :: 0 <= k < |members| ==> members[k].ty < |g|
    case Union(disc, cases) => IsDiscriminator(g, disc) && forall k :: 0 <= k < |cases| ==> cases[k].ty < |g|
    case _ => true
  }

  predicate WellFormed(g: Graph) {
    forall n :: 0 <= n < |g| ==> WellFormedNode(g, n)
  }

  /**
    ByValue: what an object holds in place. Required: the same without optional members.
    Declared: the same without what forward declarations stand for.
    References: what the property table of a struct can mention.
   */
  datatype Kind = ByValue | Required | Declared | References

  /** Aliases and most forward declarations resolved; references stop at array typedefs. */
  function Strip(g: Graph, kind: Kind, n: Id): (r: Option<Id>)
    requires WellFormed(g) && n < |g|
    ensures r.Some? ==> r.value < |g|
    ensures r.Some? && kind != References ==> !g[r.value].Alias?
    ensures r.Some? && (kind == ByValue || kind == Required) ==> !g[r.value].Forward?
    decreases n
  {
    assert WellFormedNode(g, n);
    match g[n]
    case Alias(to, isArray) => if isArray && kind == References then Some(n) else Strip(g, kind, to)
    case Forward(def) => if kind == Declared then Some(n) else def
    case _ => Some(n)
  }

  /** An alias refers to its target, and a forward declaration to its definition. */
  predicate RefersTo(g: Graph, kind: Kind, n: Id, m: Id) {
    n < |g| &&
    match g[n]
    case Alias(to, isArray) => to == m && !(isArray && kind == References)
    case Forward(def) => def == Some(m) && kind != Declared
    case _ => false
  }

  /** Following references from one node to another. */
  predicate Follows(g: Graph, kind: Kind, p: seq<Id>, n: Id, m: Id) {
    |p| > 0 && p[0] == n && p[|p| - 1] == m && forall i :: 0 <= i < |p| - 1 ==> RefersTo(g, kind, p[i], p[i + 1])
  }

  /** A node that refers to no other. */
  predicate IsLast(g: Graph, kind: Kind, m: Id) {
    m < |g| &&
    match g[m]
    case Alias(_, isArray) => isArray && kind == References
    case Forward(def) => def == None || kind == Declared
    case _ => true
  }

  /** What a node comes to when references are followed as far as they lead. */
  ghost predicate StandsFor(g: Graph, kind: Kind, n: Id, m: Id) {
    IsLast(g, kind, m) && exists p :: Follows(g, kind, p, n, m)
  }

  predicate Undefined(g: Graph, kind: Kind, m: Id) {
    m < |g| && g[m] == Forward(None) && kind != Declared
  }

  lemma FollowsOne(g: Graph, kind: Kind, n: Id, next: Id, m: Id)
    requires RefersTo(g, kind, n, next)
    ensures StandsFor(g, kind, n, m) <==> StandsFor(g, kind, next, m)
  {
    if StandsFor(g, kind, next, m) {
      var p :| Follows(g, kind, p, next, m);
      var q := [n] + p;
      assert forall i :: 0 < i < |q| ==> q[i] == p[i - 1];
      assert Follows(g, kind, q, n, m);
    }
    if StandsFor(g, kind, n, m) {
      var p :| Follows(g, kind, p, n, m);
      assert |p| > 1 && RefersTo(g, kind, p[0], p[1]);
      assert Follows(g, kind, p[1..], next, m);
    }
  }

  lemma FirstReference(g: Graph, kind: Kind, p: seq<Id>, n: Id, m: Id) returns (next: Id)
    requires Follows(g, kind, p, n, m) && |p| > 1
    ensures RefersTo(g, kind, n, next)
  {
    next := p[1];
    assert RefersTo(g, kind, p[0], p[1]);
  }

  lemma LastStands(g: Graph, kind: Kind, n: Id, m: Id)
    requires IsLast(g, kind, n)
    ensures StandsFor(g, kind, n, m) <==> m == n
  {
    assert Follows(g, kind, [n], n, n);
    if StandsFor(g, kind, n, m) {
      var p :| Follows(g, kind, p, n, m);
      if |p| > 1 {
        var next := FirstReference(g, kind, p, n, m);
        assert false;
      }
    }
  }

  /**
    Stripping a node yields what it stands for, and nothing exactly when references lead to a forward
    declaration without a definition.
   */
  lemma {:induction false} StripMeans(g: Graph, kind: Kind, n: Id, m: Id)
    requires WellFormed(g) && n < |g|
    ensures Strip(g, kind, n) == Some(m) <==> StandsFor(g, kind, n, m) && !Undefined(g, kind, m)
    decreases n
  {
    hide StandsFor;
    assert WellFormedNode(g, n);
    match g[n]
    case Alias(to, isArray) =>
      if isArray && kind == References {
        LastStands(g, kind, n, m);
      } else {
        FollowsOne(g, kind, n, to, m);
        StripMeans(g, kind, to, m);
      }
    case Forward(Some(def)) =>
      if kind == Declared {
        LastStands(g, kind, n, m);
      } else {
        FollowsOne(g, kind, n, def, m);
        LastStands(g, kind, def, m);
      }
    case _ => LastStands(g, kind, n, m);
  }

  lemma {:induction false} StripFails(g: Graph, kind: Kind, n: Id)
    requires WellFormed(g) && n < |g|
    ensures Strip(g, kind, n) == None <==> exists m :: Undefined(g, kind, m) && StandsFor(g, kind, n, m)
    decreases n
  {
    hide StandsFor;
    assert WellFormedNode(g, n);
    if IsLast(g, kind, n) {
      forall m ensures StandsFor(g, kind, n, m) <==> m == n { LastStands(g, kind, n, m); }
      if Undefined(g, kind, n) { assert StandsFor(g, kind, n, n); }
    } else {
      var next := if g[n].Alias? then g[n].to else g[n].definition.value;
      forall m ensures StandsFor(g, kind, n, m) <==> StandsFor(g, kind, next, m) { FollowsOne(g, kind, n, next, m); }
      if g[n].Alias? {
        StripFails(g, kind, next);
        if m :| Undefined(g, kind, m) && StandsFor(g, kind, next, m) { assert StandsFor(g, kind, n, m); }
      } else {
        forall m ensures StandsFor(g, kind, next, m) <==> m == next { LastStands(g, kind, next, m); }
      }
    }
  }

  predicate Skips(kind: Kind, external: bool, optional: bool) {
    (kind != References && external) || (kind == Required && optional)
  }

  /** The types that a node mentions directly and the search goes into. */
  predicate Uses(g: Graph, kind: Kind, n: Id, ty: Id)
    requires n < |g|
  {
    match g[n]
    case Struct(base, members) =>
      base == Some(ty) ||
      exists k :: 0 <= k < |members| && members[k].ty == ty && !Skips(kind, members[k].external, members[k].optional)
    case Union(_, cases) =>
      kind != References && exists k :: 0 <= k < |cases| && cases[k].ty == ty && !Skips(kind, cases[k].external, false)
    case Sequence(elem) => kind == References && elem == ty
    case _ => false
  }

  ghost predicate Links(g: Graph, kind: Kind, n: Id, m: Id)
    requires WellFormed(g) && n < |g|
  {
    exists ty :: 0 <= ty < |g| && Uses(g, kind, n, ty) && Strip(g, kind, ty) == Some(m)
  }

  ghost function TypeDigraph(g: Graph, kind: Kind): (d: Digraph)
    requires WellFormed(g)
    ensures Closed(d) && |d| == |g|
  {
    seq(|g|, n requires 0 <= n < |g| => set m | 0 <= m < |g| && Links(g, kind, n, m))
  }

  lemma EdgeLinks(g: Graph, kind: Kind, n: Id, m: Id)
    requires WellFormed(g) && n < |g|
    ensures Edge(TypeDigraph(g, kind), n, m) <==> m < |g| && Links(g, kind, n, m)
  {
  }

  /** An object of the type has one of the other in place: a base, a member or a branch that is not external. */
  predicate HasInPlace(g: Graph, n: Id, ty: Id) {
    n < |g| &&
    match g[n]
    case Struct(base, members) =>
      base == Some(ty) || Member(ty, false, false) in members || Member(ty, true, false) in members
    case Union(_, cases) => Case(ty, false) in cases
    case _ => false
  }

  /** A base, a member of any kind, or the element of a sequence. */
  predicate Refers(g: Graph, n: Id, ty: Id) {
    n < |g| &&
    match g[n]
    case Struct(base, members) => base == Some(ty) || exists o, e :: Member(ty, o, e) in members
    case Sequence(elem) => elem == ty
    case _ => false
  }

  /** The edges by value lead to what the types held in place stand for. */
  lemma EdgeByValue(g: Graph, n: Id, m: Id)
    requires WellFormed(g) && n < |g|
    ensures Edge(TypeDigraph(g, ByValue), n, m) <==>
            exists ty: Id :: HasInPlace(g, n, ty) && StandsFor(g, ByValue, ty, m) && !Undefined(g, ByValue, m)
  {
    hide StandsFor; hide Strip; hide Undefined;
    EdgeLinks(g, ByValue, n, m);
    assert WellFormedNode(g, n);
    forall ty: Id | ty < |g|
      ensures Strip(g, ByValue, ty) == Some(m) <==> StandsFor(g, ByValue, ty, m) && !Undefined(g, ByValue, m)
      ensures Uses(g, ByValue, n, ty) <==> HasInPlace(g, n, ty)
    {
      StripMeans(g, ByValue, ty, m);
      UsesByValue(g, n, ty);
    }
    forall ty: Id | HasInPlace(g, n, ty) ensures ty < |g| { UsedExists(g, n, ty); }
  }

  lemma UsesByValue(g: Graph, n: Id, ty: Id)
    requires n < |g|
    ensures Uses(g, ByValue, n, ty) <==> HasInPlace(g, n, ty)
  {
    match g[n]
    case Struct(_, members) =>
      if k :| 0 <= k < |members| && members[k].ty == ty && !members[k].external {
        assert members[k] == Member(ty, members[k].optional, false);
      }
    case Union(_, cases) =>
      if k :| 0 <= k < |cases| && cases[k].ty == ty && !cases[k].external { assert cases[k] == Case(ty, false); }
    case _ =>
  }

  lemma UsesReferences(g: Graph, n: Id, ty: Id)
    requires n < |g|
    ensures Uses(g, References, n, ty) <==> Refers(g, n, ty)
  {
    match g[n]
    case Struct(_, members) =>
      if k :| 0 <= k < |members| && members[k].ty == ty {
        assert members[k] == Member(ty, members[k].optional, members[k].external);
      }
    case _ =>
  }

  lemma UsedExists(g: Graph, n: Id, ty: Id)
    requires WellFormed(g) && n < |g| && (HasInPlace(g, n, ty) || Refers(g, n, ty))
    ensures ty < |g|
  {
    assert WellFormedNode(g, n);
  }

  /** The edges of references lead to what bases, members and elements stand for, typedefs of arrays included. */
  lemma EdgeOfReferences(g: Graph, n: Id, m: Id)
    requires WellFormed(g) && n < |g|
    ensures Edge(TypeDigraph(g, References), n, m) <==>
            exists ty: Id :: Refers(g, n, ty) && StandsFor(g, References, ty, m) && !Undefined(g, References, m)
  {
    hide StandsFor; hide Strip; hide Undefined;
    EdgeLinks(g, References, n, m);
    forall ty: Id | ty < |g|
      ensures Strip(g, References, ty) == Some(m) <==> StandsFor(g, References, ty, m) && !Undefined(g, References, m)
      ensures Uses(g, References, n, ty) <==> Refers(g, n, ty)
    {
      StripMeans(g, References, ty, m);
      UsesReferences(g, n, ty);
    }
    forall ty: Id | Refers(g, n, ty) ensures ty < |g| { UsedExists(g, n, ty); }
  }

  predicate Distinct(s: seq<Id>) {
    forall i, j :: 0 <= i < j < |s| ==> s[i] != s[j]
  }

  const VISITED_MAX := 128

  class Search {
    const g: Graph
    const kind: Kind
    const target: Id
    const visited: array<Id>
    var nvisited: nat

    ghost predicate Valid()
      reads this, visited
    {
      && WellFormed(g) && target < |g| && (kind == ByValue || kind == References)
      && nvisited <= visited.Length == VISITED_MAX
      && Distinct(Seen())
      && forall k :: 0 <= k < nvisited ==> visited[k] < |g|
    }

    ghost function Seen(): seq<Id>
      requires nvisited <= visited.Length
      reads this, visited
    {
      visited[..nvisited]
    }

    /** Sequences end a search by value without taking a slot. */
    predicate EndsHere(n: Id)
      requires n < |g|
    {
      kind == ByValue && g[n].Sequence?
    }

    /** The search has been to this type, and it is not the target. */
    ghost predicate Handled(seen: seq<Id>, ty: Id)
      requires WellFormed(g) && ty < |g|
    {
      match Strip(g, kind, ty)
      case None => true
      case Some(m) => m != target && (m in seen || EndsHere(m))
    }

    ghost predicate Done(seen: seq<Id>, n: Id)
      requires WellFormed(g) && n < |g|
    {
      forall ty :: 0 <= ty < |g| && Uses(g, kind, n, ty) ==> Handled(seen, ty)
    }

    constructor (g: Graph, kind: Kind, target: Id)
      requires WellFormed(g) && target < |g| && (kind == ByValue || kind == References)
      ensures Valid() && nvisited == 0 && fresh(visited)
      ensures this.g == g && this.kind == kind && this.target == target
    {
      this.g, this.kind, this.target := g, kind, target;
      visited := new Id[VISITED_MAX];
      nvisited := 0;
    }

    method TypeInVisitStack(n: Id) returns (r: bool)
      requires Valid()
      ensures r == (n in Seen())
    {
      for i := 0 to nvisited
        invariant n !in visited[..i]
      {
        if visited[i] == n { return true; }
      }
      return false;
    }

    method Visit(ty: Id) returns (found: bool)
      requires Valid() && ty < |g|
      modifies this`nvisited, visited
      ensures Valid() && old(nvisited) <= nvisited && Seen()[..old(nvisited)] == old(Seen())
      ensures !found ==> Handled(Seen(), ty)
      ensures !found ==> forall k :: old(nvisited) <= k < nvisited ==> Done(Seen(), Seen()[k])
      ensures found ==> nvisited == VISITED_MAX || Finds(ty)
      decreases VISITED_MAX - nvisited, 0
    {
      var stripped := Strip(g, kind, ty);
      if stripped.None? { return false; }
      var n := stripped.value;
      if n == target {
        ReachesItself(TypeDigraph(g, kind), n);
        return true;
      }
      if EndsHere(n) { return false; }
      var seen := TypeInVisitStack(n);
      if seen { return false; }
      if nvisited == visited.Length { return true; }
      visited[nvisited] := n;
      nvisited := nvisited + 1;
      found := VisitUses(n);
      if found && nvisited < VISITED_MAX {
        ghost var use: Id :| use < |g| && Uses(g, kind, n, use) && Finds(use);
        UseReaches(n, use);
      }
    }

    lemma UseReaches(n: Id, use: Id)
      requires WellFormed(g) && n < |g| && use < |g| && Uses(g, kind, n, use) && Finds(use)
      ensures Reaches(TypeDigraph(g, kind), n, target)
    {
      var m := Strip(g, kind, use).value;
      EdgeLinks(g, kind, n, m);
      ReachesStep(TypeDigraph(g, kind), n, m, target);
    }

    /** The search through the base and the members, the branches or the element of a type. */
    method VisitUses(n: Id) returns (found: bool)
      requires Valid() && n < |g|
      modifies this`nvisited, visited
      ensures Valid() && old(nvisited) <= nvisited && Seen()[..old(nvisited)] == old(Seen())
      ensures !found ==> Done(Seen(), n)
      ensures !found ==> forall k :: old(nvisited) <= k < nvisited ==> Done(Seen(), Seen()[k])
      ensures found ==> nvisited == VISITED_MAX || exists ty :: 0 <= ty < |g| && Uses(g, kind, n, ty) && Finds(ty)
      decreases VISITED_MAX - nvisited, 2
    {
      hide Finds; hide Handled;
      assert WellFormedNode(g, n);
      found := false;
      if g[n].Sequence? {
        if kind == References { found := Visit(g[n].elem); }
      } else if g[n].Struct? {
        found := VisitMembers(n, g[n].base, g[n].members);
      } else if g[n].Union? {
        if kind != References { found := VisitCases(n, g[n].cases); }
      }
    }

    method VisitMembers(n: Id, base: Option<Id>, members: seq<Member>) returns (found: bool)
      requires Valid() && n < |g| && g[n] == Struct(base, members) && WellFormedNode(g, n)
      modifies this`nvisited, visited
      ensures Valid() && old(nvisited) <= nvisited && Seen()[..old(nvisited)] == old(Seen())
      ensures !found && base.Some? ==> Handled(Seen(), base.value)
      ensures !found ==> forall k :: 0 <= k < |members| && !Skips(kind, members[k].external, members[k].optional) ==>
                           Handled(Seen(), members[k].ty)
      ensures !found ==> forall k :: old(nvisited) <= k < nvisited ==> Done(Seen(), Seen()[k])
      ensures found ==> nvisited == VISITED_MAX || exists ty :: 0 <= ty < |g| && Uses(g, kind, n, ty) && Finds(ty)
      decreases VISITED_MAX - nvisited, 1
    {
      hide Done; hide Handled; hide Finds;
      if base.Some? {
        found := Visit(base.value);
        if found { return; }
      }
      for k := 0 to |members|
        invariant Valid() && old(nvisited) <= nvisited && Seen()[..old(nvisited)] == old(Seen())
        invariant base.Some? ==> Handled(Seen(), base.value)
        invariant forall j :: 0 <= j < k && !Skips(kind, members[j].external, members[j].optional) ==>
                    Handled(Seen(), members[j].ty)
        invariant forall j :: old(nvisited) <= j < nvisited ==> Done(Seen(), Seen()[j])
      {
        if Skips(kind, members[k].external, members[k].optional) { continue; }
        ghost var before := Seen();
        found := Visit(members[k].ty);
        if found {
          assert Uses(g, kind, n, members[k].ty);
          return;
        }
        SeenGrows(before, Seen());
        assert forall j :: 0 <= j < |before| ==> Seen()[j] == before[j];
      }
      found := false;
    }

    method VisitCases(n: Id, cases: seq<Case>) returns (found: bool)
      requires Valid() && n < |g| && g[n].Union? && g[n].cases == cases && WellFormedNode(g, n) && kind != References
      modifies this`nvisited, visited
      ensures Valid() && old(nvisited) <= nvisited && Seen()[..old(nvisited)] == old(Seen())
      ensures !found ==> forall k :: 0 <= k < |cases| && !Skips(kind, cases[k].external, false) ==>
                Handled(Seen(), cases[k].ty)
      ensures !found ==> forall k :: old(nvisited) <= k < nvisited ==> Done(Seen(), Seen()[k])
      ensures found ==> nvisited == VISITED_MAX || exists ty :: 0 <= ty < |g| && Uses(g, kind, n, ty) && Finds(ty)
      decreases VISITED_MAX - nvisited, 1
    {
      hide Done; hide Handled; hide Finds;
      for k := 0 to |cases|
        invariant Valid() && old(nvisited) <= nvisited && Seen()[..old(nvisited)] == old(Seen())
        invariant forall j :: 0 <= j < k && !Skips(kind, cases[j].external, false) ==> Handled(Seen(), cases[j].ty)
        invariant forall j :: old(nvisited) <= j < nvisited ==> Done(Seen(), Seen()[j])
      {
        if Skips(kind, cases[k].external, false) { continue; }
        ghost var before := Seen();
        found := Visit(cases[k].ty);
        if found {
          assert Uses(g, kind, n, cases[k].ty);
          return;
        }
        SeenGrows(before, Seen());
        assert forall j :: 0 <= j < |before| ==> Seen()[j] == before[j];
      }
      found := false;
    }

    lemma SeenGrows(before: seq<Id>, after: seq<Id>)
      requires WellFormed(g) && |before| <= |after| && after[..|before|] == before
      ensures forall ty :: 0 <= ty < |g| && Handled(before, ty) ==> Handled(after, ty)
      ensures forall n :: 0 <= n < |g| && Done(before, n) ==> Done(after, n)
    {
      assert forall x :: x in before ==> x in after;
    }

    /** The target can be reached from this type. */
    ghost predicate Finds(ty: Id)
      requires WellFormed(g) && ty < |g|
    {
      match Strip(g, kind, ty)
      case None => false
      case Some(m) => Reaches(TypeDigraph(g, kind), m, target)
    }
  }

  /**
    A whole search: `false` means that no path leads to the target; `true` means that there is
    one or that as many different types have been visited as the array has room for.
   */
  method TypeReachesType(g: Graph, kind: Kind, from: Id, target: Id) returns (found: bool, nvisited: nat)
    requires WellFormed(g) && from < |g| && target < |g| && (kind == ByValue || kind == References)
    ensures nvisited <= VISITED_MAX && nvisited <= |g|
    ensures !found ==> !Leads(g, kind, from, target)
    ensures found ==> Leads(g, kind, from, target) || nvisited == VISITED_MAX
  {
    var search := new Search(g, kind, target);
    found := search.Visit(from);
    nvisited := search.nvisited;
    DistinctSize(search.Seen(), |g|);
    if !found { NoPath(search, from); }
  }

  ghost predicate Leads(g: Graph, kind: Kind, from: Id, target: Id)
    requires WellFormed(g) && from < |g|
  {
    match Strip(g, kind, from)
    case None => false
    case Some(n) => Reaches(TypeDigraph(g, kind), n, target)
  }

  function Elements(s: seq<Id>): set<Id> {
    set x | x in s
  }

  lemma DistinctSize(s: seq<Id>, n: nat)
    requires Distinct(s) && forall k :: 0 <= k < |s| ==> s[k] < n
    ensures |s| <= n
  {
    DistinctElements(s);
    RangeSize(n, Elements(s));
  }

  lemma {:induction false} DistinctElements(s: seq<Id>)
    requires Distinct(s)
    ensures |Elements(s)| == |s|
  {
    if s != [] {
      DistinctElements(s[1..]);
      assert s[0] !in Elements(s[1..]) by {
        if s[0] in s[1..] { var k :| 1 <= k < |s| && s[k] == s[0]; }
      }
      assert Elements(s) == {s[0]} + Elements(s[1..]);
    } else {
      assert Elements(s) == {};
    }
  }

  /** Everything visited is done when a search fails, so nothing outside can be reached. */
  lemma NoPath(search: Search, from: Id)
    requires search.Valid() && from < |search.g|
    requires search.Handled(search.Seen(), from)
    requires forall k :: 0 <= k < search.nvisited ==> search.Done(search.Seen(), search.Seen()[k])
    ensures !Leads(search.g, search.kind, from, search.target)
  {
    var g, kind, target, seen := search.g, search.kind, search.target, search.Seen();
    var d := TypeDigraph(g, kind);
    if Leads(g, kind, from, target) {
      var n := Strip(g, kind, from).value;
      var p :| Joins(d, p, n, target);
      var s := (set m | m in seen && m != target) + (set m: Id | 0 <= m < |g| && search.EndsHere(m) && m != target);
      assert n in s;
      forall a: Id, b: Id | a in s && Edge(d, a, b) ensures b in s {
        EdgeLinks(g, kind, a, b);
        var ty: Id :| ty < |g| && Uses(g, kind, a, ty) && Strip(g, kind, ty) == Some(b);
        assert search.Done(seen, a);
        assert search.Handled(seen, ty);
      }
      Confined(d, s, p, |p| - 1);
    }
  }
}
