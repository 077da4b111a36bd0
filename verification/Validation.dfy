/** Which type graphs the generator accepts, and what the rest of it may rely on afterwards. */
module Validation {
  import opened Wrappers
  import opened Digraphs
  import opened TypeGraphs

  datatype Verdict = Accepted | OptionalExternal(owner: Id) | RecursiveOptional(owner: Id) | ExternalBranch(owner: Id)

  /** An optional member is not external and does not lead back to its owner by value. */
  ghost predicate GoodMember(g: Graph, owner: Id, m: TypeGraphs.Member)
    requires WellFormed(g) && m.ty < |g|
  {
    m.optional ==> !m.external && !Leads(g, ByValue, m.ty, owner)
  }

  /** No union branch is external and all optional members are good. */
  ghost predicate Good(g: Graph, n: Id)
    requires WellFormed(g) && n < |g|
  {
    assert WellFormedNode(g, n);
    match g[n]
    case Struct(_, members) => forall k :: 0 <= k < |members| ==> GoodMember(g, n, members[k])
    case Union(_, cases) => forall k :: 0 <= k < |cases| ==> !cases[k].external
    case _ => true
  }

  /** What is wrong with a member, if anything. */
  ghost function MemberVerdict(g: Graph, owner: Id, m: TypeGraphs.Member): (r: Verdict)
    requires WellFormed(g) && m.ty < |g|
    ensures r == Accepted <==> GoodMember(g, owner, m)
  {
    if !m.optional then Accepted
    else if m.external then OptionalExternal(owner)
    else if Leads(g, ByValue, m.ty, owner) then RecursiveOptional(owner)
    else Accepted
  }

  /** What is wrong with the first of the members, or of the branches, that is not good. */
  ghost function MembersVerdict(g: Graph, owner: Id, members: seq<TypeGraphs.Member>): (r: Verdict)
    requires WellFormed(g) && forall k :: 0 <= k < |members| ==> members[k].ty < |g|
  {
    if members == [] then Accepted
    else if MemberVerdict(g, owner, members[0]) != Accepted then MemberVerdict(g, owner, members[0])
    else MembersVerdict(g, owner, members[1..])
  }

  ghost function NodeVerdict(g: Graph, n: Id): (r: Verdict)
    requires WellFormed(g) && n < |g|
  {
    assert WellFormedNode(g, n);
    match g[n]
    case Struct(_, members) => MembersVerdict(g, n, members)
    case Union(_, cases) => if exists k :: 0 <= k < |cases| && cases[k].external then ExternalBranch(n) else Accepted
    case _ => Accepted
  }

  /** What is wrong with the first type, from number `n` on, that is not good. */
  ghost function VerdictFrom(g: Graph, n: Id): (r: Verdict)
    requires WellFormed(g) && n <= |g|
    decreases |g| - n
  {
    if n == |g| then Accepted
    else if NodeVerdict(g, n) != Accepted then NodeVerdict(g, n)
    else VerdictFrom(g, n + 1)
  }

  method ValidateMember(g: Graph, owner: Id, m: TypeGraphs.Member) returns (r: Verdict)
    requires WellFormed(g) && owner < |g| && m.ty < |g|
    ensures r == Accepted ==> GoodMember(g, owner, m)
    ensures r != Accepted && |g| < VISITED_MAX ==> !GoodMember(g, owner, m)
    ensures |g| < VISITED_MAX ==> r == MemberVerdict(g, owner, m)
  {
    if m.optional && m.external { return OptionalExternal(owner); }
    if !m.optional { return Accepted; }
    var found, _ := TypeReachesType(g, ByValue, m.ty, owner);
    r := if found then RecursiveOptional(owner) else Accepted;
  }

  method ValidateNode(g: Graph, n: Id) returns (r: Verdict)
    requires WellFormed(g) && n < |g|
    ensures r == Accepted ==> Good(g, n)
    ensures r != Accepted && |g| < VISITED_MAX ==> !Good(g, n)
    ensures |g| < VISITED_MAX ==> r == NodeVerdict(g, n)
  {
    assert WellFormedNode(g, n);
    hide GoodMember; hide MemberVerdict;
    if g[n].Struct? {
      var members := g[n].members;
      assert members[0..] == members;
      for k := 0 to |members|
        invariant forall j :: 0 <= j < k ==> GoodMember(g, n, members[j])
        invariant |g| < VISITED_MAX ==> MembersVerdict(g, n, members[k..]) == MembersVerdict(g, n, members)
      {
        assert members[k..][0] == members[k] && members[k..][1..] == members[k + 1..];
        r := ValidateMember(g, n, members[k]);
        if r != Accepted { return; }
      }
      assert MembersVerdict(g, n, members[|members|..]) == Accepted;
    } else if g[n].Union? {
      for k := 0 to |g[n].cases|
        invariant forall j :: 0 <= j < k ==> !g[n].cases[j].external
      {
        if g[n].cases[k].external { return ExternalBranch(n); }
      }
    }
    r := Accepted;
  }

  method ValidateTypes(g: Graph) returns (r: Verdict)
    requires WellFormed(g)
    ensures r == Accepted ==> forall n :: 0 <= n < |g| ==> Good(g, n)
    ensures r != Accepted && |g| < VISITED_MAX ==> exists n :: 0 <= n < |g| && !Good(g, n)
    ensures |g| < VISITED_MAX ==> r == VerdictFrom(g, 0)
  {
    hide Good; hide NodeVerdict;
    for n := 0 to |g|
      invariant forall k :: 0 <= k < n ==> Good(g, k)
      invariant |g| < VISITED_MAX ==> VerdictFrom(g, n) == VerdictFrom(g, 0)
    {
      r := ValidateNode(g, n);
      if r != Accepted { return; }
    }
    r := Accepted;
  }

  // ----- what an accepted graph satisfies -----

  /** An edge that only optional members give rise to. */
  lemma OptionalEdge(g: Graph, n: Id, m: Id)
    requires WellFormed(g) && n < |g|
    requires Edge(TypeDigraph(g, ByValue), n, m) && !Edge(TypeDigraph(g, Required), n, m)
    ensures g[n].Struct?
    ensures exists k ::
            0 <= k < |g[n].members| && g[n].members[k].ty < |g| && g[n].members[k].optional &&
            !g[n].members[k].external &&
            Strip(g, ByValue, g[n].members[k].ty) == Some(m)
  {
    EdgeLinks(g, ByValue, n, m);
    EdgeLinks(g, Required, n, m);
    var ty: Id :| ty < |g| && Uses(g, ByValue, n, ty) && Strip(g, ByValue, ty) == Some(m);
    SameStrip(g, ty);
    assert !Uses(g, Required, n, ty);
    assert WellFormedNode(g, n);
  }

  lemma {:induction false} SameStrip(g: Graph, n: Id)
    requires WellFormed(g) && n < |g|
    ensures Strip(g, ByValue, n) == Strip(g, Required, n)
    decreases n
  {
    assert WellFormedNode(g, n);
    if g[n].Alias? { SameStrip(g, g[n].to); }
  }

  /**
    If no type holds itself by value through members that are always there, which the parser
    sees to, then an accepted graph has no such cycle through optional members either. Below the
    limit of the search that, and the two bans on external, is all that validation asks for.
   */
  lemma AcceptedIsAcyclic(g: Graph)
    requires WellFormed(g) && Acyclic(TypeDigraph(g, Required))
    ensures (forall n :: 0 <= n < |g| ==> Good(g, n)) <==> Acyclic(TypeDigraph(g, ByValue)) && NoExternals(g)
  {
    var d, e := TypeDigraph(g, Required), TypeDigraph(g, ByValue);
    if forall n :: 0 <= n < |g| ==> Good(g, n) {
      forall n, m | Edge(e, n, m) && !Edge(d, n, m) ensures !Reaches(e, m, n) {
        OptionalEdge(g, n, m);
        assert Good(g, n);
      }
      AcyclicExtension(d, e);
      forall n | 0 <= n < |g| ensures NoExternal(g[n]) {
        assert Good(g, n) && WellFormedNode(g, n);
        if g[n].Struct? { assert forall k :: 0 <= k < |g[n].members| ==> GoodMember(g, n, g[n].members[k]); }
      }
    } else {
      var n :| 0 <= n < |g| && !Good(g, n);
      assert WellFormedNode(g, n);
      if g[n].Struct? {
        var k :| 0 <= k < |g[n].members| && !GoodMember(g, n, g[n].members[k]);
        var m := g[n].members[k];
        if !m.external {
          EdgeLinks(g, ByValue, n, Strip(g, ByValue, m.ty).value);
          assert Uses(g, ByValue, n, m.ty);
        }
      }
    }
  }

  /** No external branches, and no members that are external as well as optional. */
  predicate NoExternal(node: Node) {
    match node
    case Struct(_, members) => forall k :: 0 <= k < |members| ==> !(members[k].optional && members[k].external)
    case Union(_, cases) => forall k :: 0 <= k < |cases| ==> !cases[k].external
    case _ => true
  }

  predicate NoExternals(g: Graph) {
    forall n :: 0 <= n < |g| ==> NoExternal(g[n])
  }

  // ----- self-contained types -----

  ghost function Height(g: Graph, n: Id): nat
    requires WellFormed(g) && n < |g|
  {
    match Strip(g, ByValue, n)
    case None => 0
    case Some(m) => if g[m].Struct? || g[m].Union? then Rank(TypeDigraph(g, ByValue), m) + 1 else 0
  }

  lemma UseIsLower(g: Graph, n: Id, ty: Id)
    requires WellFormed(g) && Acyclic(TypeDigraph(g, ByValue)) && n < |g| && ty < |g| && Uses(g, ByValue, n, ty)
    ensures Height(g, ty) < Height(g, n)
  {
    var r := Strip(g, ByValue, ty);
    if r.Some? {
      EdgeLinks(g, ByValue, n, r.value);
      RankFalls(TypeDigraph(g, ByValue), n, r.value);
    }
  }

  lemma {:induction false} DiscriminatorIsLow(g: Graph, n: Id)
    requires WellFormed(g) && IsDiscriminator(g, n)
    ensures Height(g, n) == 0 && Strip(g, ByValue, n).Some? && g[Strip(g, ByValue, n).value] == Scalar(false)
    decreases n
  {
    if g[n].Alias? { DiscriminatorIsLow(g, g[n].to); }
  }

  /** Terminates because no type holds itself by value; forward declarations are not followed. */
  predicate IsSelfContained(g: Graph, n: Id)
    requires WellFormed(g) && Acyclic(TypeDigraph(g, ByValue)) && n < |g|
    decreases Height(g, n), n
  {
    assert WellFormedNode(g, n);
    match g[n]
    case Sequence(_) => false
    case Text => false
    case Scalar(ofOptional) => !ofOptional
    case Alias(to, _) => IsSelfContained(g, to)
    case Forward(_) => true
    case Struct(base, members) =>
      && (forall k :: 0 <= k < |members| ==>
            !members[k].external && (UseIsLower(g, n, members[k].ty); IsSelfContained(g, members[k].ty)))
      && (base.Some? ==> (UseIsLower(g, n, base.value); IsSelfContained(g, base.value)))
    case Union(disc, cases) =>
      && (DiscriminatorIsLow(g, disc); IsSelfContained(g, disc))
      && (forall k :: 0 <= k < |cases| ==>
            !cases[k].external && (UseIsLower(g, n, cases[k].ty); IsSelfContained(g, cases[k].ty)))
  }

  /** A node that keeps nothing outside the object and is not itself optional. */
  predicate InPlace(node: Node) {
    match node
    case Sequence(_) => false
    case Text => false
    case Scalar(ofOptional) => !ofOptional
    case Struct(_, members) => forall k :: 0 <= k < |members| ==> !members[k].external
    case Union(_, cases) => forall k :: 0 <= k < |cases| ==> !cases[k].external
    case _ => true
  }

  /** Everything from the type on that is declared before its use. */
  ghost predicate AllInPlace(g: Graph, n: Id)
    requires WellFormed(g) && n < |g|
  {
    forall m :: 0 <= m < |g| && Leads(g, Declared, n, m) ==> InPlace(g[m])
  }

  /** What is in place from a type on is what is in place in it and from each of its parts on. */
  lemma InPlaceParts(g: Graph, n: Id)
    requires WellFormed(g) && n < |g| && !g[n].Alias?
    ensures AllInPlace(g, n) <==> InPlace(g[n]) && forall ty :: 0 <= ty < |g| && Uses(g, Declared, n, ty) ==>
              AllInPlace(g, ty)
  {
    var d := TypeDigraph(g, Declared);
    ReachesItself(d, n);
    forall ty, m | 0 <= ty < |g| && Uses(g, Declared, n, ty) && 0 <= m < |g| && Leads(g, Declared, ty, m)
      ensures Leads(g, Declared, n, m)
    {
      EdgeLinks(g, Declared, n, Strip(g, Declared, ty).value);
      ReachesStep(d, n, Strip(g, Declared, ty).value, m);
    }
    forall m | 0 <= m < |g| && Leads(g, Declared, n, m) && m != n
      ensures exists ty :: 0 <= ty < |g| && Uses(g, Declared, n, ty) && Leads(g, Declared, ty, m)
    {
      var p :| Joins(d, p, n, m);
      assert Edge(d, p[0], p[1]);
      EdgeLinks(g, Declared, n, p[1]);
      var ty: Id :| ty < |g| && Uses(g, Declared, n, ty) && Strip(g, Declared, ty) == Some(p[1]);
      SubwalkReaches(d, p, 1, |p| - 1);
    }
  }

  /** Forward declarations make no difference to what a type uses, only to what that is. */
  lemma SameUses(g: Graph, n: Id, ty: Id)
    requires n < |g|
    ensures Uses(g, ByValue, n, ty) == Uses(g, Declared, n, ty)
  {
  }

  /**
    A type counts as self-contained exactly when nothing that it holds by value is a string or
    sequence, has an external part, or is an optional number; what a forward declaration stands
    for is not looked at.
   */
  lemma {:induction false} SelfContainedMeans(g: Graph, n: Id)
    requires WellFormed(g) && Acyclic(TypeDigraph(g, ByValue)) && n < |g|
    ensures IsSelfContained(g, n) <==> AllInPlace(g, n)
    decreases Height(g, n), n
  {
    assert WellFormedNode(g, n);
    if g[n].Alias? {
      SelfContainedMeans(g, g[n].to);
    } else {
      InPlaceParts(g, n);
      forall ty | 0 <= ty < |g| && Uses(g, Declared, n, ty)
        ensures IsSelfContained(g, ty) <==> AllInPlace(g, ty)
      {
        SameUses(g, n, ty);
        UseIsLower(g, n, ty);
        SelfContainedMeans(g, ty);
      }
      SelfContainedParts(g, n);
    }
  }

  lemma SelfContainedParts(g: Graph, n: Id)
    requires WellFormed(g) && Acyclic(TypeDigraph(g, ByValue)) && n < |g| && !g[n].Alias?
    ensures IsSelfContained(g, n) <==> InPlace(g[n]) && forall ty :: 0 <= ty < |g| && Uses(g, Declared, n, ty) ==>
              IsSelfContained(g, ty)
  {
    assert WellFormedNode(g, n);
    match g[n]
    case Struct(base, members) =>
      if InPlace(g[n]) {
        assert forall k :: 0 <= k < |members| ==> Uses(g, Declared, n, members[k].ty);
        assert base.Some? ==> Uses(g, Declared, n, base.value);
      }
    case Union(disc, cases) =>
      DiscriminatorIsLow(g, disc);
      DiscriminatorInPlace(g, disc);
      if InPlace(g[n]) {
        assert forall k :: 0 <= k < |cases| ==> Uses(g, Declared, n, cases[k].ty);
      }
    case _ =>
  }

  lemma {:induction false} DiscriminatorInPlace(g: Graph, n: Id)
    requires WellFormed(g) && Acyclic(TypeDigraph(g, ByValue)) && IsDiscriminator(g, n)
    ensures IsSelfContained(g, n)
    decreases n
  {
    if g[n].Alias? { DiscriminatorInPlace(g, g[n].to); }
  }

  /** A struct with a number, and a struct whose only member is an optional one of these. */
  const OPTIONAL_STRUCT: Graph := [
    Scalar(false),
    Struct(None, [TypeGraphs.Member(0, false, false)]),
    Struct(None, [TypeGraphs.Member(1, true, false)])
  ]

  /** An optional member of a declared type does not count: the type's parent is not the member. */
  lemma OptionalStructCounts()
    ensures WellFormed(OPTIONAL_STRUCT) && Acyclic(TypeDigraph(OPTIONAL_STRUCT, ByValue))
    ensures IsSelfContained(OPTIONAL_STRUCT, 2)
  {
    var g := OPTIONAL_STRUCT;
    forall n | 0 <= n < |g| ensures WellFormedNode(g, n) && InPlace(g[n]) {
      assert n == 0 || n == 1 || n == 2;
    }
    forall n: Id, m: Id | Edge(TypeDigraph(g, ByValue), n, m) ensures m < n {
      EdgeLinks(g, ByValue, n, m);
    }
    DescendingIsAcyclic(TypeDigraph(g, ByValue));
    SelfContainedMeans(g, 2);
  }
}
