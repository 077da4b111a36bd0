/**
  The recursive forms that come with the generator's tests, as graphs, and the verdict on each: what is
  supported and what must be rejected, and for which reason.
 */
module RecursiveForms {
  import opened Wrappers
  import opened Digraphs
  import opened TypeGraphs
  import opened Validation

  // struct node; struct node { long value; @optional node child; };
  const OPTIONAL_SELF: Graph := [
    Forward(Some(2)),
    Scalar(false),
    Struct(None, [TypeGraphs.Member(1, false, false), TypeGraphs.Member(0, true, false)])
  ]

  // struct node; struct node { @optional node child[2]; };
  const OPTIONAL_ARRAY_SELF: Graph := [
    Forward(Some(1)),
    Struct(None, [TypeGraphs.Member(0, true, false)])
  ]

  // struct node; typedef node node_array[2]; struct node { @optional node_array child; };
  const OPTIONAL_TYPEDEF_ARRAY_SELF: Graph := [
    Forward(Some(2)),
    Alias(0, true),
    Struct(None, [TypeGraphs.Member(1, true, false)])
  ]

  // struct node; struct node { long value; @optional sequence<node> children; };
  const OPTIONAL_SEQUENCE_SELF: Graph := [
    Forward(Some(3)),
    Scalar(false),
    TypeGraphs.Sequence(0),
    Struct(None, [TypeGraphs.Member(1, false, false), TypeGraphs.Member(2, true, false)])
  ]

  // struct node; typedef sequence<node> node_sequence; struct node { @optional node_sequence children; };
  const OPTIONAL_TYPEDEF_SEQUENCE_SELF: Graph := [
    Forward(Some(3)),
    TypeGraphs.Sequence(0),
    Alias(1, false),
    Struct(None, [TypeGraphs.Member(2, true, false)])
  ]

  // struct a; struct b; struct a { sequence<b> bs; }; struct b { sequence<a> as; };
  const MUTUAL_SEQUENCE: Graph := [
    Forward(Some(4)),
    Forward(Some(5)),
    TypeGraphs.Sequence(1),
    TypeGraphs.Sequence(0),
    Struct(None, [TypeGraphs.Member(2, false, false)]),
    Struct(None, [TypeGraphs.Member(3, false, false)])
  ]

  // struct leaf { long value; }; struct holder { @optional @external leaf child; };
  const OPTIONAL_EXTERNAL: Graph := [
    Scalar(false),
    Struct(None, [TypeGraphs.Member(0, false, false)]),
    Struct(None, [TypeGraphs.Member(1, true, true)])
  ]

  // union u; union u switch (long) { case 1: @external u child; case 0: long value; };
  const EXTERNAL_UNION_CASE: Graph := [
    Forward(Some(2)),
    Scalar(false),
    TypeGraphs.Union(1, [TypeGraphs.Case(0, true), TypeGraphs.Case(1, false)])
  ]

  lemma NothingWrong(g: Graph, n: Id)
    requires WellFormed(g) && n < |g| && forall k :: n <= k < |g| ==> NodeVerdict(g, k) == Accepted
    ensures VerdictFrom(g, n) == Accepted
    decreases |g| - n
  {
    hide NodeVerdict;
    if n + 1 < |g| { NothingWrong(g, n + 1); }
  }

  /** The first type with something wrong decides. */
  lemma {:induction false} FirstWrong(g: Graph, n: Id, k: Id)
    requires WellFormed(g) && n <= k < |g| && forall i :: n <= i < k ==> NodeVerdict(g, i) == Accepted
    requires NodeVerdict(g, k) != Accepted
    ensures VerdictFrom(g, n) == NodeVerdict(g, k)
    decreases k - n
  {
    hide NodeVerdict;
    if n < k { FirstWrong(g, n + 1, k); }
  }

  lemma OneMember(g: Graph, n: Id, m: TypeGraphs.Member)
    requires WellFormed(g) && n < |g| && g[n] == Struct(None, [m]) && m.ty < |g|
    ensures NodeVerdict(g, n) == MemberVerdict(g, n, m)
  {
    hide MemberVerdict;
    assert [m][1..] == [];
    assert MembersVerdict(g, n, []) == Accepted;
  }

  lemma TwoMembers(g: Graph, n: Id, l: TypeGraphs.Member, m: TypeGraphs.Member)
    requires WellFormed(g) && n < |g| && g[n] == Struct(None, [l, m]) && !l.optional && l.ty < |g| && m.ty < |g|
    ensures NodeVerdict(g, n) == MemberVerdict(g, n, m)
  {
    assert [l, m][1..] == [m] && [m][1..] == [];
    assert MemberVerdict(g, n, l) == Accepted;
    hide MemberVerdict;
    assert MembersVerdict(g, n, []) == Accepted;
    assert MembersVerdict(g, n, [m]) == MemberVerdict(g, n, m);
  }

  /** A member whose type comes down to its owner. */
  lemma ReachesOwner(g: Graph, n: Id, m: TypeGraphs.Member)
    requires WellFormed(g) && n < |g| && m.ty < |g| && Strip(g, ByValue, m.ty) == Some(n)
    requires m.optional && !m.external
    ensures MemberVerdict(g, n, m) == RecursiveOptional(n)
  {
    ReachesItself(TypeDigraph(g, ByValue), n);
  }

  lemma NoWayOut(g: Graph, e: Id, n: Id)
    requires WellFormed(g) && e < |g| && g[e].Sequence? && e != n
    ensures !Reaches(TypeDigraph(g, ByValue), e, n)
  {
    var d := TypeDigraph(g, ByValue);
    forall m: Id ensures !Edge(d, e, m) { EdgeLinks(g, ByValue, e, m); }
    hide TypeDigraph;
    if Reaches(d, e, n) {
      var p :| Joins(d, p, e, n);
      var m := FirstEdge(d, p, e, n);
      assert false;
    }
  }

  lemma FirstEdge(d: Digraph, p: seq<nat>, e: nat, n: nat) returns (m: nat)
    requires Joins(d, p, e, n) && e != n
    ensures Edge(d, e, m)
  {
    m := p[1];
    assert Edge(d, p[0], p[1]);
  }

  /** A member whose type comes down to a sequence, at which a search by value ends. */
  lemma EndsAtSequence(g: Graph, n: Id, m: TypeGraphs.Member, e: Id)
    requires WellFormed(g) && n < |g| && m.ty < |g| && Strip(g, ByValue, m.ty) == Some(e) && !m.external
    requires g[e].Sequence? && e != n
    ensures MemberVerdict(g, n, m) == Accepted
  {
    NoWayOut(g, e, n);
  }

  /** An optional member of the struct itself, by way of a forward declaration. */
  lemma OptionalSelfRejected()
    ensures WellFormed(OPTIONAL_SELF) && VerdictFrom(OPTIONAL_SELF, 0) == RecursiveOptional(2)
  {
    var g := OPTIONAL_SELF;
    var m := g[2].members[1];
    assert WellFormedNode(g, 0) && WellFormedNode(g, 1) && WellFormedNode(g, 2);
    assert WellFormed(g);
    assert Strip(g, ByValue, 0) == Some(2);
    ReachesOwner(g, 2, m);
    TwoMembers(g, 2, g[2].members[0], m);
    FirstWrong(g, 0, 2);
  }

  /** The same for an array of the struct itself, also behind a typedef. */
  lemma OptionalArraySelfRejected()
    ensures WellFormed(OPTIONAL_ARRAY_SELF) && VerdictFrom(OPTIONAL_ARRAY_SELF, 0) == RecursiveOptional(1)
    ensures WellFormed(OPTIONAL_TYPEDEF_ARRAY_SELF)
    ensures VerdictFrom(OPTIONAL_TYPEDEF_ARRAY_SELF, 0) == RecursiveOptional(2)
  {
    var g := OPTIONAL_ARRAY_SELF;
    assert WellFormedNode(g, 0) && WellFormedNode(g, 1);
    assert WellFormed(g);
    ReachesOwner(g, 1, g[1].members[0]);
    OneMember(g, 1, g[1].members[0]);
    FirstWrong(g, 0, 1);
    TypedefArrayRejected();
  }

  lemma TypedefArrayRejected()
    ensures WellFormed(OPTIONAL_TYPEDEF_ARRAY_SELF)
    ensures VerdictFrom(OPTIONAL_TYPEDEF_ARRAY_SELF, 0) == RecursiveOptional(2)
  {
    var g := OPTIONAL_TYPEDEF_ARRAY_SELF;
    assert WellFormedNode(g, 0) && WellFormedNode(g, 1) && WellFormedNode(g, 2);
    assert WellFormed(g);
    assert Strip(g, ByValue, 0) == Some(2);
    ReachesOwner(g, 2, g[2].members[0]);
    OneMember(g, 2, g[2].members[0]);
    FirstWrong(g, 0, 2);
  }

  /** Sequences of the struct itself are supported in optional members, also behind a typedef. */
  lemma OptionalSequenceSelfAccepted()
    ensures WellFormed(OPTIONAL_SEQUENCE_SELF) && VerdictFrom(OPTIONAL_SEQUENCE_SELF, 0) == Accepted
    ensures WellFormed(OPTIONAL_TYPEDEF_SEQUENCE_SELF)
    ensures VerdictFrom(OPTIONAL_TYPEDEF_SEQUENCE_SELF, 0) == Accepted
  {
    var g := OPTIONAL_SEQUENCE_SELF;
    assert WellFormedNode(g, 0) && WellFormedNode(g, 1) && WellFormedNode(g, 2) && WellFormedNode(g, 3);
    assert WellFormed(g);
    EndsAtSequence(g, 3, g[3].members[1], 2);
    TwoMembers(g, 3, g[3].members[0], g[3].members[1]);
    NothingWrong(g, 0);
    TypedefSequenceAccepted();
  }

  lemma TypedefSequenceAccepted()
    ensures WellFormed(OPTIONAL_TYPEDEF_SEQUENCE_SELF)
    ensures VerdictFrom(OPTIONAL_TYPEDEF_SEQUENCE_SELF, 0) == Accepted
  {
    var g := OPTIONAL_TYPEDEF_SEQUENCE_SELF;
    assert WellFormedNode(g, 0) && WellFormedNode(g, 1) && WellFormedNode(g, 2) && WellFormedNode(g, 3);
    assert WellFormed(g);
    assert Strip(g, ByValue, 1) == Some(1);
    EndsAtSequence(g, 3, g[3].members[0], 1);
    OneMember(g, 3, g[3].members[0]);
    NothingWrong(g, 0);
  }

  /** Structs that hold sequences of each other are supported. */
  lemma MutualSequenceAccepted()
    ensures WellFormed(MUTUAL_SEQUENCE) && VerdictFrom(MUTUAL_SEQUENCE, 0) == Accepted
  {
    var g := MUTUAL_SEQUENCE;
    forall n | 0 <= n < |g| ensures WellFormedNode(g, n) { assert n == 0 || n == 1 || n == 2 || n == 3 || n >= 4; }
    OneMember(g, 4, g[4].members[0]);
    OneMember(g, 5, g[5].members[0]);
    NothingWrong(g, 0);
  }

  /** No member is optional and external at once, and no branch is external. */
  lemma ExternalsRejected()
    ensures WellFormed(OPTIONAL_EXTERNAL) && VerdictFrom(OPTIONAL_EXTERNAL, 0) == OptionalExternal(2)
    ensures WellFormed(EXTERNAL_UNION_CASE) && VerdictFrom(EXTERNAL_UNION_CASE, 0) == ExternalBranch(2)
  {
    var g := OPTIONAL_EXTERNAL;
    assert WellFormedNode(g, 0) && WellFormedNode(g, 1) && WellFormedNode(g, 2);
    assert WellFormed(g);
    OneMember(g, 1, g[1].members[0]);
    OneMember(g, 2, g[2].members[0]);
    FirstWrong(g, 0, 2);
    ExternalBranchRejected();
  }

  lemma ExternalBranchRejected()
    ensures WellFormed(EXTERNAL_UNION_CASE) && VerdictFrom(EXTERNAL_UNION_CASE, 0) == ExternalBranch(2)
  {
    var g := EXTERNAL_UNION_CASE;
    assert WellFormedNode(g, 0) && WellFormedNode(g, 1) && WellFormedNode(g, 2);
    assert WellFormed(g);
    assert g[2].cases[0].external;
    FirstWrong(g, 0, 2);
  }
}
