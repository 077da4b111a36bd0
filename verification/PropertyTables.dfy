/**
  The tables of entity properties: which of them take over the table of another type, and why
  the functions that build them never wait for themselves.
 */
module PropertyTables {
  import opened Wrappers
  import opened Digraphs
  import opened TypeGraphs

  /** All members of a struct, those of its bases first. */
  function Members(g: Graph, n: Id): (r: seq<TypeGraphs.Member>)
    requires WellFormed(g) && n < |g|
    ensures forall k :: 0 <= k < |r| ==> r[k].ty < |g|
    decreases n
  {
    assert WellFormedNode(g, n);
    match g[n]
    case Struct(base, members) => (if base.Some? then Members(g, base.value) else []) + members
    case _ => []
  }

  /** What is left of a member's type without typedefs and sequences. */
  function Unwrap(g: Graph, ty: Id): (r: Id)
    requires WellFormed(g) && ty < |g|
    ensures r < |g|
    decreases if g[ty].Alias? || g[ty].Sequence? then ty + 1 else 0
  {
    assert WellFormedNode(g, ty);
    match g[ty]
    case Alias(to, _) => Unwrap(g, to)
    case Sequence(elem) => Unwrap(g, elem)
    case _ => ty
  }

  /** The struct a forward declaration stands for counts as mentioned. */
  function Mentioned(g: Graph, ty: Id): (r: Option<Id>)
    requires WellFormed(g) && ty < |g|
    ensures r.Some? ==> r.value < |g| && g[r.value].Struct?
  {
    var n := Unwrap(g, ty);
    assert WellFormedNode(g, n);
    match g[n]
    case Struct(_, _) => Some(n)
    case Forward(Some(def)) => if g[def].Struct? then Some(def) else None
    case _ => None
  }

  // ----- what these come to -----

  predicate Extends(g: Graph, n: Id, base: Id) {
    n < |g| && g[n].Struct? && g[n].base == Some(base)
  }

  /** From a struct over its base to the bases beyond it. */
  predicate BasePath(g: Graph, p: seq<Id>, n: Id, a: Id) {
    && |p| > 0 && p[0] == n && p[|p| - 1] == a
    && forall i :: 0 <= i < |p| - 1 ==> Extends(g, p[i], p[i + 1])
  }

  ghost predicate Inherits(g: Graph, n: Id, a: Id) {
    exists p :: BasePath(g, p, n, a)
  }

  lemma InheritsStep(g: Graph, n: Id, base: Id, a: Id)
    requires Extends(g, n, base)
    ensures Inherits(g, n, a) <==> a == n || Inherits(g, base, a)
  {
    assert BasePath(g, [n], n, n);
    if Inherits(g, base, a) {
      var p :| BasePath(g, p, base, a);
      var q := [n] + p;
      assert forall i :: 0 < i < |q| ==> q[i] == p[i - 1];
      assert BasePath(g, q, n, a);
    }
    if Inherits(g, n, a) && a != n {
      var p :| BasePath(g, p, n, a);
      assert Extends(g, p[0], p[1]);
      assert BasePath(g, p[1..], base, a);
    }
  }

  lemma InheritsNothing(g: Graph, n: Id, a: Id)
    requires n < |g| && (g[n].Struct? ==> g[n].base == None)
    ensures Inherits(g, n, a) <==> a == n
  {
    assert BasePath(g, [n], n, n);
    if Inherits(g, n, a) {
      var p :| BasePath(g, p, n, a);
      if |p| > 1 {
        var base := FirstBase(g, p, n, a);
        assert false;
      }
    }
  }

  lemma FirstBase(g: Graph, p: seq<Id>, n: Id, a: Id) returns (base: Id)
    requires BasePath(g, p, n, a) && |p| > 1
    ensures Extends(g, n, base)
  {
    base := p[1];
    assert Extends(g, p[0], p[1]);
  }

  /** The members of a struct are its own and those of all that it inherits from, and no others. */
  lemma {:induction false} MembersOfBases(g: Graph, n: Id, m: TypeGraphs.Member)
    requires WellFormed(g) && n < |g|
    ensures m in Members(g, n) <==> exists a: Id :: a < |g| && Inherits(g, n, a) && g[a].Struct? && m in g[a].members
    decreases n
  {
    hide Inherits;
    assert WellFormedNode(g, n);
    if g[n].Struct? && g[n].base.Some? {
      var base := g[n].base.value;
      MembersOfBases(g, base, m);
      forall a: Id ensures Inherits(g, n, a) <==> a == n || Inherits(g, base, a) { InheritsStep(g, n, base, a); }
      if a: Id :| a < |g| && Inherits(g, base, a) && g[a].Struct? && m in g[a].members { assert Inherits(g, n, a); }
    } else {
      forall a: Id ensures Inherits(g, n, a) <==> a == n { InheritsNothing(g, n, a); }
    }
  }

  /** An alias comes down to its target, a sequence to its element, a forward declaration to its definition. */
  predicate ComesDown(g: Graph, n: Id, m: Id) {
    n < |g| &&
    match g[n]
    case Alias(to, _) => to == m
    case Sequence(elem) => elem == m
    case Forward(def) => def == Some(m)
    case _ => false
  }

  predicate DownPath(g: Graph, p: seq<Id>, n: Id, m: Id) {
    |p| > 0 && p[0] == n && p[|p| - 1] == m && forall i :: 0 <= i < |p| - 1 ==> ComesDown(g, p[i], p[i + 1])
  }

  ghost predicate ComesDownTo(g: Graph, n: Id, m: Id) {
    exists p :: DownPath(g, p, n, m)
  }

  lemma DownStep(g: Graph, n: Id, next: Id, m: Id)
    requires ComesDown(g, n, next)
    ensures ComesDownTo(g, n, m) <==> m == n || ComesDownTo(g, next, m)
  {
    assert DownPath(g, [n], n, n);
    if ComesDownTo(g, next, m) {
      var p :| DownPath(g, p, next, m);
      var q := [n] + p;
      assert forall i :: 0 < i < |q| ==> q[i] == p[i - 1];
      assert DownPath(g, q, n, m);
    }
    if ComesDownTo(g, n, m) && m != n {
      var p :| DownPath(g, p, n, m);
      assert ComesDown(g, p[0], p[1]);
      assert DownPath(g, p[1..], next, m);
    }
  }

  lemma DownNowhere(g: Graph, n: Id, m: Id)
    requires forall k :: !ComesDown(g, n, k)
    ensures ComesDownTo(g, n, m) <==> m == n
  {
    assert DownPath(g, [n], n, n);
    if ComesDownTo(g, n, m) {
      var p :| DownPath(g, p, n, m);
      if |p| > 1 {
        var next := FirstDown(g, p, n, m);
        assert false;
      }
    }
  }

  lemma FirstDown(g: Graph, p: seq<Id>, n: Id, m: Id) returns (next: Id)
    requires DownPath(g, p, n, m) && |p| > 1
    ensures ComesDown(g, n, next)
  {
    next := p[1];
    assert ComesDown(g, p[0], p[1]);
  }

  /** A member mentions the struct that its type comes down to, if that is what it comes down to. */
  lemma {:induction false} MentionedMeans(g: Graph, ty: Id, m: Id)
    requires WellFormed(g) && ty < |g|
    ensures Mentioned(g, ty) == Some(m) <==> m < |g| && g[m].Struct? && ComesDownTo(g, ty, m)
    decreases if g[ty].Alias? || g[ty].Sequence? then ty + 1 else 0
  {
    hide ComesDownTo;
    assert WellFormedNode(g, ty);
    match g[ty]
    case Alias(to, _) =>
      DownStep(g, ty, to, m);
      MentionedMeans(g, to, m);
    case Sequence(elem) =>
      DownStep(g, ty, elem, m);
      MentionedMeans(g, elem, m);
    case Forward(Some(def)) =>
      DownStep(g, ty, def, m);
      DownNowhere(g, def, m);
    case _ => DownNowhere(g, ty, m);
  }

  ghost predicate Mentions(g: Graph, n: Id, m: Id)
    requires WellFormed(g) && n < |g|
  {
    exists k :: 0 <= k < |Members(g, n)| && Mentioned(g, Members(g, n)[k].ty) == Some(m)
  }

  /** The table of `n` takes over that of `m` only if `m` does not lead back to `n`. */
  ghost predicate MayAppend(g: Graph, n: Id, m: Id)
    requires WellFormed(g) && n < |g|
  {
    m < |g| && Mentions(g, n, m) && !Leads(g, References, m, n)
  }

  /** The type whose table follows the entry of a member, if any. */
  method GenerateMemberProperties(g: Graph, ty: Id, current: Id) returns (append: Option<Id>)
    requires WellFormed(g) && ty < |g| && current < |g|
    ensures append.Some? ==> append == Mentioned(g, ty) && !Leads(g, References, append.value, current)
    ensures append.None? && Mentioned(g, ty).Some? ==>
              Leads(g, References, Mentioned(g, ty).value, current) || |g| >= VISITED_MAX
  {
    var n: Id := ty;
    while g[n].Alias? || g[n].Sequence?
      invariant n < |g| && Unwrap(g, n) == Unwrap(g, ty)
      decreases if g[n].Alias? || g[n].Sequence? then n + 1 else 0
    {
      assert WellFormedNode(g, n);
      n := if g[n].Alias? then g[n].to else g[n].elem;
    }
    var def := Mentioned(g, n);
    if def.None? { return None; }
    var found, _ := TypeReachesType(g, References, def.value, current);
    append := if found then None else def;
  }

  method GenerateStructProperties(g: Graph, n: Id) returns (appended: set<Id>)
    requires WellFormed(g) && n < |g|
    ensures forall m :: m in appended ==> MayAppend(g, n, m)
    ensures forall m: Id :: m < |g| && Mentions(g, n, m) && m !in appended ==>
              Leads(g, References, m, n) || |g| >= VISITED_MAX
  {
    appended := {};
    var members := Members(g, n);
    for k := 0 to |members|
      invariant forall m :: m in appended ==> MayAppend(g, n, m)
      invariant forall j :: 0 <= j < k && Mentioned(g, members[j].ty).Some? ==>
                  var m := Mentioned(g, members[j].ty).value;
                  m in appended || Leads(g, References, m, n) || |g| >= VISITED_MAX
    {
      var append := GenerateMemberProperties(g, members[k].ty, n);
      if append.Some? { appended := appended + {append.value}; }
    }
  }

  // ----- what the search misses -----

  /** Mentioned, but only by way of a typedef of an array, at which the search for references stops. */
  ghost predicate Hidden(g: Graph, n: Id, m: Id)
    requires WellFormed(g)
  {
    n < |g| && m < |g| && Mentions(g, n, m) && !Reaches(TypeDigraph(g, References), n, m)
  }

  ghost function MentionDigraph(g: Graph): (d: Digraph)
    requires WellFormed(g)
    ensures |d| == |g|
    ensures forall n: Id, m: Id :: Edge(d, n, m) <==> n < |g| && m < |g| && Mentions(g, n, m)
  {
    seq(|g|, n requires 0 <= n < |g| => set m | 0 <= m < |g| && Mentions(g, n, m))
  }

  /** A struct that is mentioned only by way of a typedef of an array does not lead back. */
  ghost predicate Disentangled(g: Graph)
    requires WellFormed(g)
  {
    forall n, m :: Hidden(g, n, m) ==> !Reaches(MentionDigraph(g), m, n)
  }

  predicate NoArrayTypedefs(g: Graph) {
    forall n :: 0 <= n < |g| && g[n].Alias? ==> !g[n].isArray
  }

  /** Without typedefs of arrays nothing is hidden. */
  lemma NothingHidden(g: Graph)
    requires WellFormed(g) && NoArrayTypedefs(g)
    ensures Disentangled(g)
  {
    forall n, m | Hidden(g, n, m) ensures false {
      MentionsReaches(g, n, m);
    }
  }

  /** The calls between the functions that build the tables. */
  method GenerateTables(g: Graph) returns (calls: Digraph)
    requires WellFormed(g)
    ensures |calls| == |g| && Closed(calls) && (Disentangled(g) ==> Acyclic(calls))
    ensures Acyclic(calls) <==> forall n, m :: Edge(calls, n, m) && Hidden(g, n, m) ==> !Reaches(calls, m, n)
    ensures forall n, m :: 0 <= n < |g| && 0 <= m < |g| && Mentions(g, n, m) ==>
              Edge(calls, n, m) || Leads(g, References, m, n) || |g| >= VISITED_MAX
  {
    calls := [];
    for n := 0 to |g|
      invariant |calls| == n
      invariant forall k, m :: 0 <= k < n && m in calls[k] ==> MayAppend(g, k, m)
      invariant forall k, m :: 0 <= k < n && 0 <= m < |g| && Mentions(g, k, m) && m !in calls[k] ==>
                  Leads(g, References, m, k) || |g| >= VISITED_MAX
    {
      var appended := GenerateStructProperties(g, n);
      calls := calls + [appended];
    }
    HiddenCallsDecide(g, calls);
    if Disentangled(g) { CallsAreAcyclic(g, calls); }
  }

  /** What a member mentions can be reached from its type. */
  lemma {:induction false} MentionedIsReached(g: Graph, ty: Id)
    requires WellFormed(g) && NoArrayTypedefs(g) && ty < |g| && Mentioned(g, ty).Some?
    ensures Leads(g, References, ty, Mentioned(g, ty).value)
    decreases if g[ty].Alias? || g[ty].Sequence? then ty + 1 else 0
  {
    assert WellFormedNode(g, ty);
    match g[ty]
    case Alias(to, _) => MentionedIsReached(g, to);
    case Sequence(elem) =>
      MentionedIsReached(g, elem);
      assert Uses(g, References, ty, elem);
      EdgeLinks(g, References, ty, Strip(g, References, elem).value);
      ReachesStep(TypeDigraph(g, References), ty, Strip(g, References, elem).value, Mentioned(g, ty).value);
    case Forward(_) => ReachesItself(TypeDigraph(g, References), Mentioned(g, ty).value);
    case Struct(_, _) => ReachesItself(TypeDigraph(g, References), ty);
    case _ =>
  }

  /** What a struct mentions is mentioned by its base or by a member of its own. */
  lemma MentionsParts(g: Graph, n: Id, m: Id) returns (ty: Id)
    requires WellFormed(g) && n < |g| && Mentions(g, n, m)
    ensures g[n].Struct? && (g[n].base.Some? ==> g[n].base.value < n)
    ensures (g[n].base.Some? && Mentions(g, g[n].base.value, m)) ||
            (ty < |g| && Uses(g, References, n, ty) && Mentioned(g, ty) == Some(m))
  {
    assert WellFormedNode(g, n);
    var all := Members(g, n);
    var k :| 0 <= k < |all| && Mentioned(g, all[k].ty) == Some(m);
    ty := all[k].ty;
    hide Mentioned;
    var Struct(base, members) := g[n];
    if base.Some? && k < |Members(g, base.value)| {
      assert Members(g, base.value)[k] == all[k];
    } else {
      var own := if base.Some? then k - |Members(g, base.value)| else k;
      assert all[k] == members[own] && !Skips(References, members[own].external, members[own].optional);
    }
  }

  lemma UseReaches(g: Graph, n: Id, ty: Id, m: Id)
    requires WellFormed(g) && n < |g| && ty < |g| && Uses(g, References, n, ty) && Leads(g, References, ty, m)
    ensures Reaches(TypeDigraph(g, References), n, m)
  {
    EdgeLinks(g, References, n, Strip(g, References, ty).value);
    hide Uses; hide Strip; hide Reaches;
    ReachesStep(TypeDigraph(g, References), n, Strip(g, References, ty).value, m);
  }

  lemma BaseReaches(g: Graph, n: Id, m: Id)
    requires WellFormed(g) && n < |g| && g[n].Struct? && g[n].base.Some? && g[n].base.value < |g| &&
             g[g[n].base.value].Struct?
    requires Reaches(TypeDigraph(g, References), g[n].base.value, m)
    ensures Reaches(TypeDigraph(g, References), n, m)
  {
    assert Uses(g, References, n, g[n].base.value) && Strip(g, References, g[n].base.value) == Some(g[n].base.value);
    hide Reaches; hide Uses; hide Strip;
    UseReaches(g, n, g[n].base.value, m);
  }

  /** What a struct mentions, in its own members or in those of its bases, can be reached from it. */
  lemma {:induction false} MentionsReaches(g: Graph, n: Id, m: Id)
    requires WellFormed(g) && NoArrayTypedefs(g) && n < |g| && Mentions(g, n, m)
    ensures Reaches(TypeDigraph(g, References), n, m)
    decreases n
  {
    assert WellFormedNode(g, n);
    var ty := MentionsParts(g, n, m);
    hide Mentions; hide Reaches; hide Uses; hide Leads; hide Mentioned;
    if g[n].base.Some? && Mentions(g, g[n].base.value, m) {
      MentionsReaches(g, g[n].base.value, m);
      BaseReaches(g, n, m);
    } else {
      MentionedIsReached(g, ty);
      UseReaches(g, n, ty, m);
    }
  }

  /** The calls that the search for references can see. */
  ghost function Seen(g: Graph, calls: Digraph): (d: Digraph)
    requires WellFormed(g) && |calls| == |g|
    ensures |d| == |g| && forall n: Id, m: Id :: Edge(d, n, m) <==>
              Edge(calls, n, m) && Reaches(TypeDigraph(g, References), n, m)
  {
    seq(|g|, n requires 0 <= n < |g| => set m | m in calls[n] && Reaches(TypeDigraph(g, References), n, m))
  }

  lemma {:induction false} SeenAreReferences(g: Graph, calls: Digraph, p: seq<Id>)
    requires WellFormed(g) && |calls| == |g| && Walk(Seen(g, calls), p)
    ensures Reaches(TypeDigraph(g, References), p[0], p[|p| - 1])
  {
    var d, seen := TypeDigraph(g, References), Seen(g, calls);
    if |p| == 1 {
      ReachesItself(d, p[0]);
    } else {
      assert Edge(seen, p[0], p[1]);
      forall i | 0 <= i < |p[1..]| - 1 ensures Edge(seen, p[1..][i], p[1..][i + 1]) {
        assert Edge(seen, p[i + 1], p[i + 2]);
      }
      SeenAreReferences(g, calls, p[1..]);
      ReachesTrans(d, p[0], p[1], p[|p| - 1]);
    }
  }

  /** No call that the search can see leads back by calls that it can see. */
  lemma SeenIsAcyclic(g: Graph, calls: Digraph)
    requires WellFormed(g) && |calls| == |g|
    requires forall n, m :: 0 <= n < |g| && m in calls[n] ==> MayAppend(g, n, m)
    ensures Acyclic(Seen(g, calls))
  {
    var seen := Seen(g, calls);
    forall n: Id, m: Id | Edge(seen, n, m) ensures !Reaches(seen, m, n) {
      assert MayAppend(g, n, m);
      if Reaches(seen, m, n) {
        var p :| Joins(seen, p, m, n);
        SeenAreReferences(g, calls, p);
      }
    }
  }

  /**
    Whatever tables are taken over, recursive types or not: the functions that build them come to
    call themselves only by a call that the search could not see. So these calls decide.
   */
  lemma HiddenCallsDecide(g: Graph, calls: Digraph)
    requires WellFormed(g) && |calls| == |g|
    requires forall n, m :: 0 <= n < |g| && m in calls[n] ==> MayAppend(g, n, m)
    ensures Closed(calls)
    ensures Acyclic(calls) <==> forall n, m :: Edge(calls, n, m) && Hidden(g, n, m) ==> !Reaches(calls, m, n)
  {
    SeenIsAcyclic(g, calls);
    if forall n, m :: Edge(calls, n, m) && Hidden(g, n, m) ==> !Reaches(calls, m, n) {
      forall n: Id, m: Id | Edge(calls, n, m) && !Edge(Seen(g, calls), n, m) ensures !Reaches(calls, m, n) {
        assert MayAppend(g, n, m) && Hidden(g, n, m);
      }
      AcyclicExtension(Seen(g, calls), calls);
    }
  }

  /** Where what is hidden does not lead back, no function calls itself by any detour. */
  lemma CallsAreAcyclic(g: Graph, calls: Digraph)
    requires WellFormed(g) && Disentangled(g) && |calls| == |g|
    requires forall n, m :: 0 <= n < |g| && m in calls[n] ==> MayAppend(g, n, m)
    ensures Closed(calls) && Acyclic(calls)
  {
    HiddenCallsDecide(g, calls);
    forall n: Id, m: Id | Edge(calls, n, m) && Hidden(g, n, m) ensures !Reaches(calls, m, n) {
      if Reaches(calls, m, n) {
        var p :| Joins(calls, p, m, n);
        forall i | 0 <= i < |p| - 1 ensures Edge(MentionDigraph(g), p[i], p[i + 1]) {
          assert Edge(calls, p[i], p[i + 1]);
          assert MayAppend(g, p[i], p[i + 1]);
        }
        assert Joins(MentionDigraph(g), p, m, n);
      }
    }
  }

  /** Nested calls hold a different lock each, and no more of them than there are types. */
  lemma LocksAreDistinct(calls: Digraph, p: seq<Id>)
    requires Closed(calls) && Acyclic(calls) && Walk(calls, p) && p[0] < |calls|
    ensures Distinct(p) && |p| <= |calls|
  {
    WalksAreShort(calls, p);
    forall i, j | 0 <= i < j < |p| ensures p[i] != p[j] {
      assert Edge(calls, p[i], p[i + 1]);
      SubwalkReaches(calls, p, i + 1, j);
    }
  }

  // ----- typedefs of arrays -----

  /** Two structs that hold arrays of sequences of each other, by way of typedefs. */
  const ENTANGLED: Graph := [
    Forward(Some(6)),                                    // struct B;
    Sequence(0),
    Alias(1, true),                                      // typedef sequence<B> Bs[2];
    Struct(None, [TypeGraphs.Member(2, false, false)]),  // struct A { Bs b; };
    Sequence(3),
    Alias(4, true),                                      // typedef sequence<A> As[2];
    Struct(None, [TypeGraphs.Member(5, false, false)])   // struct B { As a; };
  ]

  /** With such typedefs the search finds no way back from either struct, and each takes over the other's table. */
  lemma ArrayTypedefsEntangle()
    ensures WellFormed(ENTANGLED) && MayAppend(ENTANGLED, 3, 6) && MayAppend(ENTANGLED, 6, 3)
  {
    EntangledMentions();
    OnlyArray(ENTANGLED, 3, 2, 6);
    OnlyArray(ENTANGLED, 6, 5, 3);
    hide Mentions; hide WellFormed; hide Leads;
  }

  lemma EntangledMentions()
    ensures WellFormed(ENTANGLED) && Mentions(ENTANGLED, 3, 6) && Mentions(ENTANGLED, 6, 3)
  {
    var g := ENTANGLED;
    forall n | 0 <= n < |g| ensures WellFormedNode(g, n) {
      assert n == 0 || n == 1 || n == 2 || n == 3 || n == 4 || n == 5 || n == 6;
    }
    SoleMember(g, 3, 2);
    SoleMember(g, 6, 5);
    assert Unwrap(g, 2) == Unwrap(g, 1) == Unwrap(g, 0) == 0 && Mentioned(g, 2) == Some(6);
    assert Unwrap(g, 5) == Unwrap(g, 4) == Unwrap(g, 3) == 3 && Mentioned(g, 5) == Some(3);
    hide Members; hide Mentioned;
    assert Mentioned(g, Members(g, 3)[0].ty) == Some(6) && Mentioned(g, Members(g, 6)[0].ty) == Some(3);
  }

  lemma SoleMember(g: Graph, n: Id, ty: Id)
    requires WellFormed(g) && n < |g| && g[n] == Struct(None, [TypeGraphs.Member(ty, false, false)])
    ensures Members(g, n) == [TypeGraphs.Member(ty, false, false)]
  {
  }

  /** A struct that holds an array of sequences of another one, by way of a typedef, and is held by it in place. */
  const HALF_ENTANGLED: Graph := [
    Forward(Some(4)),                                    // struct B;
    Sequence(0),
    Alias(1, true),                                      // typedef sequence<B> Bs[2];
    Struct(None, [TypeGraphs.Member(2, false, false)]),  // struct A { Bs b; };
    Struct(None, [TypeGraphs.Member(3, false, false)])   // struct B { A a; };
  ]

  /**
    It is not necessary that what is hidden does not lead back: here it does, and still only the
    outer struct takes over a table, that of the inner one.
   */
  lemma EntangledAndYetAcyclic(calls: Digraph)
    requires |calls| == |HALF_ENTANGLED| && WellFormed(HALF_ENTANGLED)
    requires forall n, m :: 0 <= n < |calls| && m in calls[n] ==> MayAppend(HALF_ENTANGLED, n, m)
    ensures !Disentangled(HALF_ENTANGLED) && Acyclic(calls)
  {
    var g := HALF_ENTANGLED;
    HalfMentions();
    OnlyArray(g, 3, 2, 4);
    hide Mentions; hide WellFormed;
    var md := MentionDigraph(g);
    assert Hidden(g, 3, 4) && Edge(md, 4, 3);
    assert Reaches(md, 4, 3) by { ReachesItself(md, 3); ReachesStep(md, 4, 3, 3); }
    forall n: Id, m: Id | Edge(calls, n, m) ensures m < n {
      assert MayAppend(g, n, m) && Mentions(g, n, m);
      if n == 3 {
        assert m == 4;
        InPlace();
      }
    }
    DescendingIsAcyclic(calls);
  }

  lemma HalfMentions()
    ensures WellFormed(HALF_ENTANGLED)
    ensures forall n, m :: 0 <= n < |HALF_ENTANGLED| && Mentions(HALF_ENTANGLED, n, m) <==>
              (n == 3 && m == 4) || (n == 4 && m == 3)
  {
    var g := HALF_ENTANGLED;
    forall n | 0 <= n < |g| ensures WellFormedNode(g, n) {
      assert n == 0 || n == 1 || n == 2 || n == 3 || n == 4;
    }
    SoleMember(g, 3, 2);
    SoleMember(g, 4, 3);
    assert Unwrap(g, 2) == Unwrap(g, 1) == Unwrap(g, 0) == 0 && Mentioned(g, 2) == Some(4);
    assert Mentioned(g, 3) == Some(3);
    assert Members(g, 0) == [] && Members(g, 1) == [] && Members(g, 2) == [];
    hide Members; hide Mentioned;
    assert Mentioned(g, Members(g, 3)[0].ty) == Some(4) && Mentioned(g, Members(g, 4)[0].ty) == Some(3);
    forall n, m | 0 <= n < |g| && Mentions(g, n, m) ensures (n == 3 && m == 4) || (n == 4 && m == 3) {
      assert n == 0 || n == 1 || n == 2 || n == 3 || n == 4;
    }
  }

  lemma InPlace()
    requires WellFormed(HALF_ENTANGLED)
    ensures Leads(HALF_ENTANGLED, References, 4, 3)
  {
    var g := HALF_ENTANGLED;
    assert g[4].members[0].ty == 3 && !Skips(References, false, false);
    assert Uses(g, References, 4, 3) && g[3].Struct?;
    assert Strip(g, References, 3) == Some(3);
    EdgeLinks(g, References, 4, 3);
    ReachesItself(TypeDigraph(g, References), 3);
    ReachesStep(TypeDigraph(g, References), 4, 3, 3);
  }

  /** A struct whose only member is such a typedef leads nowhere else. */
  lemma OnlyArray(g: Graph, n: Id, ty: Id, target: Id)
    requires WellFormed(g) && n < |g| && ty < |g| && g[n] == Struct(None, [TypeGraphs.Member(ty, false, false)])
    requires g[ty].Alias? && g[ty].isArray && target != n && target != ty
    ensures !Leads(g, References, n, target)
  {
    var d := TypeDigraph(g, References);
    if Leads(g, References, n, target) {
      var p :| Joins(d, p, n, target);
      forall a: Id, b: Id | a in {n, ty} && Edge(d, a, b) ensures b in {n, ty} {
        EdgeLinks(g, References, a, b);
      }
      Confined(d, {n, ty}, p, |p| - 1);
    }
  }
}
