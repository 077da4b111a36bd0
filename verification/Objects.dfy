/** Parts of objects: paths into them, and what accessors denote inside a generated function. */
module Objects {
  import opened Wrappers
  import opened Idl
  import opened Programs

  type Path = seq<nat>

  function Get(v: Val, p: Path): Option<Val>
    decreases |p|
  {
    if p == [] then Some(v)
    else if v.VNode? && p[0] < |v.kids| then Get(v.kids[p[0]], p[1..])
    else None
  }

  /** The object with one part replaced. */
  function Put(v: Val, p: Path, x: Val): Val
    decreases |p|
  {
    if p == [] then x
    else if v.VNode? && p[0] < |v.kids| then VNode(v.kids[p[0] := Put(v.kids[p[0]], p[1..], x)])
    else v
  }

  lemma {:induction false} GetPut(v: Val, p: Path, x: Val)
    requires Get(v, p).Some?
    ensures Get(Put(v, p, x), p) == Some(x)
    decreases |p|
  {
    if p != [] {
      GetPut(v.kids[p[0]], p[1..], x);
    }
  }

  lemma {:induction false} PutPut(v: Val, p: Path, x: Val, y: Val)
    ensures Put(Put(v, p, x), p, y) == Put(v, p, y)
    decreases |p|
  {
    if p != [] && v.VNode? && p[0] < |v.kids| {
      PutPut(v.kids[p[0]], p[1..], x, y);
      assert v.kids[p[0] := Put(v.kids[p[0]], p[1..], x)][p[0] := Put(v.kids[p[0]], p[1..], y)]
          == v.kids[p[0] := Put(v.kids[p[0]], p[1..], y)];
    }
  }

  lemma {:induction false} PutGet(v: Val, p: Path)
    requires Get(v, p).Some?
    ensures Put(v, p, Get(v, p).value) == v
    decreases |p|
  {
    if p != [] {
      PutGet(v.kids[p[0]], p[1..]);
      assert v.kids[p[0] := v.kids[p[0]]] == v.kids;
    }
  }

  lemma {:induction false} GetChild(v: Val, p: Path, j: nat)
    requires Get(v, p).Some?
    ensures Get(v, p + [j]) == var x := Get(v, p).value; if x.VNode? && j < |x.kids| then Some(x.kids[j]) else None
    decreases |p|
  {
    if p == [] {
      assert ([] + [j])[1..] == [];
    } else {
      assert (p + [j])[1..] == p[1..] + [j];
      GetChild(v.kids[p[0]], p[1..], j);
    }
  }

  /** Replacing a child is replacing the parent by one with that child replaced. */
  lemma {:induction false} PutChild(v: Val, p: Path, kids: seq<Val>, j: nat, x: Val)
    requires Get(v, p) == Some(VNode(kids)) && j < |kids|
    ensures Put(v, p + [j], x) == Put(v, p, VNode(kids[j := x]))
    decreases |p|
  {
    if p == [] {
      assert ([] + [j])[1..] == [];
    } else {
      assert (p + [j])[1..] == p[1..] + [j];
      PutChild(v.kids[p[0]], p[1..], kids, j, x);
    }
  }

  // ----- scopes -----

  /** The local variables of a generated function. */
  datatype Scope = Scope(index: map<nat, nat>, length: map<nat, nat>, refs: map<nat, Path>)

  const EMPTY_SCOPE := Scope(map[], map[], map[])

  function Eval(acc: Accessor, scope: Scope): Option<Path> {
    match acc
    case Instance => Some([])
    case Branch(_) => Some([])
    case Obj => Some([])
    case Member(slot) => Some([slot])
    case ArrayVar(n) => if n in scope.refs then Some(scope.refs[n]) else None
    case Element(vector, depth) =>
      match Eval(vector, scope)
      case Some(p) => if depth in scope.index then Some(p + [scope.index[depth]]) else None
      case None => None
  }

  function WithIndex(scope: Scope, depth: nat, j: nat): Scope {
    scope.(index := scope.index[depth := j])
  }

  function WithLength(scope: Scope, depth: nat, n: nat): Scope {
    scope.(length := scope.length[depth := n])
  }

  function WithArray(scope: Scope, n: nat, p: Path): Scope {
    scope.(refs := scope.refs[n := p])
  }

  /** The accessor mentions no loop variable of this depth or deeper. */
  predicate Below(acc: Accessor, depth: nat) {
    match acc
    case Element(vector, d) => d < depth && Below(vector, depth)
    case _ => true
  }

  /** Declaring the variables of a deeper loop captures nothing an outer accessor mentions. */
  lemma {:induction false} NoCapture(acc: Accessor, scope: Scope, depth: nat, j: nat, n: nat)
    requires Below(acc, depth)
    ensures Eval(acc, WithIndex(scope, depth, j)) == Eval(acc, scope)
    ensures Eval(acc, WithLength(scope, depth, n)) == Eval(acc, scope)
  {
    match acc
    case Element(vector, _) => NoCapture(vector, scope, depth, j, n);
    case _ =>
  }

  lemma {:induction false} BelowDeeper(acc: Accessor, depth: nat, deeper: nat)
    requires Below(acc, depth) && depth <= deeper
    ensures Below(acc, deeper)
  {
    match acc
    case Element(vector, _) => BelowDeeper(vector, depth, deeper);
    case _ =>
  }
}
