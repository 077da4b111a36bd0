/**
  What the bytes of an encoding are: the numbers a value consists of, in order, and the place of
  every byte of each, with no mention of how the encoding is computed.
 */
module Layout {
  import opened Wire
  import opened Unions
  import opened Idl
  import opened Encoding
  import opened Programs
  import opened Emitter
  import opened Machine
  import opened WriteMove

  /** A number on the stream, with the bytes it takes. */
  datatype Atom = Atom(width: Width, n: nat)

  /** The length, the characters, the terminating NUL. */
  function TextAtoms(s: seq<byte>): seq<Atom> {
    [Atom(4, |s| + 1)] + seq(|s|, k requires 0 <= k < |s| => Atom(1, s[k])) + [Atom(1, 0)]
  }

  /** The numbers that a value consists of. */
  function Atoms(env: Env, fuel: nat, ty: Type, v: Val): seq<Atom>
    decreases fuel, 0, ty, 0, 0, 0
  {
    match ty
    case Num(num) => if v.VNum? then [Atom(num.width, v.n)] else []
    case Str(_) => if v.VText? then TextAtoms(v.s) else []
    case Sequence(elem, _) =>
      if v.VNode? then [Atom(4, |v.kids|)] + AtomsAll(env, fuel, [], elem, v.kids) else []
    case Named(name) => if fuel > 0 && name in env then AtomsDef(env, fuel - 1, env[name], v) else []
  }

  function AtomsArray(env: Env, fuel: nat, dims: seq<nat>, ty: Type, v: Val): seq<Atom>
    decreases fuel, 0, ty, |dims|, 1, 0
  {
    if dims == [] then Atoms(env, fuel, ty, v)
    else if v.VNode? then AtomsAll(env, fuel, dims[1..], ty, v.kids)
    else []
  }

  function AtomsAll(env: Env, fuel: nat, dims: seq<nat>, ty: Type, kids: seq<Val>): seq<Atom>
    decreases fuel, 0, ty, |dims|, 2, |kids|
  {
    if kids == [] then []
    else AtomsArray(env, fuel, dims, ty, kids[0]) + AtomsAll(env, fuel, dims, ty, kids[1..])
  }

  /** Members one after the other; for a union the discriminator and the branch it selects, if any. */
  function AtomsDef(env: Env, fuel: nat, def: Def, v: Val): seq<Atom>
    decreases fuel, 2
  {
    match def
    case Struct(_, _) => if v.VNode? then AtomsFields(env, fuel, Fields(def), v.kids) else []
    case Union(disc, cases, _, _) =>
      if v.VUnion? then
        [Atom(disc.width, v.d)]
        + match ArmOf(ShapeOf(def), v.d)
          case Some(i) =>
            if v.payload.Some? then AtomsArray(env, fuel, cases[i].dims, cases[i].ty, v.payload.value) else []
          case None => []
      else []
    case Typedef(ty, dims, _) => AtomsArray(env, fuel, dims, ty, v)
  }

  function AtomsFields(env: Env, fuel: nat, fields: seq<Field>, kids: seq<Val>): seq<Atom>
    decreases fuel, 1, |fields|
  {
    if fields == [] || kids == [] then []
    else
      AtomsArray(env, fuel, fields[0].decl.dims, fields[0].ty, kids[0]) + AtomsFields(env, fuel, fields[1..], kids[1..])
  }

  // ----- places -----

  /** The first multiple of the number's size, or of the largest alignment, that is not before `pos`. */
  function PlaceOf(ma: MaxAlign, a: Atom, pos: nat): (start: nat)
    ensures start >= pos
  {
    var al: nat := if a.width < ma then a.width else ma;
    if pos % al == 0 then pos else pos + al - pos % al
  }

  /** The stream holds the number at this place, its lowest digit first. */
  predicate Stands(s: seq<byte>, start: nat, a: Atom) {
    start + a.width <= |s| && forall k :: start <= k < start + a.width ==> s[k] == a.n / Range(k - start) % 256
  }

  predicate Blank(s: seq<byte>, from: nat, to: nat) {
    to <= |s| && forall i :: from <= i < to ==> s[i] == 0
  }

  /**
    The numbers stand in the stream from `pos` to its end, each at its first aligned place behind the
    one before, with zeros in between.
   */
  predicate LaidOut(ma: MaxAlign, s: seq<byte>, pos: nat, atoms: seq<Atom>)
    decreases |atoms|
  {
    if atoms == [] then |s| == pos
    else
      var start := PlaceOf(ma, atoms[0], pos);
      Blank(s, pos, start) && Stands(s, start, atoms[0]) && LaidOut(ma, s, start + atoms[0].width, atoms[1..])
  }

  /** This settles every byte of the stream. */
  lemma {:induction false} LayoutDecides(ma: MaxAlign, s: seq<byte>, t: seq<byte>, pos: nat, atoms: seq<Atom>)
    requires LaidOut(ma, s, pos, atoms) && LaidOut(ma, t, pos, atoms)
    ensures |s| == |t| >= pos && s[pos..] == t[pos..]
    decreases |atoms|
  {
    if atoms != [] {
      var a, start := atoms[0], PlaceOf(ma, atoms[0], pos);
      LayoutDecides(ma, s, t, start + a.width, atoms[1..]);
      forall k | pos <= k < |s| ensures s[k] == t[k] {
        if k >= start + a.width {
          var i: nat := k - (start + a.width);
          assert s[start + a.width..][i] == t[start + a.width..][i];
        }
      }
    }
  }

  lemma StandsStill(s: seq<byte>, t: seq<byte>, pos: nat, start: nat, a: Atom)
    requires Blank(s, pos, start) && Stands(s, start, a)
    ensures Blank(s + t, pos, start) && Stands(s + t, start, a)
  {
    hide Range;
  }

  lemma LaidOutStep(ma: MaxAlign, s: seq<byte>, pos: nat, first: Atom, rest: seq<Atom>)
    ensures LaidOut(ma, s, pos, [first] + rest) <==>
            var start := PlaceOf(ma, first, pos);
            Blank(s, pos, start) && Stands(s, start, first) && LaidOut(ma, s, start + first.width, rest)
  {
    assert ([first] + rest)[1..] == rest;
  }

  /** What is laid out up to the end can be followed by more numbers. */
  lemma {:induction false} LaidOutAppend(ma: MaxAlign, s: seq<byte>, t: seq<byte>, pos: nat, a: seq<Atom>, b: seq<Atom>)
    requires LaidOut(ma, s, pos, a) && LaidOut(ma, s + t, |s|, b)
    ensures LaidOut(ma, s + t, pos, a + b)
    decreases |a|
  {
    hide *;
    if a == [] {
      EndsThere(ma, s, pos);
      assert a + b == b;
    } else {
      var start := PlaceOf(ma, a[0], pos);
      assert a == [a[0]] + a[1..] && a + b == [a[0]] + (a[1..] + b);
      LaidOutStep(ma, s, pos, a[0], a[1..]);
      LaidOutStep(ma, s + t, pos, a[0], a[1..] + b);
      StandsStill(s, t, pos, start, a[0]);
      LaidOutAppend(ma, s, t, start + a[0].width, a[1..], b);
    }
  }

  lemma EndsThere(ma: MaxAlign, s: seq<byte>, pos: nat)
    ensures LaidOut(ma, s, pos, []) <==> |s| == pos
  {
  }

  // ----- the encoding -----

  /** What the reference encoding adds to a stream `s`. */
  ghost predicate Adds(ma: MaxAlign, s: seq<byte>, enc: seq<byte>, atoms: seq<Atom>) {
    LaidOut(ma, s + enc, |s|, atoms)
  }

  lemma AddsNothing(ma: MaxAlign, s: seq<byte>)
    ensures Adds(ma, s, [], [])
  {
    assert s + [] == s;
  }

  lemma AddsBoth(ma: MaxAlign, s: seq<byte>, e: seq<byte>, f: seq<byte>, a: seq<Atom>, b: seq<Atom>)
    requires Adds(ma, s, e, a) && Adds(ma, s + e, f, b)
    ensures Adds(ma, s, e + f, a + b)
  {
    LaidOutAppend(ma, s + e, f, |s|, a, b);
    assert s + e + f == s + (e + f);
  }

  lemma NumAdds(ma: MaxAlign, s: seq<byte>, num: NumType, n: nat)
    ensures Adds(ma, s, EncNum(ma, num, n, |s|), [Atom(num.width, n)])
  {
    var a, pad, e := Atom(num.width, n), Padding(|s|, num.width, ma), EncNum(ma, num, n, |s|);
    RemIsRemainder(|s|, Alignment(num.width, ma));
    assert PlaceOf(ma, a, |s|) == |s| + pad;
    forall k | |s| + pad <= k < |s| + pad + a.width ensures (s + e)[k] == n / Range(k - (|s| + pad)) % 256 {
      ByteAt(n, num.width, k - (|s| + pad));
    }
    assert Stands(s + e, |s| + pad, a);
    assert [a][1..] == [];
  }

  /** Single bytes are never apart. */
  lemma {:induction false} OctetsAdd(ma: MaxAlign, s: seq<byte>, t: seq<byte>)
    ensures Adds(ma, s, t, seq(|t|, k requires 0 <= k < |t| => Atom(1, t[k])))
    decreases |t|
  {
    var octets := seq(|t|, k requires 0 <= k < |t| => Atom(1, t[k]));
    if t == [] {
      AddsNothing(ma, s);
    } else {
      var rest := seq(|t[1..]|, k requires 0 <= k < |t[1..]| => Atom(1, t[1..][k]));
      OctetsAdd(ma, s + [t[0]], t[1..]);
      assert Bytes(t[0], 1) == [t[0]] by { assert Bytes(t[0] / 256, 0) == []; }
      assert EncNum(ma, NumType(1, Integer), t[0], |s|) == [t[0]];
      NumAdds(ma, s, NumType(1, Integer), t[0]);
      AddsBoth(ma, s, [t[0]], t[1..], [Atom(1, t[0])], rest);
      assert [t[0]] + t[1..] == t && [Atom(1, t[0])] + rest == octets;
    }
  }

  lemma TextAdds(ma: MaxAlign, s: seq<byte>, t: seq<byte>)
    ensures Adds(ma, s, EncText(ma, t, |s|), TextAtoms(t))
  {
    var len := EncNum(ma, LENGTH, |t| + 1, |s|);
    var octets := seq(|t|, k requires 0 <= k < |t| => Atom(1, t[k]));
    NumAdds(ma, s, LENGTH, |t| + 1);
    OctetsAdd(ma, s + len, t);
    AddsBoth(ma, s, len, t, [Atom(4, |t| + 1)], octets);
    OctetsAdd(ma, s + (len + t), [0]);
    assert seq(1, k requires 0 <= k < 1 => Atom(1, [0 as byte][k])) == [Atom(1, 0)];
    AddsBoth(ma, s, len + t, [0], [Atom(4, |t| + 1)] + octets, [Atom(1, 0)]);
  }

  /** The encoding of every value lays out its numbers, wherever in a stream it stands. */
  lemma {:induction false} TypeAdds(env: Env, ma: MaxAlign, fuel: nat, ty: Type, v: Val, s: seq<byte>)
    ensures Adds(ma, s, Enc(env, ma, fuel, ty, v, |s|), Atoms(env, fuel, ty, v))
    decreases fuel, 0, ty, 0, 0, 0
  {
    hide EncNum; hide EncText; hide TextAtoms; hide Adds; hide EncDef; hide EncAll;
    AddsNothing(ma, s);
    match ty
    case Num(num) => if v.VNum? { NumAdds(ma, s, num, v.n); }
    case Str(_) => if v.VText? { TextAdds(ma, s, v.s); }
    case Sequence(elem, _) =>
      if v.VNode? {
        var len := EncNum(ma, LENGTH, |v.kids|, |s|);
        NumAdds(ma, s, LENGTH, |v.kids|);
        AllAdd(env, ma, fuel, [], elem, v.kids, s + len);
        AddsBoth(ma, s, len, EncAll(env, ma, fuel, [], elem, v.kids, |s + len|), [Atom(4, |v.kids|)],
                 AtomsAll(env, fuel, [], elem, v.kids));
      }
    case Named(name) => if fuel > 0 && name in env { DefAdds(env, ma, fuel - 1, env[name], v, s); }
  }

  lemma {:induction false} ArrayAdds(env: Env, ma: MaxAlign, fuel: nat, dims: seq<nat>, ty: Type, v: Val, s: seq<byte>)
    ensures Adds(ma, s, EncArray(env, ma, fuel, dims, ty, v, |s|), AtomsArray(env, fuel, dims, ty, v))
    decreases fuel, 0, ty, |dims|, 1, 0
  {
    hide Adds; hide Enc; hide EncAll;
    AddsNothing(ma, s);
    if dims == [] { TypeAdds(env, ma, fuel, ty, v, s); }
    else if v.VNode? { AllAdd(env, ma, fuel, dims[1..], ty, v.kids, s); }
  }

  lemma {:induction false} AllAdd(env: Env, ma: MaxAlign, fuel: nat, dims: seq<nat>, ty: Type, kids: seq<Val>,
                                  s: seq<byte>)
    ensures Adds(ma, s, EncAll(env, ma, fuel, dims, ty, kids, |s|), AtomsAll(env, fuel, dims, ty, kids))
    decreases fuel, 0, ty, |dims|, 2, |kids|
  {
    hide Adds; hide EncArray;
    if kids == [] {
      AddsNothing(ma, s);
    } else {
      var first := EncArray(env, ma, fuel, dims, ty, kids[0], |s|);
      ArrayAdds(env, ma, fuel, dims, ty, kids[0], s);
      AllAdd(env, ma, fuel, dims, ty, kids[1..], s + first);
      AddsBoth(ma, s, first, EncAll(env, ma, fuel, dims, ty, kids[1..], |s + first|),
               AtomsArray(env, fuel, dims, ty, kids[0]), AtomsAll(env, fuel, dims, ty, kids[1..]));
    }
  }

  lemma {:induction false} FieldsAdd(env: Env, ma: MaxAlign, fuel: nat, fs: seq<Field>, kids: seq<Val>, s: seq<byte>)
    ensures Adds(ma, s, EncFields(env, ma, fuel, fs, kids, |s|), AtomsFields(env, fuel, fs, kids))
    decreases fuel, 1, |fs|
  {
    hide Adds; hide EncArray;
    if fs == [] || kids == [] {
      AddsNothing(ma, s);
    } else {
      var dims, ty := fs[0].decl.dims, fs[0].ty;
      var first := EncArray(env, ma, fuel, dims, ty, kids[0], |s|);
      ArrayAdds(env, ma, fuel, dims, ty, kids[0], s);
      FieldsAdd(env, ma, fuel, fs[1..], kids[1..], s + first);
      AddsBoth(ma, s, first, EncFields(env, ma, fuel, fs[1..], kids[1..], |s + first|),
               AtomsArray(env, fuel, dims, ty, kids[0]), AtomsFields(env, fuel, fs[1..], kids[1..]));
    }
  }

  lemma {:induction false} DefAdds(env: Env, ma: MaxAlign, fuel: nat, def: Def, v: Val, s: seq<byte>)
    ensures Adds(ma, s, EncDef(env, ma, fuel, def, v, |s|), AtomsDef(env, fuel, def, v))
    decreases fuel, 2
  {
    hide Adds; hide EncArray; hide EncFields; hide EncNum; hide ArmOf; hide Fields;
    AddsNothing(ma, s);
    match def
    case Struct(_, _) => if v.VNode? { FieldsAdd(env, ma, fuel, Fields(def), v.kids, s); }
    case Union(disc, cases, _, _) => if v.VUnion? { UnionAdds(env, ma, fuel, def, v, s); }
    case Typedef(ty, dims, _) => ArrayAdds(env, ma, fuel, dims, ty, v, s);
  }

  lemma {:induction false} UnionAdds(env: Env, ma: MaxAlign, fuel: nat, def: Def, v: Val, s: seq<byte>)
    requires def.Union? && v.VUnion?
    ensures Adds(ma, s, EncDef(env, ma, fuel, def, v, |s|), AtomsDef(env, fuel, def, v))
    decreases fuel, 1
  {
    hide Adds; hide EncArray; hide EncNum; hide ArmOf;
    var d, first := EncNum(ma, def.disc, v.d, |s|), [Atom(def.disc.width, v.d)];
    NumAdds(ma, s, def.disc, v.d);
    assert first + [] == first;
    match ArmOf(ShapeOf(def), v.d)
    case Some(i) =>
      if v.payload.Some? {
        var c := def.cases[i];
        ArrayAdds(env, ma, fuel, c.dims, c.ty, v.payload.value, s + d);
        AddsBoth(ma, s, d, EncArray(env, ma, fuel, c.dims, c.ty, v.payload.value, |s + d|), first,
                 AtomsArray(env, fuel, c.dims, c.ty, v.payload.value));
      }
    case None =>
  }

  /**
    What is written is the layout of the numbers the value consists of: each at a multiple of its size,
    no larger alignment than the stream honours, its lowest digit first, with zeros in between and
    nothing else. This settles every byte.
   */
  lemma WriteIsLaidOut(env: Env, ma: MaxAlign, capacity: nat, fuel: nat, def: Def, v: Val)
    requires WellFormedEnv(env) && WellFormedDef(def) && StreamableDef(env, fuel, def) && HasDef(env, fuel, def, v)
    ensures var r := RunProg(Context(Write, env, Linked(env, Write), ma, capacity), fuel, ProgOf(env, Write, def),
                             Live(v), START);
            r.Some? ==> LaidOut(ma, r.value.out, 0, AtomsDef(env, fuel, def, v))
  {
    WriteIsEncoding(env, ma, capacity, fuel, def, v);
    DefAdds(env, ma, fuel, def, v, []);
    assert [] + EncDef(env, ma, fuel, def, v, 0) == EncDef(env, ma, fuel, def, v, 0);
  }
}
