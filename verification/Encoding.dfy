/**
  The reference definition of the plain CDR encoding of a value, by recursion over its type.
  It knows positions but no cursor, no remembered alignment and no program.
 */
module Encoding {
  import opened Wire
  import opened Unions
  import opened Idl

  /** A number: the padding its width asks for, then its bytes. */
  function EncNum(ma: MaxAlign, num: NumType, n: nat, pos: nat): seq<byte> {
    Zeros(Padding(pos, num.width, ma)) + Bytes(n, num.width)
  }

  const LENGTH := NumType(4, Integer)

  /** A string: its length including the terminating NUL, its characters, the NUL. */
  function EncText(ma: MaxAlign, s: seq<byte>, pos: nat): seq<byte> {
    EncNum(ma, LENGTH, |s| + 1, pos) + s + [0]
  }

  function Enc(env: Env, ma: MaxAlign, fuel: nat, ty: Type, v: Val, pos: nat): seq<byte>
    decreases fuel, 0, ty, 0, 0, 0
  {
    match ty
    case Num(num) => if v.VNum? then EncNum(ma, num, v.n, pos) else []
    case Str(_) => if v.VText? then EncText(ma, v.s, pos) else []
    case Sequence(elem, _) =>
      if v.VNode? then
        var len := EncNum(ma, LENGTH, |v.kids|, pos);
        len + EncAll(env, ma, fuel, [], elem, v.kids, pos + |len|)
      else []
    case Named(name) => if fuel > 0 && name in env then EncDef(env, ma, fuel - 1, env[name], v, pos) else []
  }

  function EncArray(env: Env, ma: MaxAlign, fuel: nat, dims: seq<nat>, ty: Type, v: Val, pos: nat): seq<byte>
    decreases fuel, 0, ty, |dims|, 1, 0
  {
    if dims == [] then Enc(env, ma, fuel, ty, v, pos)
    else if v.VNode? then EncAll(env, ma, fuel, dims[1..], ty, v.kids, pos)
    else []
  }

  function EncAll(env: Env, ma: MaxAlign, fuel: nat, dims: seq<nat>, ty: Type, kids: seq<Val>, pos: nat): seq<byte>
    decreases fuel, 0, ty, |dims|, 2, |kids|
  {
    if kids == [] then []
    else
      var first := EncArray(env, ma, fuel, dims, ty, kids[0], pos);
      first + EncAll(env, ma, fuel, dims, ty, kids[1..], pos + |first|)
  }

  function EncDef(env: Env, ma: MaxAlign, fuel: nat, def: Def, v: Val, pos: nat): seq<byte>
    decreases fuel, 2
  {
    match def
    case Struct(_, _) => if v.VNode? then EncFields(env, ma, fuel, Fields(def), v.kids, pos) else []
    case Union(disc, cases, _, _) =>
      if v.VUnion? then
        var d := EncNum(ma, disc, v.d, pos);
        match ArmOf(ShapeOf(def), v.d)
        case Some(i) =>
          if v.payload.Some? then d + EncArray(env, ma, fuel, cases[i].dims, cases[i].ty, v.payload.value, pos + |d|)
            else d
        case None => d
      else []
    case Typedef(ty, dims, _) => EncArray(env, ma, fuel, dims, ty, v, pos)
  }

  function EncFields(env: Env, ma: MaxAlign, fuel: nat, fields: seq<Field>, kids: seq<Val>, pos: nat): seq<byte>
    decreases fuel, 1, |fields|
  {
    if fields == [] || kids == [] then []
    else
      var first := EncArray(env, ma, fuel, fields[0].decl.dims, fields[0].ty, kids[0], pos);
      first + EncFields(env, ma, fuel, fields[1..], kids[1..], pos + |first|)
  }
}
