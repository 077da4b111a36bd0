/**
  The printers of C++ type names. Each writes as much as fits into the caller's buffer and
  returns the length of the whole name.
 */
module Printers {
  import opened Wrappers
  import opened Templates

  /** Nodes around a name, innermost first; those that do not count for the name have none. */
  type Scope = seq<Option<string>>

  datatype Ty =
    | Base(name: string)
    | Sequence(elem: Ty, maximum: nat)
    | Text(maximum: nat)
    | Array(elem: Ty, dims: seq<nat>)
    | Named(scope: Scope)

  /** The templates the user has chosen. */
  datatype Options = Options(arrays: string, sequences: string, boundedSequences: string, strings: string,
                             boundedStrings: string)

  const TYPE_TOKS := ["TYPE"]
  const TYPE_FLAGS := ["s"]
  const ARRAY_TOKS := ["TYPE", "DIMENSION"]
  const ARRAY_FLAGS := ["s", "u"]
  const BOUNDED_TOKS := ["TYPE", "BOUND"]
  const BOUNDED_FLAGS := ["s", "u"]
  const TEXT_TOKS := ["BOUND"]
  const TEXT_FLAGS := ["u"]

  predicate ValidOptions(o: Options) {
    NUL !in o.arrays && NUL !in o.sequences && NUL !in o.boundedSequences && NUL !in o.strings &&
      NUL !in o.boundedStrings
  }

  /** Names are C strings, and only arrays with a dimension are arrays. */
  predicate ValidTy(ty: Ty) {
    match ty
    case Base(name) => NUL !in name
    case Sequence(elem, _) => ValidTy(elem)
    case Text(_) => true
    case Array(elem, dims) => ValidTy(elem) && dims != []
    case Named(scope) => forall k :: 0 <= k < |scope| && scope[k].Some? ==> NUL !in scope[k].value
  }

  // ----- what is rendered -----

  function ScopedName(scope: Scope, sep: string): string {
    if scope == [] then ""
    else ScopedName(scope[1..], sep) + (if scope[0].Some? then sep + scope[0].value else "")
  }

  /** An array of arrays: the first dimension is the outermost. */
  function RenderArray(o: Options, elem: string, dims: seq<nat>): string {
    if dims == [] then elem
    else Substitute(o.arrays, ARRAY_TOKS, [RenderArray(o, elem, dims[1..]), Digits(dims[0])])
  }

  /** Names of enclosing nodes come first, each behind a separator. */
  lemma {:induction false} OutermostFirst(scope: Scope, outer: Option<string>, sep: string)
    ensures ScopedName(scope + [outer], sep) == (if outer.Some? then sep + outer.value else "") + ScopedName(scope, sep)
  {
    if scope == [] {
      assert [] + [outer] == [outer];
      assert ScopedName([outer][1..], sep) == "";
    } else {
      assert (scope + [outer])[1..] == scope[1..] + [outer];
      OutermostFirst(scope[1..], outer, sep);
    }
  }

  /** The last dimension is the innermost: it makes the elements arrays. */
  lemma {:induction false} LastDimensionInnermost(o: Options, elem: string, dims: seq<nat>, last: nat)
    ensures RenderArray(o, elem, dims + [last]) ==
            RenderArray(o, Substitute(o.arrays, ARRAY_TOKS, [elem, Digits(last)]), dims)
  {
    hide Substitute; hide Digits;
    if dims == [] {
      assert [] + [last] == [last];
      assert RenderArray(o, elem, [last][1..]) == elem;
    } else {
      assert (dims + [last])[1..] == dims[1..] + [last];
      LastDimensionInnermost(o, elem, dims[1..], last);
    }
  }

  function Render(o: Options, ty: Ty): string {
    match ty
    case Base(name) => name
    case Sequence(elem, maximum) =>
      if maximum > 0 then Substitute(o.boundedSequences, BOUNDED_TOKS, [Render(o, elem), Digits(maximum)])
      else Substitute(o.sequences, TYPE_TOKS, [Render(o, elem)])
    case Text(maximum) =>
      if maximum > 0 then Substitute(o.boundedStrings, TEXT_TOKS, [Digits(maximum)]) else o.strings
    case Array(elem, dims) => RenderArray(o, Render(o, elem), dims)
    case Named(scope) => ScopedName(scope, "::")
  }

  /** The longest prefix that leaves room for the NUL, then the NUL. */
  ghost predicate Holds(buf: array<char>, text: string)
    reads buf
  {
    && buf.Length > 0
    && var n := if |text| < buf.Length then |text| else buf.Length - 1;
       buf[..n] == text[..n] && buf[n] == NUL
  }

  // ----- C strings -----

  /** What a buffer that holds a C string stands for. */
  function CString(s: string): (r: string)
    ensures NUL !in r
  {
    if s == "" || s[0] == NUL then "" else [s[0]] + CString(s[1..])
  }

  lemma {:induction false} CStringOf(text: string, rest: string)
    requires NUL !in text && rest != "" && rest[0] == NUL
    ensures CString(text + rest) == text
  {
    if text == "" {
      assert text + rest == rest;
    } else {
      assert text[0] in text;
      assert (text + rest)[1..] == text[1..] + rest;
      CStringOf(text[1..], rest);
    }
  }

  /** A buffer with room for the whole text is read back as that text. */
  lemma HoldsAll(buf: array<char>, text: string)
    requires Holds(buf, text) && |text| < buf.Length && NUL !in text
    ensures CString(buf[..]) == text
  {
    assert buf[..] == text + buf[|text|..];
    CStringOf(text, buf[|text|..]);
  }

  lemma {:induction false} SubstituteNoNul(s: string, toks: seq<string>, args: seq<string>)
    requires |toks| <= |args| && NUL !in s && forall k :: 0 <= k < |args| ==> NUL !in args[k]
    ensures NUL !in Substitute(s, toks, args)
    decreases |s|
  {
    hide TagAt; hide AfterTag; hide ClosingBrace;
    if s != "" {
      if s[0] == '{' && TagAt(s, toks) > 0 {
        TagCloses(s, toks);
        AfterTagNoNul(s);
        SubstituteNoNul(AfterTag(s), toks, args);
      } else {
        SubstituteNoNul(s[1..], toks, args);
      }
    }
  }

  lemma AfterTagNoNul(s: string)
    requires s != "" && ClosingBrace(s[1..]) < |s| - 1 && NUL !in s
    ensures NUL !in AfterTag(s)
  {
  }

  lemma DigitsNoNul(n: nat)
    ensures NUL !in Digits(n)
  {
    assert !IsDigit(NUL);
  }

  lemma {:induction false} ScopedNameNoNul(scope: Scope, sep: string)
    requires NUL !in sep && forall k :: 0 <= k < |scope| && scope[k].Some? ==> NUL !in scope[k].value
    ensures NUL !in ScopedName(scope, sep)
  {
    if scope != [] { ScopedNameNoNul(scope[1..], sep); }
  }

  lemma {:induction false} RenderArrayNoNul(o: Options, elem: string, dims: seq<nat>)
    requires ValidOptions(o) && NUL !in elem
    ensures NUL !in RenderArray(o, elem, dims)
  {
    if dims != [] {
      RenderArrayNoNul(o, elem, dims[1..]);
      DigitsNoNul(dims[0]);
      SubstituteNoNul(o.arrays, ARRAY_TOKS, [RenderArray(o, elem, dims[1..]), Digits(dims[0])]);
    }
  }

  lemma {:induction false} RenderNoNul(o: Options, ty: Ty)
    requires ValidOptions(o) && ValidTy(ty)
    ensures NUL !in Render(o, ty)
  {
    match ty
    case Base(_) =>
    case Sequence(elem, maximum) =>
      RenderNoNul(o, elem);
      DigitsNoNul(maximum);
      SubstituteNoNul(o.boundedSequences, BOUNDED_TOKS, [Render(o, elem), Digits(maximum)]);
      SubstituteNoNul(o.sequences, TYPE_TOKS, [Render(o, elem)]);
    case Text(maximum) =>
      DigitsNoNul(maximum);
      SubstituteNoNul(o.boundedStrings, TEXT_TOKS, [Digits(maximum)]);
    case Array(elem, dims) =>
      RenderNoNul(o, elem);
      RenderArrayNoNul(o, Render(o, elem), dims);
    case Named(scope) => ScopedNameNoNul(scope, "::");
  }

  // ----- printing with a compiled template -----

  lemma FlagsAreFlags()
    ensures IsFlag("s") && IsFlag("u")
  {
  }

  /** snprintf with a compiled template. */
  method PrintTemplate(buf: array<char>, template: string, toks: seq<string>, flags: seq<string>, args: seq<string>)
    returns (cnt: nat)
    requires buf.Length > 0 && |toks| == |flags| <= |args|
    requires forall k :: 0 <= k < |flags| ==> flags[k] == "s" || flags[k] == "u"
    modifies buf
    ensures cnt == |Substitute(template, toks, args)| && Holds(buf, Substitute(template, toks, args))
  {
    FlagsAreFlags();
    FormatSubstitutes(template, toks, flags, args);
    hide Substitute; hide Format; hide Printf; hide IsFlag;
    var text := Printf(Format(template, toks, flags), args).value;
    cnt := Snprintf(buf, 0, buf.Length, text);
    assert buf[..0] == [] && old(buf[..0]) == [];
  }

  /** asprintf with a compiled template. */
  method Asprintf(template: string, toks: seq<string>, flags: seq<string>, args: seq<string>) returns (text: string)
    requires |toks| == |flags| <= |args|
    requires forall k :: 0 <= k < |flags| ==> flags[k] == "s" || flags[k] == "u"
    ensures text == Substitute(template, toks, args)
  {
    FlagsAreFlags();
    FormatSubstitutes(template, toks, flags, args);
    text := Printf(Format(template, toks, flags), args).value;
  }

  method PrintText(buf: array<char>, text: string) returns (cnt: nat)
    requires buf.Length > 0
    modifies buf
    ensures cnt == |text| && Holds(buf, text)
  {
    cnt := Snprintf(buf, 0, buf.Length, text);
    assert buf[..0] == [] && old(buf[..0]) == [];
  }

  // ----- scoped names -----

  /** memmove, cut off at the end of the buffer. */
  method Copy(dest: array<char>, off: nat, src: string)
    modifies dest
    ensures forall k :: 0 <= k < dest.Length ==>
              dest[k] == if off <= k < off + |src| then src[k - off] else old(dest[k])
  {
    if off >= dest.Length { return; }
    var cnt := if dest.Length - off > |src| then |src| else dest.Length - off;
    for k := 0 to cnt
      invariant forall i :: 0 <= i < dest.Length ==>
                  dest[i] == if off <= i < off + k then src[i - off] else old(dest[i])
    {
      dest[off + k] := src[k];
    }
  }

  /** The buffer holds this text from position `off` on, as far as it reaches. */
  ghost predicate Agrees(buf: array<char>, text: string, off: nat)
    reads buf
  {
    forall k :: off <= k < buf.Length && k < |text| ==> buf[k] == text[k]
  }

  /** The name is filled in from its end, going outwards through the scopes. */
  method FillScopedName(str: array<char>, scope: Scope, sep: string)
    requires str.Length > 0
    modifies str
    ensures Agrees(str, ScopedName(scope, sep), 0)
  {
    ghost var text := ScopedName(scope, sep);
    var off := |ScopedName(scope, sep)|;
    assert scope[0..] == scope;
    for k := 0 to |scope|
      invariant off == |ScopedName(scope[k..], sep)| && ScopedName(scope[k..], sep) <= text
      invariant Agrees(str, text, off)
    {
      assert scope[k..][1..] == scope[k + 1..];
      if scope[k].None? { continue; }
      var name := scope[k].value;
      ghost var outer := ScopedName(scope[k + 1..], sep);
      assert ScopedName(scope[k..], sep) == outer + (sep + name);
      off := off - |name|;
      Copy(str, off, name);
      off := off - |sep|;
      Copy(str, off, sep);
      forall i | off <= i < str.Length && i < |text| ensures str[i] == text[i] {
        if i < off + |sep| + |name| { assert text[i] == (outer + (sep + name))[i]; }
      }
    }
  }

  /** Adds up the lengths first, then fills the name in. */
  method PrintScopedName(str: array<char>, scope: Scope, sep: string) returns (cnt: nat)
    requires str.Length > 0
    modifies str
    ensures cnt == |ScopedName(scope, sep)| && Holds(str, ScopedName(scope, sep))
  {
    cnt := 0;
    assert scope[0..] == scope;
    for k := 0 to |scope|
      invariant cnt + |ScopedName(scope[k..], sep)| == |ScopedName(scope, sep)|
    {
      assert scope[k..][1..] == scope[k + 1..];
      if scope[k].Some? { cnt := cnt + |scope[k].value| + |sep|; }
    }
    FillScopedName(str, scope, sep);
    str[if cnt < str.Length then cnt else str.Length - 1] := NUL;
  }

  // ----- types -----

  method PrintType(str: array<char>, o: Options, ty: Ty) returns (cnt: nat)
    requires str.Length > 0 && ValidOptions(o) && ValidTy(ty)
    modifies str
    ensures cnt == |Render(o, ty)| && Holds(str, Render(o, ty))
    decreases ty, 1
  {
    match ty
    case Base(name) => cnt := PrintText(str, name);
    case Sequence(_, _) => cnt := PrintTemplType(str, o, ty);
    case Text(_) => cnt := PrintTemplType(str, o, ty);
    case Array(_, _) => cnt := PrintArrayType(str, o, ty);
    case Named(scope) => cnt := PrintScopedName(str, scope, "::");
  }

  /** An element type that does not fit in the scratch buffer is printed again into one of its own size. */
  method PrintTemplType(str: array<char>, o: Options, ty: Ty) returns (cnt: nat)
    requires str.Length > 0 && ValidOptions(o) && ValidTy(ty) && (ty.Sequence? || ty.Text?)
    modifies str
    ensures cnt == |Render(o, ty)| && Holds(str, Render(o, ty))
    decreases ty, 0
  {
    match ty
    case Sequence(elem, maximum) =>
      var scratch := new char[128];
      cnt := PrintType(scratch, o, elem);
      RenderNoNul(o, elem);
      hide Substitute;
      if cnt < scratch.Length {
        HoldsAll(scratch, Render(o, elem));
        cnt := PrintSequence(str, o, CString(scratch[..]), maximum);
      } else {
        var type_ := new char[cnt + 1];
        cnt := PrintType(type_, o, elem);
        HoldsAll(type_, Render(o, elem));
        cnt := PrintSequence(str, o, CString(type_[..]), maximum);
      }
    case Text(maximum) =>
      if maximum > 0 {
        cnt := PrintTemplate(str, o.boundedStrings, TEXT_TOKS, TEXT_FLAGS, [Digits(maximum)]);
      } else {
        cnt := PrintTemplate(str, o.strings, [], [], [Digits(maximum)]);
        NoTags(o.strings, [Digits(maximum)]);
      }
  }

  method PrintSequence(str: array<char>, o: Options, elem: string, maximum: nat) returns (cnt: nat)
    requires str.Length > 0
    modifies str
    ensures var text := if maximum > 0 then Substitute(o.boundedSequences, BOUNDED_TOKS, [elem, Digits(maximum)])
                        else Substitute(o.sequences, TYPE_TOKS, [elem]);
            cnt == |text| && Holds(str, text)
  {
    if maximum > 0 {
      cnt := PrintTemplate(str, o.boundedSequences, BOUNDED_TOKS, BOUNDED_FLAGS, [elem, Digits(maximum)]);
    } else {
      cnt := PrintTemplate(str, o.sequences, TYPE_TOKS, TYPE_FLAGS, [elem, Digits(maximum)]);
      assert [elem] + [Digits(maximum)] == [elem, Digits(maximum)];
      SpareArgument(o.sequences, TYPE_TOKS, [elem], Digits(maximum));
    }
  }

  /** Arguments without a tag do not matter. */
  lemma {:induction false} SpareArgument(s: string, toks: seq<string>, args: seq<string>, spare: string)
    requires |toks| <= |args|
    ensures Substitute(s, toks, args + [spare]) == Substitute(s, toks, args)
    decreases |s|
  {
    hide TagAt; hide AfterTag; hide ClosingBrace;
    if s != "" {
      if s[0] == '{' && TagAt(s, toks) > 0 {
        TagCloses(s, toks);
        SpareArgument(AfterTag(s), toks, args, spare);
      } else {
        SpareArgument(s[1..], toks, args, spare);
      }
    }
  }

  lemma {:induction false} NoTags(s: string, args: seq<string>)
    ensures Substitute(s, [], args) == s
  {
    if s != "" { NoTags(s[1..], args); }
  }

  /** The dimensions are wrapped around the element type from the last to the first. */
  method PrintArrayType(str: array<char>, o: Options, ty: Ty) returns (cnt: nat)
    requires str.Length > 0 && ValidOptions(o) && ValidTy(ty) && ty.Array?
    modifies str
    ensures cnt == |Render(o, ty)| && Holds(str, Render(o, ty))
    decreases ty, 0
  {
    var buf := new char[1];
    cnt := PrintType(buf, o, ty.elem);
    var type_ := new char[cnt + 1];
    cnt := PrintType(type_, o, ty.elem);
    RenderNoNul(o, ty.elem);
    HoldsAll(type_, Render(o, ty.elem));
    var text := WrapDimensions(o, CString(type_[..]), ty.dims);
    cnt := PrintText(str, text);
  }

  method WrapDimensions(o: Options, elem: string, dims: seq<nat>) returns (text: string)
    ensures text == RenderArray(o, elem, dims)
  {
    hide Substitute;
    text := elem;
    var ce: nat := |dims|;
    while ce > 0
      invariant ce <= |dims| && text == RenderArray(o, elem, dims[ce..])
    {
      ce := ce - 1;
      assert dims[ce..][1..] == dims[ce + 1..];
      text := Asprintf(o.arrays, ARRAY_TOKS, ARRAY_FLAGS, [text, Digits(dims[ce])]);
    }
    assert dims[0..] == dims;
  }
}
