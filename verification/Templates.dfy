/** The compiler from templates with {TAGS} to formats for printf. */
module Templates {
  import opened Wrappers

  // ----- tags -----

  /** The end of the first closing brace; the length if there is none. */
  function ClosingBrace(s: string): (r: nat)
    ensures r <= |s| && '}' !in s[..r]
    ensures r < |s| ==> s[r] == '}'
  {
    if s == "" || s[0] == '}' then 0
    else
      var r := 1 + ClosingBrace(s[1..]);
      assert s[..r] == [s[0]] + s[1..][..r - 1];
      r
  }

  /** The number, from 1, of the first token that starts with this text; 0 if there is none. */
  function IsTok(text: string, toks: seq<string>): (r: nat)
    ensures r <= |toks|
    ensures r > 0 ==> text <= toks[r - 1] && forall k :: 0 <= k < r - 1 ==> !(text <= toks[k])
    ensures r == 0 ==> forall k :: 0 <= k < |toks| ==> !(text <= toks[k])
  {
    FirstTok(text, toks, 0)
  }

  function FirstTok(text: string, toks: seq<string>, k: nat): (r: nat)
    requires k <= |toks| && forall j :: 0 <= j < k ==> !(text <= toks[j])
    ensures r <= |toks|
    ensures r > 0 ==> text <= toks[r - 1] && forall j :: 0 <= j < r - 1 ==> !(text <= toks[j])
    ensures r == 0 ==> forall j :: 0 <= j < |toks| ==> !(text <= toks[j])
    decreases |toks| - k
  {
    if k == |toks| then 0 else if text <= toks[k] then k + 1 else FirstTok(text, toks, k + 1)
  }

  /** The token a template names at its opening brace, 0 for none. */
  function TagAt(s: string, toks: seq<string>): (r: nat)
    requires s != "" && s[0] == '{'
    ensures r <= |toks|
  {
    var j := ClosingBrace(s[1..]);
    if j < |s| - 1 then IsTok(s[1..][..j], toks) else 0
  }

  /** What follows the tag. */
  function AfterTag(s: string): string
    requires s != "" && ClosingBrace(s[1..]) < |s| - 1
  {
    s[ClosingBrace(s[1..]) + 2..]
  }

  // ----- what a template stands for -----

  /** The template with the arguments in place of its tags; everything else is copied. */
  function Substitute(s: string, toks: seq<string>, args: seq<string>): string
    requires |args| >= |toks|
    decreases |s|
  {
    if s == "" then ""
    else if s[0] == '{' && TagAt(s, toks) > 0 then args[TagAt(s, toks) - 1] + Substitute(AfterTag(s), toks, args)
    else [s[0]] + Substitute(s[1..], toks, args)
  }

  // ----- formats -----

  function Digits(n: nat): (r: string)
    ensures r != "" && forall c :: c in r ==> IsDigit(c)
  {
    var d := ['0' + (n % 10) as char];
    if n < 10 then d else Digits(n / 10) + d
  }

  /** Decimal, the highest digit first and no zero in front of it. */
  lemma DigitsAreDecimal(n: nat)
    ensures Digits(n) == (if n < 10 then "" else Digits(n / 10)) + "0123456789"[n % 10..n % 10 + 1]
  {
    var all := "0123456789";
    assert forall d: nat :: d < 10 ==> all[d] == '0' + d as char;
    assert all[n % 10..n % 10 + 1] == [all[n % 10]];
  }

  predicate IsDigit(c: char) { '0' <= c <= '9' }

  /** A conversion for one of the arguments. */
  function Conversion(num: nat, flag: string): string {
    "%" + Digits(num) + "$" + flag
  }

  /** The format a template is compiled to. */
  function Format(s: string, toks: seq<string>, flags: seq<string>): string
    requires |flags| >= |toks|
    decreases |s|
  {
    if s == "" then ""
    else if s[0] == '{' && TagAt(s, toks) > 0 then
      Conversion(TagAt(s, toks), flags[TagAt(s, toks) - 1]) + Format(AfterTag(s), toks, flags)
    else (if s[0] == '%' then "%%" else [s[0]]) + Format(s[1..], toks, flags)
  }

  // ----- printf -----

  predicate IsConversionLetter(c: char) { c in "diouxXeEfFgGaAcsp" }

  /** Length modifiers, then the letter that ends the conversion. */
  predicate IsFlag(flag: string) {
    && flag != "" && IsConversionLetter(flag[|flag| - 1])
    && forall k :: 0 <= k < |flag| - 1 ==> !IsConversionLetter(flag[k])
  }

  /** Reads decimal digits: the number and what follows. */
  function ReadNumber(s: string, acc: nat): (r: (nat, string))
    ensures |r.1| <= |s|
  {
    if s != "" && IsDigit(s[0]) then ReadNumber(s[1..], acc * 10 + (s[0] - '0') as nat) else (acc, s)
  }

  /** What follows the letter that ends a conversion. */
  function SkipConversion(s: string): (r: Option<string>)
    ensures r.Some? ==> |r.value| < |s|
  {
    if s == "" then None
    else if IsConversionLetter(s[0]) then Some(s[1..])
    else SkipConversion(s[1..])
  }

  /** The output of printf for arguments that are given by number and already rendered; None for a bad format. */
  function Printf(fmt: string, args: seq<string>): Option<string>
    decreases |fmt|
  {
    if fmt == "" then Some("")
    else if fmt[0] != '%' then Prepend([fmt[0]], Printf(fmt[1..], args))
    else if |fmt| > 1 && fmt[1] == '%' then Prepend("%", Printf(fmt[2..], args))
    else
      var (num, rest) := ReadNumber(fmt[1..], 0);
      if rest == "" || rest[0] != '$' || num == 0 || num > |args| then None
      else match SkipConversion(rest[1..])
        case None => None
        case Some(after) => Prepend(args[num - 1], Printf(after, args))
  }

  function Prepend(s: string, r: Option<string>): Option<string> {
    match r case None => None case Some(t) => Some(s + t)
  }

  lemma {:induction false} ReadDigits(n: nat, t: string)
    ensures ReadNumber(Digits(n) + t, 0) == ReadNumber(t, n)
  {
    var d := ['0' + (n % 10) as char];
    assert (d + t)[1..] == t;
    if n >= 10 {
      assert Digits(n) + t == Digits(n / 10) + (d + t);
      ReadDigits(n / 10, d + t);
    }
  }

  lemma {:induction false} SkipFlag(flag: string, t: string)
    requires IsFlag(flag)
    ensures SkipConversion(flag + t) == Some(t)
  {
    assert (flag + t)[1..] == flag[1..] + t;
    if |flag| > 1 {
      assert flag[1..][|flag| - 2] == flag[|flag| - 1];
      SkipFlag(flag[1..], t);
    }
  }

  lemma PrintfConversion(num: nat, flag: string, t: string, args: seq<string>)
    requires 0 < num <= |args| && IsFlag(flag)
    ensures Printf(Conversion(num, flag) + t, args) == Prepend(args[num - 1], Printf(t, args))
  {
    var rest := "$" + flag + t;
    ReadDigits(num, rest);
    StopReading(rest, num);
    SkipFlag(flag, t);
    FirstDigit(num, rest);
    ConversionParts(num, flag, t);
    hide *;
    PrintfStep(Digits(num) + rest, num, rest, args);
  }

  lemma StopReading(rest: string, num: nat)
    requires rest != "" && rest[0] == '$'
    ensures ReadNumber(rest, num) == (num, rest)
  {
  }

  lemma FirstDigit(num: nat, rest: string)
    ensures Digits(num) + rest != "" && (Digits(num) + rest)[0] != '%'
  {
    assert (Digits(num) + rest)[0] == Digits(num)[0] && Digits(num)[0] in Digits(num);
  }

  lemma ConversionParts(num: nat, flag: string, t: string)
    ensures Conversion(num, flag) + t == "%" + (Digits(num) + ("$" + flag + t))
    ensures ("$" + flag + t)[0] == '$' && ("$" + flag + t)[1..] == flag + t
  {
    hide Digits;
  }

  lemma PrintfStep(s: string, num: nat, rest: string, args: seq<string>)
    requires s != "" && s[0] != '%' && ReadNumber(s, 0) == (num, rest)
    requires rest != "" && rest[0] == '$' && 0 < num <= |args| && SkipConversion(rest[1..]).Some?
    ensures Printf("%" + s, args) == Prepend(args[num - 1], Printf(SkipConversion(rest[1..]).value, args))
  {
    hide ReadNumber; hide SkipConversion; hide Prepend;
    assert ("%" + s)[1..] == s;
  }

  /** A character is copied, and a percent sign is escaped so that it is. */
  lemma PrintfCharacter(c: char, t: string, args: seq<string>)
    ensures Printf((if c == '%' then "%%" else [c]) + t, args) == Prepend([c], Printf(t, args))
  {
    hide Prepend;
    if c == '%' {
      assert ("%%" + t)[2..] == t;
    } else {
      assert ([c] + t)[1..] == t;
    }
  }

  /** Printing with the compiled format is substituting the arguments in the template. */
  lemma {:induction false} FormatSubstitutes(s: string, toks: seq<string>, flags: seq<string>, args: seq<string>)
    requires |flags| == |toks| <= |args| && forall k :: 0 <= k < |flags| ==> IsFlag(flags[k])
    ensures Printf(Format(s, toks, flags), args) == Some(Substitute(s, toks, args))
    decreases |s|
  {
    hide IsFlag; hide Conversion; hide TagAt; hide AfterTag; hide Printf;
    if s == "" {
      assert Printf("", args) == Some("") by { PrintfEmpty(args); }
    } else if s[0] == '{' && TagAt(s, toks) > 0 {
      TagCloses(s, toks);
      FormatSubstitutes(AfterTag(s), toks, flags, args);
      PrintfConversion(TagAt(s, toks), flags[TagAt(s, toks) - 1], Format(AfterTag(s), toks, flags), args);
    } else {
      FormatSubstitutes(s[1..], toks, flags, args);
      PrintfCharacter(s[0], Format(s[1..], toks, flags), args);
    }
  }

  lemma PrintfEmpty(args: seq<string>)
    ensures Printf("", args) == Some("")
  {
  }

  lemma TagCloses(s: string, toks: seq<string>)
    requires s != "" && s[0] == '{' && TagAt(s, toks) > 0
    ensures ClosingBrace(s[1..]) < |s| - 1 && |AfterTag(s)| < |s|
  {
    hide ClosingBrace; hide IsTok;
  }

  // ----- the compiler -----

  const NUL := '\0'

  /** The character of a C string, whose end is marked. */
  function At(str: string, k: nat): char
    requires k <= |str|
  {
    if k == |str| then NUL else str[k]
  }

  /** The position up to which the template has been translated. */
  function Settled(src: nat, tok: nat): nat {
    if tok > 0 then tok - 1 else src
  }

  /** The state between two characters: no closing brace so far in the tag being read. */
  predicate Scanning(str: string, src: nat, tok: nat) {
    src <= |str| && tok <= src && (tok > 0 ==> str[tok - 1] == '{' && '}' !in str[tok..src])
  }

  lemma {:induction false} ClosingBraceAt(s: string, r: nat)
    requires r <= |s| && (r < |s| ==> s[r] == '}') && '}' !in s[..r]
    ensures ClosingBrace(s) == r
  {
    if r > 0 {
      assert s[0] in s[..r];
      assert s[1..][..r - 1] == s[..r][1..];
      ClosingBraceAt(s[1..], r - 1);
    }
  }

  /** At the end of a tag, what remains is what follows it. */
  lemma TagEnds(str: string, toks: seq<string>, src: nat, tok: nat)
    requires Scanning(str, src, tok) && tok > 0 && src < |str| && str[src] == '}'
    ensures var s := str[tok - 1..];
            && TagAt(s, toks) == IsTok(str[tok..src], toks)
            && ClosingBrace(s[1..]) < |s| - 1 && AfterTag(s) == str[src + 1..]
  {
    var s := str[tok - 1..];
    assert s[1..] == str[tok..];
    assert str[tok..][..src - tok] == str[tok..src];
    ClosingBraceAt(str[tok..], src - tok);
  }

  lemma TagNeverEnds(str: string, toks: seq<string>, src: nat, tok: nat)
    requires Scanning(str, src, tok) && tok > 0 && src == |str|
    ensures TagAt(str[tok - 1..], toks) == 0
  {
    assert str[tok - 1..][1..] == str[tok..src];
    ClosingBraceAt(str[tok..src], src - tok);
  }

  /** The format of a template that starts with a tag, or with any other character. */
  lemma FormatStep(s: string, toks: seq<string>, flags: seq<string>)
    requires |flags| == |toks| && s != ""
    ensures s[0] == '{' && TagAt(s, toks) > 0 ==>
              |AfterTag(s)| < |s| && Format(s, toks, flags) == Conversion(TagAt(s, toks), flags[TagAt(s, toks) - 1])
                + Format(AfterTag(s), toks, flags)
    ensures s[0] != '{' || TagAt(s, toks) == 0 ==>
              Format(s, toks, flags) == (if s[0] == '%' then "%%" else [s[0]]) + Format(s[1..], toks, flags)
  {
    if s[0] == '{' && TagAt(s, toks) > 0 { TagCloses(s, toks); }
    hide TagAt; hide AfterTag; hide Conversion;
  }

  /** The format of what follows position `k` of the template. */
  function From(str: string, k: nat, toks: seq<string>, flags: seq<string>): string
    requires |flags| == |toks| && k <= |str|
  {
    Format(str[k..], toks, flags)
  }

  /** The number of the token that ends at this position. */
  function Recognised(str: string, src: nat, tok: nat, toks: seq<string>): (r: nat)
    requires Scanning(str, src, tok)
    ensures r <= |toks| && (r > 0 ==> tok > 0 && At(str, src) == '}')
  {
    if tok > 0 && At(str, src) == '}' then IsTok(str[tok..src], toks) else 0
  }

  /** At the end of a tag: its conversion is written, and the scan goes on behind it. */
  lemma ScanTag(str: string, toks: seq<string>, flags: seq<string>, src: nat, tok: nat)
    requires |flags| == |toks| && Scanning(str, src, tok) && Recognised(str, src, tok, toks) > 0 && src < |str|
    ensures tok > 0 && From(str, tok - 1, toks, flags) ==
            Conversion(Recognised(str, src, tok, toks), flags[Recognised(str, src, tok, toks) - 1])
              + From(str, src + 1, toks, flags)
  {
    TagEnds(str, toks, src, tok);
    FormatStep(str[tok - 1..], toks, flags);
    hide ClosingBrace; hide IsTok; hide TagAt; hide AfterTag; hide Conversion; hide Format;
  }

  /** At the end of a text in braces that is no tag, or of the template: the brace itself is written. */
  lemma ScanBrace(str: string, toks: seq<string>, flags: seq<string>, src: nat, tok: nat)
    requires |flags| == |toks| && Scanning(str, src, tok) && tok > 0 && Recognised(str, src, tok, toks) == 0
    requires src == |str| || str[src] == '}'
    ensures From(str, tok - 1, toks, flags) == "{" + From(str, tok, toks, flags)
  {
    if src == |str| { TagNeverEnds(str, toks, src, tok); } else { TagEnds(str, toks, src, tok); }
    FormatStep(str[tok - 1..], toks, flags);
    assert str[tok - 1..][1..] == str[tok..];
    hide ClosingBrace; hide IsTok; hide TagAt; hide AfterTag; hide Conversion; hide Format;
  }

  /** Any other character is written, percent signs twice. */
  lemma ScanCharacter(str: string, toks: seq<string>, flags: seq<string>, src: nat)
    requires |flags| == |toks| && src < |str| && str[src] != '{'
    ensures From(str, src, toks, flags) == (if str[src] == '%' then "%%" else [str[src]])
            + From(str, src + 1, toks, flags)
  {
    FormatStep(str[src..], toks, flags);
    assert str[src..][1..] == str[src + 1..];
    hide TagAt; hide AfterTag; hide Conversion; hide Format;
  }

  /** What each branch of the scan is about to write, and where it goes on. */
  lemma ScanStep(str: string, toks: seq<string>, flags: seq<string>, src: nat, tok: nat)
    requires |flags| == |toks| && NUL !in str && Scanning(str, src, tok)
    ensures var c, num := At(str, src), Recognised(str, src, tok, toks);
            if tok > 0 && num > 0 then
              From(str, tok - 1, toks, flags) == Conversion(num, flags[num - 1]) + From(str, src + 1, toks, flags)
            else if tok > 0 && (c == '}' || c == NUL) then
              From(str, tok - 1, toks, flags) == "{" + From(str, tok, toks, flags)
            else if tok == 0 && c != '{' && c != NUL then
              From(str, src, toks, flags) == (if c == '%' then "%%" else [c]) + From(str, src + 1, toks, flags)
            else tok == 0 && c == NUL ==> From(str, src, toks, flags) == ""
  {
    AtEnd(str, src);
    hide From; hide Conversion; hide Recognised;
    if tok > 0 {
      if Recognised(str, src, tok, toks) > 0 {
        ScanTag(str, toks, flags, src, tok);
      } else if src == |str| || str[src] == '}' {
        ScanBrace(str, toks, flags, src, tok);
      }
    } else if src == |str| {
      NothingLeft(str, toks, flags);
    } else if str[src] != '{' {
      ScanCharacter(str, toks, flags, src);
    }
  }

  lemma AtEnd(str: string, src: nat)
    requires NUL !in str && src <= |str|
    ensures At(str, src) == NUL <==> src == |str|
  {
  }

  lemma NothingLeft(str: string, toks: seq<string>, flags: seq<string>)
    requires |flags| == |toks|
    ensures From(str, |str|, toks, flags) == ""
  {
  }

  /** Where each branch of the scan goes on. */
  lemma ScanNext(str: string, toks: seq<string>, src: nat, tok: nat)
    requires NUL !in str && Scanning(str, src, tok)
    ensures tok <= src <= |str| && (At(str, src) == NUL <==> src == |str|)
    ensures var c, num := At(str, src), Recognised(str, src, tok, toks);
            if tok > 0 && num > 0 then src < |str| && Scanning(str, src + 1, 0)
            else if tok > 0 && (c == '}' || c == NUL) then At(str, tok - 1) != NUL && Scanning(str, tok, 0)
            else if tok > 0 then Scanning(str, src + 1, tok)
            else if c == '{' then Scanning(str, src + 1, src + 1)
            else c != NUL ==> Scanning(str, src + 1, 0)
  {
    hide IsTok;
    if tok > 0 && src < |str| && At(str, src) != '}' { assert str[tok..src + 1] == str[tok..src] + [str[src]]; }
  }

  /** The first scan: only the length. */
  method FormatLength(str: string, toks: seq<string>, flags: seq<string>) returns (len: nat)
    requires |flags| == |toks| && NUL !in str
    ensures len == |Format(str, toks, flags)|
  {
    hide From; hide Conversion; hide Recognised;
    assert From(str, 0, toks, flags) == Format(str, toks, flags) by { FromStart(str, toks, flags); }
    var src: nat, tok: nat := 0, 0;
    len := 0;
    while true
      invariant Scanning(str, src, tok)
      invariant len + |From(str, Settled(src, tok), toks, flags)| == |From(str, 0, toks, flags)|
      decreases |str| - Settled(src, tok), if tok == 0 then 1 else 0, |str| - src
    {
      ScanNext(str, toks, src, tok);
      ScanStep(str, toks, flags, src, tok);
      var c, num := At(str, src), Recognised(str, src, tok, toks);
      if tok > 0 {
        if num > 0 {
          len := len + |Conversion(num, flags[num - 1])|;
          tok := 0;
        } else if c == '}' || c == NUL {
          len := len + 1;
          src := tok - 1;
          tok := 0;
        }
      } else if c == '{' {
        tok := src + 1;
      } else if c != NUL {
        len := len + 1 + if c == '%' then 1 else 0;
      }
      if At(str, src) == NUL { break; }
      src := src + 1;
    }
  }

  lemma FromStart(str: string, toks: seq<string>, flags: seq<string>)
    requires |flags| == |toks|
    ensures From(str, 0, toks, flags) == Format(str, toks, flags)
  {
    assert str[0..] == str;
  }

  /** How many characters of a text vsnprintf stores for a size. */
  function Stored(text: string, size: nat): nat
    requires size > 0
  {
    if |text| < size then |text| else size - 1
  }

  /** Writes as much of the text as the size allows, ends it with a NUL, and returns the full length. */
  method Snprintf(buf: array<char>, at: nat, size: nat, text: string) returns (r: nat)
    requires 0 < size && at + Stored(text, size) < buf.Length
    modifies buf
    ensures r == |text|
    ensures var n := Stored(text, size);
            && buf[..at + n] == old(buf[..at]) + text[..n] && buf[at + n] == NUL
            && buf[at + n + 1..] == old(buf[at + n + 1..])
  {
    var n := Stored(text, size);
    for k := 0 to n
      invariant buf[..at + k] == old(buf[..at]) + text[..k]
      invariant buf[at + n + 1..] == old(buf[at + n + 1..])
    {
      buf[at + k] := text[k];
    }
    buf[at + n] := NUL;
    r := |text|;
  }

  /** The first `dest` characters are in place, and this is what remains of the whole format. */
  ghost predicate Filled(fmt: array<char>, dest: nat, rest: string, whole: string)
    reads fmt
  {
    fmt.Length == |whole| + 1 && dest <= |whole| && fmt[..dest] + rest == whole
  }

  method StoreConversion(fmt: array<char>, dest: nat, len: nat, text: string, ghost rest: string, ghost whole: string)
    returns (next: nat)
    requires Filled(fmt, dest, text + rest, whole) && len == |whole|
    modifies fmt
    ensures Filled(fmt, next, rest, whole)
  {
    Associative(fmt[..dest], text, rest);
    assert |fmt[..dest] + (text + rest)| == dest + |text| + |rest|;
    var n := Snprintf(fmt, dest, len - dest + 1, text);
    next := dest + n;
    assert text[..|text|] == text;
  }

  method StoreCharacter(fmt: array<char>, dest: nat, c: char, ghost rest: string, ghost whole: string)
    returns (next: nat)
    requires Filled(fmt, dest, [c] + rest, whole)
    modifies fmt
    ensures Filled(fmt, next, rest, whole)
  {
    Associative(fmt[..dest], [c], rest);
    assert |fmt[..dest] + ([c] + rest)| == dest + 1 + |rest|;
    fmt[dest] := c;
    next := dest + 1;
  }

  method StorePercents(fmt: array<char>, dest: nat, ghost rest: string, ghost whole: string) returns (next: nat)
    requires Filled(fmt, dest, "%%" + rest, whole)
    modifies fmt
    ensures Filled(fmt, next, rest, whole)
  {
    assert "%%" + rest == ['%'] + (['%'] + rest);
    next := StoreCharacter(fmt, dest, '%', ['%'] + rest, whole);
    next := StoreCharacter(fmt, next, '%', rest, whole);
  }

  lemma NothingFilled(fmt: array<char>, whole: string)
    requires fmt.Length == |whole| + 1
    ensures Filled(fmt, 0, whole, whole)
  {
    assert fmt[..0] + whole == whole;
  }

  lemma AllFilled(fmt: array<char>, dest: nat, whole: string)
    requires Filled(fmt, dest, "", whole)
    ensures dest == |whole| && fmt[..dest] == whole
  {
    assert fmt[..dest] + "" == fmt[..dest];
  }

  /** The state of the second scan: what follows position `pos` is still to be translated. */
  ghost predicate Writing(fmt: array<char>, str: string, toks: seq<string>, flags: seq<string>, src: nat, tok: nat,
                          dest: nat, pos: nat)
    requires |flags| == |toks|
    reads fmt
  {
    && Scanning(str, src, tok) && pos == Settled(src, tok)
    && Filled(fmt, dest, From(str, pos, toks, flags), Format(str, toks, flags))
  }

  /** The part of the second scan that is reading a tag. */
  method WriteTag(fmt: array<char>, str: string, toks: seq<string>, flags: seq<string>, src0: nat, tok0: nat,
                  dest0: nat,
                  len: nat, ghost pos0: nat) returns (src: nat, tok: nat, dest: nat, ghost pos: nat)
    requires |flags| == |toks| && NUL !in str && 0 < tok0 && Writing(fmt, str, toks, flags, src0, tok0, dest0, pos0)
    requires len == |Format(str, toks, flags)|
    modifies fmt
    ensures src < |str| && pos <= |str| && Writing(fmt, str, toks, flags, src + 1, tok, dest, pos)
    ensures pos0 < pos || (pos0 == pos && tok > 0 && src == src0)
  {
    hide From; hide Conversion; hide Recognised; hide Filled; hide Scanning; hide At; hide Format;
    ScanNext(str, toks, src0, tok0);
    ScanStep(str, toks, flags, src0, tok0);
    ghost var whole := Format(str, toks, flags);
    src, tok, dest, pos := src0, tok0, dest0, pos0;
    var num := Recognised(str, src, tok, toks);
    if num > 0 {
      dest := StoreConversion(fmt, dest, len, Conversion(num, flags[num - 1]), From(str, src + 1, toks, flags), whole);
      tok, pos := 0, src + 1;
    } else if At(str, src) == '}' || At(str, src) == NUL {
      dest := StoreCharacter(fmt, dest, '{', From(str, tok, toks, flags), whole);
      src, pos := tok - 1, tok;
      tok := 0;
    }
  }

  /** The part that is not. */
  method WriteText(fmt: array<char>, str: string, toks: seq<string>, flags: seq<string>, src: nat, dest0: nat)
    returns (tok: nat, dest: nat, ghost pos: nat)
    requires |flags| == |toks| && NUL !in str && src < |str| && Writing(fmt, str, toks, flags, src, 0, dest0, src)
    modifies fmt
    ensures pos <= |str| && Writing(fmt, str, toks, flags, src + 1, tok, dest, pos)
    ensures src < pos || (src == pos && tok > 0)
  {
    hide From; hide Recognised; hide Filled; hide Scanning; hide At; hide Format;
    ScanNext(str, toks, src, 0);
    ScanStep(str, toks, flags, src, 0);
    ghost var whole := Format(str, toks, flags);
    tok, dest, pos := 0, dest0, src + 1;
    var c := At(str, src);
    if c == '{' {
      tok, pos := src + 1, src;
    } else if c == '%' {
      dest := StorePercents(fmt, dest, From(str, src + 1, toks, flags), whole);
    } else {
      dest := StoreCharacter(fmt, dest, c, From(str, src + 1, toks, flags), whole);
    }
  }

  /** The second scan writes exactly the characters that the first one counted. */
  method WriteFormat(fmt: array<char>, str: string, toks: seq<string>, flags: seq<string>, len: nat) returns (dest: nat)
    requires |flags| == |toks| && NUL !in str && len == |Format(str, toks, flags)| &&
             Writing(fmt, str, toks, flags, 0, 0, 0, 0)
    modifies fmt
    ensures Filled(fmt, dest, "", Format(str, toks, flags))
  {
    hide *;
    var src: nat, tok: nat := 0, 0;
    ghost var pos: nat := 0;
    dest := 0;
    while tok > 0 || src < |str|
      invariant src <= |str| && pos <= |str| && Writing(fmt, str, toks, flags, src, tok, dest, pos)
      decreases |str| - pos, if tok == 0 then 1 else 0, |str| - src
    {
      if tok > 0 {
        src, tok, dest, pos := WriteTag(fmt, str, toks, flags, src, tok, dest, len, pos);
      } else {
        WritingAt(fmt, str, toks, flags, src, dest, pos);
        tok, dest, pos := WriteText(fmt, str, toks, flags, src, dest);
      }
      src := src + 1;
    }
    WritingEnds(fmt, str, toks, flags, dest, pos);
  }

  lemma WritingStarts(fmt: array<char>, str: string, toks: seq<string>, flags: seq<string>)
    requires |flags| == |toks| && fmt.Length == |Format(str, toks, flags)| + 1
    ensures Writing(fmt, str, toks, flags, 0, 0, 0, 0)
  {
    FromStart(str, toks, flags);
    NothingFilled(fmt, Format(str, toks, flags));
    hide Format;
  }

  lemma WritingAt(fmt: array<char>, str: string, toks: seq<string>, flags: seq<string>, src: nat, dest: nat, pos: nat)
    requires |flags| == |toks| && Writing(fmt, str, toks, flags, src, 0, dest, pos)
    ensures pos == src
  {
  }

  lemma WritingEnds(fmt: array<char>, str: string, toks: seq<string>, flags: seq<string>, dest: nat, pos: nat)
    requires |flags| == |toks| && Writing(fmt, str, toks, flags, |str|, 0, dest, pos)
    ensures Filled(fmt, dest, "", Format(str, toks, flags))
  {
    NothingLeft(str, toks, flags);
    hide From; hide Format;
  }

  method MakeFmtp(str: string, toks: seq<string>, flags: seq<string>) returns (fmt: array<char>, len: nat)
    requires |flags| == |toks| && NUL !in str
    ensures fresh(fmt) && fmt.Length == len + 1 && fmt[len] == NUL
    ensures fmt[..len] == Format(str, toks, flags)
  {
    hide Format;
    len := FormatLength(str, toks, flags);
    fmt := new char[len + 1];
    WritingStarts(fmt, str, toks, flags);
    var dest := WriteFormat(fmt, str, toks, flags, len);
    AllFilled(fmt, dest, Format(str, toks, flags));
    assert dest == len;
    fmt[len] := NUL;
  }

  // ----- whole tags -----

  /** The number of the first token that is this text; 0 if there is none. */
  function WholeTok(text: string, toks: seq<string>, k: nat): (r: nat)
    requires k <= |toks|
    ensures r <= |toks|
    ensures r > 0 ==> k < r && text == toks[r - 1]
    ensures r == 0 ==> forall j :: k <= j < |toks| ==> text != toks[j]
    decreases |toks| - k
  {
    if k == |toks| then 0 else if text == toks[k] then k + 1 else WholeTok(text, toks, k + 1)
  }

  function WholeTagAt(s: string, toks: seq<string>): (r: nat)
    requires s != "" && s[0] == '{'
    ensures r <= |toks|
  {
    var j := ClosingBrace(s[1..]);
    if j < |s| - 1 then WholeTok(s[1..][..j], toks, 0) else 0
  }

  /** The format if only whole tags were recognised, as the help text of the options says. */
  function WholeFormat(s: string, toks: seq<string>, flags: seq<string>): string
    requires |flags| >= |toks|
    decreases |s|
  {
    if s == "" then ""
    else if s[0] == '{' && WholeTagAt(s, toks) > 0 then
      Conversion(WholeTagAt(s, toks), flags[WholeTagAt(s, toks) - 1]) + WholeFormat(AfterTag(s), toks, flags)
    else (if s[0] == '%' then "%%" else [s[0]]) + WholeFormat(s[1..], toks, flags)
  }

  /** No text in braces is short for a token that comes before any token it is. */
  ghost predicate Unabbreviated(s: string, toks: seq<string>) {
    forall i :: 0 <= i < |s| && s[i] == '{' ==> TagAt(s[i..], toks) == WholeTagAt(s[i..], toks)
  }

  predicate WithoutBraces(toks: seq<string>) {
    forall k :: 0 <= k < |toks| ==> '{' !in toks[k]
  }

  /** Leaving out a tag, or one character, leaves out one place to look at. */
  lemma UnabbreviatedAfter(s: string, toks: seq<string>, k: nat)
    requires 0 < k <= |s| && forall m :: 0 < m < k ==> s[m] != '{'
    requires s[0] == '{' ==> TagAt(s, toks) == WholeTagAt(s, toks)
    ensures Unabbreviated(s, toks) <==> Unabbreviated(s[k..], toks)
  {
    hide TagAt; hide WholeTagAt;
    assert forall i :: 0 <= i < |s| - k ==> s[k..][i] == s[k + i] && s[k..][i..] == s[k + i..];
    if Unabbreviated(s[k..], toks) {
      forall i | 0 <= i < |s| && s[i] == '{' ensures TagAt(s[i..], toks) == WholeTagAt(s[i..], toks) {
        if i >= k {
          assert s[k..][i - k..] == s[i..];
        } else {
          assert i == 0 && s[0..] == s;
        }
      }
    }
  }

  lemma TagHasNoBrace(s: string, toks: seq<string>)
    requires s != "" && s[0] == '{' && TagAt(s, toks) > 0 && WithoutBraces(toks)
    ensures var j := ClosingBrace(s[1..]);
            j < |s| - 1 && forall m :: 0 < m < j + 2 ==> s[m] != '{'
  {
    var j := ClosingBrace(s[1..]);
    var tok := toks[TagAt(s, toks) - 1];
    var text := s[1..][..j];
    assert text <= tok;
    forall m | 0 < m < j + 2 ensures s[m] != '{' {
      if m <= j { assert text[m - 1] == tok[m - 1] && tok[m - 1] in tok; }
    }
  }

  /** A whole tag is recognised, if not always as itself. */
  lemma WholeIsTag(s: string, toks: seq<string>)
    requires s != "" && s[0] == '{'
    ensures WholeTagAt(s, toks) > 0 ==> TagAt(s, toks) > 0
  {
  }

  lemma ConversionsDiffer(n: nat, m: nat, a: string, b: string, t: string, u: string)
    requires Conversion(n, a) + t == Conversion(m, b) + u
    ensures n == m
  {
    ConversionParts(n, a, t);
    ConversionParts(m, b, u);
    var x, y := "$" + a + t, "$" + b + u;
    assert Digits(n) + x == ("%" + (Digits(n) + x))[1..] == ("%" + (Digits(m) + y))[1..] == Digits(m) + y;
    ReadDigits(n, x);
    ReadDigits(m, y);
    StopReading(x, n);
    StopReading(y, m);
  }

  lemma ConversionFirst(n: nat, a: string, t: string)
    ensures Conversion(n, a) + t != "" && (Conversion(n, a) + t)[0] == '%'
  {
  }

  lemma SamePrefix(p: string, a: string, b: string)
    ensures p + a == p + b <==> a == b
  {
    if p + a == p + b { assert (p + a)[|p|..] == a && (p + b)[|p|..] == b; }
  }

  /**
    Text in braces need only start a token to count as the tag. That makes no difference exactly
    for the templates in which no text in braces is short for a token.
   */
  lemma {:induction false} WholeTagsOnly(s: string, toks: seq<string>, flags: seq<string>)
    requires |flags| == |toks| && WithoutBraces(toks)
    ensures Format(s, toks, flags) == WholeFormat(s, toks, flags) <==> Unabbreviated(s, toks)
    decreases |s|
  {
    hide TagAt; hide WholeTagAt; hide Conversion; hide ClosingBrace;
    if s != "" {
      var tag := s[0] == '{' && TagAt(s, toks) > 0;
      if s[0] == '{' { WholeIsTag(s, toks); }
      if s[0] == '{' && TagAt(s, toks) != WholeTagAt(s, toks) {
        TagDiffers(s, toks, flags);
        assert s[0..] == s;
      } else if tag {
        TagHasNoBrace(s, toks);
        var k := ClosingBrace(s[1..]) + 2;
        WholeTagsOnly(s[k..], toks, flags);
        UnabbreviatedAfter(s, toks, k);
        SamePrefix(Conversion(TagAt(s, toks), flags[TagAt(s, toks) - 1]), Format(s[k..], toks, flags),
                   WholeFormat(s[k..], toks, flags));
      } else {
        WholeTagsOnly(s[1..], toks, flags);
        UnabbreviatedAfter(s, toks, 1);
        SamePrefix(if s[0] == '%' then "%%" else [s[0]], Format(s[1..], toks, flags), WholeFormat(s[1..], toks, flags));
      }
    }
  }

  lemma WholeFormatStep(s: string, toks: seq<string>, flags: seq<string>)
    requires |flags| == |toks| && s != "" && s[0] == '{' && TagAt(s, toks) > 0
    ensures ClosingBrace(s[1..]) < |s| - 1 && |AfterTag(s)| < |s|
    ensures WholeTagAt(s, toks) > 0 ==>
              WholeFormat(s, toks, flags) ==
              Conversion(WholeTagAt(s, toks), flags[WholeTagAt(s, toks) - 1]) + WholeFormat(AfterTag(s), toks, flags)
    ensures WholeTagAt(s, toks) == 0 ==> WholeFormat(s, toks, flags) == "{" + WholeFormat(s[1..], toks, flags)
  {
    TagCloses(s, toks);
    hide TagAt; hide WholeTagAt; hide AfterTag; hide Conversion; hide ClosingBrace;
  }

  lemma TagDiffers(s: string, toks: seq<string>, flags: seq<string>)
    requires |flags| == |toks| && s != "" && s[0] == '{' && TagAt(s, toks) != WholeTagAt(s, toks) && TagAt(s, toks) > 0
    ensures Format(s, toks, flags) != WholeFormat(s, toks, flags)
  {
    hide *;
    var n, m := TagAt(s, toks), WholeTagAt(s, toks);
    FormatStep(s, toks, flags);
    WholeFormatStep(s, toks, flags);
    var rest := Format(AfterTag(s), toks, flags);
    if m > 0 {
      TagsDiffer(n, m, flags[n - 1], flags[m - 1], rest, WholeFormat(AfterTag(s), toks, flags));
    } else {
      ConversionFirst(n, flags[n - 1], rest);
      assert ("{" + WholeFormat(s[1..], toks, flags))[0] == '{';
    }
  }

  lemma TagsDiffer(n: nat, m: nat, a: string, b: string, t: string, u: string)
    requires n != m
    ensures Conversion(n, a) + t != Conversion(m, b) + u
  {
    hide *;
    if Conversion(n, a) + t == Conversion(m, b) + u { ConversionsDiffer(n, m, a, b, t, u); }
  }

  /** Empty braces always stand for the first argument. */
  lemma EmptyBraces(t: string, toks: seq<string>)
    requires toks != []
    ensures TagAt("{}" + t, toks) == 1
  {
    assert ("{}" + t)[1..] == "}" + t;
    ClosingBraceAt("}" + t, 0);
    assert "" <= toks[0];
  }
}
