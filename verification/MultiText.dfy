/** Printing one text into several streams, each with its own replacements for the tokens in it. */
module MultiText {
  import opened Wrappers
  import opened Templates
  import opened TextBuffers
  import opened Programs

  const MODES: seq<Mode> := [Write, Read, Move, Max]

  predicate IsTokenLetter(c: char) { c == 'T' || c == 'C' }

  /** {T} is the name of the stream's function, {C} says that it leaves the instance alone. */
  function Replacement(m: Mode, c: char): (r: string)
    ensures NUL !in r
    ensures c == 'T' && m == Write ==> r == "write"
    ensures c == 'T' && m == Read ==> r == "read"
    ensures c == 'T' && m == Move ==> r == "move"
    ensures c == 'T' && m == Max ==> r == "max"
    ensures c != 'T' ==> r == if m == Read then "" else "const "
  {
    if c == 'T' then match m { case Write => "write" case Read => "read" case Move => "move" case Max => "max" }
    else if m == Read then "" else "const "
  }

  predicate TokenAt(s: string, k: nat) {
    k + 1 < |s| && s[k] == '{' && IsTokenLetter(s[k + 1])
  }

  /** Behind every token there is the character that the scan skips with it, a brace or not. */
  predicate WellTagged(s: string) {
    forall k :: 0 <= k < |s| && TokenAt(s, k) ==> k + 2 < |s|
  }

  function NextToken(s: string, k: nat): (r: nat)
    requires k <= |s|
    ensures k <= r <= |s| && (forall j :: k <= j < r ==> !TokenAt(s, j)) && (r < |s| ==> TokenAt(s, r))
    decreases |s| - k
  {
    if k == |s| || TokenAt(s, k) then k else NextToken(s, k + 1)
  }

  /**
    What is really printed into one stream from position `k` on: the text between tokens is used
    as a format once more. None where that has no defined result, or the scan leaves the text.
   */
  function View(m: Mode, s: string, k: nat): Option<string>
    requires k <= |s|
    decreases |s| - k
  {
    if k == |s| then Some("")
    else
      var mid := NextToken(s, k);
      match Printf(s[k..mid], [])
      case None => None
      case Some(plain) =>
        if mid == |s| then Some(plain)
        else if mid + 2 >= |s| then None
        else Prepend(plain + Replacement(m, s[mid + 1]), View(m, s, mid + 3))
  }

  /** What one stream gets to see of a text. */
  function Project(m: Mode, s: string): string
    decreases |s|
  {
    if s == "" then ""
    else if TokenAt(s, 0) && |s| > 2 then Replacement(m, s[1]) + Project(m, s[3..])
    else [s[0]] + Project(m, s[1..])
  }

  /** Two letters are tokens; everything else that stands in braces is text for all streams. */
  lemma TokensOfStreams(m: Mode, c: char)
    ensures Project(m, ['{', c, '}']) ==
            if c == 'T' then match m { case Write => "write" case Read => "read" case Move => "move" case Max => "max" }
            else if c == 'C' then (if m == Read then "" else "const ")
            else ['{', c, '}']
  {
    var s := ['{', c, '}'];
    assert s[3..] == [] && s[1..] == [c, '}'] && s[1..][1..] == ['}'] && s[1..][1..][1..] == [];
    assert Project(m, []) == "";
    assert Project(m, ['}']) == ['}'];
    assert Project(m, [c, '}']) == [c, '}'];
  }

  lemma TokenLater(a: string, b: string, k: nat)
    requires a != ""
    ensures TokenAt(a[1..] + b, k) == TokenAt(a + b, k + 1)
  {
    assert (a + b)[1..] == a[1..] + b;
  }

  /** Text without tokens is the same for all streams. */
  lemma {:induction false} ProjectPlain(m: Mode, a: string, b: string)
    requires forall k :: 0 <= k < |a| ==> !TokenAt(a + b, k)
    ensures Project(m, a + b) == a + Project(m, b)
  {
    hide Replacement; hide TokenAt;
    if a == "" {
      assert a + b == b;
    } else {
      assert !TokenAt(a + b, 0);
      assert (a + b)[1..] == a[1..] + b;
      forall k | 0 <= k < |a| - 1 ensures !TokenAt(a[1..] + b, k) { TokenLater(a, b, k); }
      ProjectPlain(m, a[1..], b);
    }
  }

  /** Without percent signs, and with whole tokens, what is printed is the view of the text. */
  lemma {:induction false} PlainView(m: Mode, s: string, k: nat)
    requires '%' !in s && WellTagged(s) && k <= |s|
    ensures View(m, s, k) == Some(Project(m, s[k..]))
    decreases |s| - k
  {
    hide *;
    if k == |s| {
      NothingToView(m, s);
    } else {
      var mid := NextToken(s, k);
      TextAsFormat(s[k..mid]);
      TokenFits(s, k);
      PieceProject(m, s, k, mid);
      ViewUnfold(m, s, k);
      if mid < |s| { PlainView(m, s, mid + 3); }
    }
  }

  lemma NothingToView(m: Mode, s: string)
    ensures View(m, s, |s|) == Some("") && Project(m, s[|s|..]) == ""
  {
  }

  lemma TokenFits(s: string, k: nat)
    requires WellTagged(s) && k < |s|
    ensures k <= NextToken(s, k) <= |s| && NextToken(s, k) < |s| ==>
              TokenAt(s, NextToken(s, k)) && NextToken(s, k) + 2 < |s|
  {
    hide TokenAt;
  }

  lemma ViewUnfold(m: Mode, s: string, k: nat)
    requires k < |s| && Printf(s[k..NextToken(s, k)], []).Some?
    ensures var mid := NextToken(s, k);
            var plain := Printf(s[k..mid], []).value;
            View(m, s, k) ==
            if mid == |s| then Some(plain) else if mid + 2 >= |s| then None
            else match View(m, s, mid + 3) case None => None case Some(t) => Some(plain + Replacement(m, s[mid + 1])
              + t)
  {
    hide Printf; hide NextToken; hide Replacement;
  }

  /** The view of a text up to and including its first token. */
  lemma PieceProject(m: Mode, s: string, k: nat, mid: nat)
    requires k <= mid <= |s| && (forall j :: k <= j < mid ==> !TokenAt(s, j)) &&
             (mid < |s| ==> TokenAt(s, mid) && mid + 2 < |s|)
    ensures Project(m, s[k..]) ==
            if mid == |s| then s[k..mid] else s[k..mid] + Replacement(m, s[mid + 1]) + Project(m, s[mid + 3..])
  {
    var a, b := s[k..mid], s[mid..];
    assert s[k..] == a + b;
    forall j | 0 <= j < |a| ensures !TokenAt(a + b, j) { assert !TokenAt(s, k + j); }
    ProjectPlain(m, a, b);
    if mid < |s| {
      assert b[3..] == s[mid + 3..] && TokenAt(b, 0);
      Associative(a, Replacement(m, s[mid + 1]), Project(m, s[mid + 3..]));
    }
  }

  /** Printing adds no NUL. */
  lemma {:induction false} PrintfIsClean(s: string)
    requires NUL !in s
    ensures Printf(s, []).Some? ==> NUL !in Printf(s, []).value
    decreases |s|
  {
    if s != "" {
      if s[0] != '%' {
        PrintfIsClean(s[1..]);
      } else if |s| > 1 && s[1] == '%' {
        PrintfIsClean(s[2..]);
      }
    }
  }

  /**
    Text that is used as a format again, after its arguments have been filled in, comes out
    unchanged exactly when there is no percent sign in it.
   */
  lemma {:induction false} TextAsFormat(s: string)
    ensures Printf(s, []) == Some(s) <==> '%' !in s
  {
    PrintfIsNotLonger(s);
    if s != "" && s[0] != '%' {
      TextAsFormat(s[1..]);
      if Printf(s[1..], []).Some? { SameTail(s, Printf(s[1..], []).value); }
    }
  }

  lemma SameTail(s: string, t: string)
    requires s != ""
    ensures [s[0]] + t == s <==> t == s[1..]
  {
    if [s[0]] + t == s { assert ([s[0]] + t)[1..] == t; }
  }

  /** Without arguments every percent sign makes the output shorter. */
  lemma {:induction false} PrintfIsNotLonger(s: string)
    ensures Printf(s, []).Some? ==> |Printf(s, []).value| <= |s|
    ensures s != "" && s[0] == '%' && Printf(s, []).Some? ==> |Printf(s, []).value| < |s|
    decreases |s|
  {
    if s != "" {
      if s[0] != '%' {
        PrintfIsNotLonger(s[1..]);
      } else if |s| > 1 && s[1] == '%' {
        PrintfIsNotLonger(s[2..]);
      }
    }
  }

  class Streams {
    const write: Buffer
    const read: Buffer
    const move: Buffer
    const max: Buffer

    function Of(m: Mode): Buffer {
      match m
      case Write => write
      case Read => read
      case Move => move
      case Max => max
    }

    ghost predicate Valid()
      reads write, read, move, max, write.data, read.data, move.data, max.data
    {
      && (forall m :: Of(m).Valid())
      && (forall m, n :: m != n ==> Of(m) != Of(n) && (Of(m).data != null ==> Of(m).data != Of(n).data))
    }

    constructor ()
      ensures Valid() && forall m :: Of(m).Contents() == "" && fresh(Of(m)) && Of(m).data == null
    {
      hide Buffer.Valid;
      hide Buffer.Contents;
      write := new Buffer();
      read := new Buffer();
      move := new Buffer();
      max := new Buffer();
    }

    /** Only one of the buffers, or its block, may be new or changed. */
    twostate predicate OnlyChanges(m: Mode)
      reads write, read, move, max
    {
      forall n :: Of(n).data == old(Of(n).data) || (n == m && Of(n).data != null && fresh(Of(n).data))
    }

    method PutOne(m: Mode, text: string)
      requires Valid() && NUL !in text
      modifies Of(m), Of(m).data
      ensures Valid() && OnlyChanges(m)
      ensures Of(m).Contents() == old(Of(m).Contents()) + text
      ensures forall n :: n != m ==> Of(n).Contents() == old(Of(n).Contents())
    {
      hide Buffer.Valid;
      hide Buffer.Contents;
      Of(m).Put(text);
    }

    /** A text for every stream in the mask. */
    method PutEach(mask: set<Mode>, texts: seq<string>)
      requires Valid() && |texts| == |MODES| && forall k :: 0 <= k < |texts| ==> NUL !in texts[k]
      modifies write, read, move, max, write.data, read.data, move.data, max.data
      ensures Valid() && forall m :: Of(m).data == old(Of(m).data) || (Of(m).data != null && fresh(Of(m).data))
      ensures forall k :: 0 <= k < |MODES| ==>
                Of(MODES[k]).Contents() == old(Of(MODES[k]).Contents()) + if MODES[k] in mask then texts[k] else ""
    {
      hide Buffer.Valid;
      hide Buffer.Contents;
      for j := 0 to |MODES|
        invariant Valid() && forall m :: Of(m).data == old(Of(m).data) || (Of(m).data != null && fresh(Of(m).data))
        invariant forall k :: 0 <= k < |MODES| ==>
                    Of(MODES[k]).Contents() == old(Of(MODES[k]).Contents()) + if k < j &&
                      MODES[k] in mask then texts[k] else ""
      {
        if MODES[j] in mask { PutOne(MODES[j], texts[j]); }
      }
    }

    /**
      Prints up to the next token, or to the end. The text goes to printf as a format once more;
      where that has no defined result, printing ends here.
     */
    method PrintUntilToken(mask: set<Mode>, fmt: string, start: nat) returns (pos: nat, ok: bool)
      requires Valid() && start <= |fmt| && NUL !in fmt
      modifies write, read, move, max, write.data, read.data, move.data, max.data
      ensures Valid() && forall m :: Of(m).data == old(Of(m).data) || (Of(m).data != null && fresh(Of(m).data))
      ensures pos == NextToken(fmt, start) && (ok <==> Printf(fmt[start..pos], []).Some?)
      ensures ok ==> forall k :: 0 <= k < |MODES| ==>
                Of(MODES[k]).Contents() == old(Of(MODES[k]).Contents())
                  + if MODES[k] in mask then Plain(fmt[start..pos]) else ""
    {
      hide Buffer.Valid; hide Buffer.Contents; hide Valid; hide NextToken; hide Printf; hide Plain; hide TokenAt;
      pos := ScanToToken(fmt, start);
      PieceIsClean(fmt, start, pos);
      ok := true;
      if pos > start {
        ok := PrintSubstring(mask, fmt[start..pos]);
      }
    }

    method PrintSubstring(mask: set<Mode>, substring: string) returns (ok: bool)
      requires Valid() && NUL !in substring
      modifies write, read, move, max, write.data, read.data, move.data, max.data
      ensures Valid() && forall m :: Of(m).data == old(Of(m).data) || (Of(m).data != null && fresh(Of(m).data))
      ensures ok <==> Printf(substring, []).Some?
      ensures ok ==> forall k :: 0 <= k < |MODES| ==>
                Of(MODES[k]).Contents() == old(Of(MODES[k]).Contents())
                  + if MODES[k] in mask then Plain(substring) else ""
    {
      hide Buffer.Valid; hide Buffer.Contents; hide Valid; hide Printf; hide Plain;
      ok := Printf(substring, []).Some?;
      if ok {
        var text := Plain(substring);
        PlainIsClean(substring);
        PutEach(mask, [text, text, text, text]);
      }
    }

    static method ScanToToken(fmt: string, start: nat) returns (pos: nat)
      requires start <= |fmt|
      ensures pos == NextToken(fmt, start)
    {
      pos := start;
      while pos < |fmt| && !TokenAt(fmt, pos)
        invariant start <= pos <= |fmt| && NextToken(fmt, pos) == NextToken(fmt, start)
      {
        pos := pos + 1;
      }
    }

    /** Prints what the token stands for, and skips it. */
    method ReplaceToken(mask: set<Mode>, fmt: string, start: nat) returns (pos: nat)
      requires Valid() && start < |fmt| && TokenAt(fmt, start)
      modifies write, read, move, max, write.data, read.data, move.data, max.data
      ensures Valid() && forall m :: Of(m).data == old(Of(m).data) || (Of(m).data != null && fresh(Of(m).data))
      ensures pos == start + 3
      ensures forall k :: 0 <= k < |MODES| ==>
                Of(MODES[k]).Contents() == old(Of(MODES[k]).Contents())
                  + if MODES[k] in mask then Replacement(MODES[k], fmt[start + 1]) else ""
    {
      var c := fmt[start + 1];
      hide Buffer.Valid; hide Buffer.Contents; hide Valid; hide TokenAt; hide Replacement;
      PutEach(mask, seq(|MODES|, k requires 0 <= k < |MODES| => Replacement(MODES[k], c)));
      pos := start + 3;
    }

    /** Prints text up to a token or the end, then what the token stands for. */
    method PrintNext(mask: set<Mode>, text: string, start: nat) returns (pos: nat, ok: bool)
      requires Valid() && NUL !in text && start < |text|
      modifies write, read, move, max, write.data, read.data, move.data, max.data
      ensures start < pos && (ok ==> pos <= |text|)
      ensures Valid() && forall m :: Of(m).data == old(Of(m).data) || (Of(m).data != null && fresh(Of(m).data))
      ensures forall m :: View(m, text, start).Some? <==> ok && View(m, text, pos).Some?
      ensures ok ==> forall k :: 0 <= k < |MODES| && View(MODES[k], text, start).Some? ==>
                Of(MODES[k]).Contents() + Rest(mask, MODES[k], text, pos) == old(Of(MODES[k]).Contents())
                  + Rest(mask, MODES[k], text, start)
    {
      hide Buffer.Valid; hide Buffer.Contents; hide Replacement; hide Rest; hide View; hide NextToken; hide Printf;
      hide Plain;
      assert Of(Write) == write && Of(Read) == read && Of(Move) == move && Of(Max) == max;
      pos, ok := PrintUntilToken(mask, text, start);
      ghost var mid := pos;
      TokenStands(text, start);
      forall m { ViewStep(m, text, start); }
      if !ok { pos := start + 1; return; }
      if pos < |text| {
        pos := ReplaceToken(mask, text, pos);
        ok := pos <= |text|;
      }
      if ok {
        forall k | 0 <= k < |MODES| && View(MODES[k], text, start).Some?
          ensures Of(MODES[k]).Contents() + Rest(mask, MODES[k], text, pos) ==
                  old(Of(MODES[k]).Contents()) + Rest(mask, MODES[k], text, start)
        {
          RestSplits(mask, MODES[k], text, start, mid, pos, old(Of(MODES[k]).Contents()));
        }
      }
    }

    /**
      Each stream in the mask gains its own view of the text, and every other stream stays as it
      is. The scan ends, and all streams have a view or none has.
     */
    method MultiPutf(mask: set<Mode>, text: string) returns (ok: bool)
      requires Valid() && NUL !in text
      modifies write, read, move, max, write.data, read.data, move.data, max.data
      ensures Valid() && forall m :: ok <==> View(m, text, 0).Some?
      ensures ok ==> forall m ::
              Of(m).Contents() == old(Of(m).Contents())
              + if m in mask then View(m, text, 0).value else ""
    {
      hide Buffer.Valid; hide Buffer.Contents; hide View; hide Rest;
      var pos: nat := 0;
      ok := true;
      while pos < |text|
        invariant pos <= |text| && Valid()
        invariant forall m :: Of(m).data == old(Of(m).data) || (Of(m).data != null && fresh(Of(m).data))
        invariant forall m :: View(m, text, 0).Some? <==> View(m, text, pos).Some?
        invariant forall k :: 0 <= k < |MODES| && View(MODES[k], text, 0).Some? ==>
                    Of(MODES[k]).Contents() + Rest(mask, MODES[k], text, pos) == old(Of(MODES[k]).Contents())
                      + Rest(mask, MODES[k], text, 0)
      {
        assert Of(Write) == write && Of(Read) == read && Of(Move) == move && Of(Max) == max;
        pos, ok := PrintNext(mask, text, pos);
        if !ok { return; }
      }
      forall m ensures View(m, text, 0).Some? &&
        Of(m).Contents() == old(Of(m).Contents()) + if m in mask then View(m, text, 0).value else "" {
        var k := IsMode(m);
        RestIsEmpty(mask, m, text, Of(m).Contents(), old(Of(m).Contents()));
        assert MODES[k] == m;
      }
    }
  }

  lemma IsMode(m: Mode) returns (k: nat)
    ensures k < |MODES| && MODES[k] == m
  {
    k := match m case Write => 0 case Read => 1 case Move => 2 case Max => 3;
  }

  /** What text comes to when it is used as a format, if there is a result. */
  function Plain(s: string): string {
    match Printf(s, []) case None => "" case Some(t) => t
  }

  /** What one stream is still to gain, if the mask has it and the text has a view. */
  function Rest(mask: set<Mode>, m: Mode, s: string, k: nat): string
    requires k <= |s|
  {
    if m !in mask then "" else match View(m, s, k) case None => "" case Some(t) => t
  }

  lemma RestIsEmpty(mask: set<Mode>, m: Mode, text: string, contents: string, before: string)
    ensures View(m, text, |text|).Some? && contents + Rest(mask, m, text, |text|) == contents
    ensures View(m, text, 0).Some? ==>
              before + Rest(mask, m, text, 0) == before
              + if m in mask then View(m, text, 0).value else ""
  {
  }

  lemma NothingPrinted(s: string)
    requires s == ""
    ensures Printf(s, []) == Some("") && Plain(s) == ""
  {
  }

  lemma PieceIsClean(s: string, start: nat, pos: nat)
    requires start <= pos <= |s| && NUL !in s
    ensures NUL !in s[start..pos]
    ensures pos == start ==> Printf(s[start..pos], []) == Some("") && Plain(s[start..pos]) == ""
  {
    if pos == start { NothingPrinted(s[start..pos]); }
    hide Printf; hide Plain;
  }

  lemma PlainIsClean(s: string)
    requires NUL !in s
    ensures NUL !in Plain(s)
  {
    PrintfIsClean(s);
    hide Printf;
  }

  lemma TokenStands(s: string, k: nat)
    requires k < |s|
    ensures k <= NextToken(s, k) <= |s| && (NextToken(s, k) < |s| ==>
              TokenAt(s, NextToken(s, k)) && NextToken(s, k) + 1 < |s|)
  {
  }

  /** The view from a position on, piece by piece. */
  lemma ViewStep(m: Mode, s: string, k: nat)
    requires k < |s|
    ensures var mid := NextToken(s, k);
            View(m, s, k).Some? <==>
              Printf(s[k..mid], []).Some? && (mid < |s| ==> mid + 3 <= |s| && View(m, s, mid + 3).Some?)
    ensures View(m, s, |s|) == Some("")
  {
    hide Printf; hide NextToken; hide Replacement;
  }

  /** Up to the next token the text is plain, and then there is a token or nothing. */
  lemma RestSplits(mask: set<Mode>, m: Mode, s: string, k: nat, mid: nat, next: nat, before: string)
    requires k < |s| && View(m, s, k).Some? && mid == NextToken(s, k) && next == (if mid < |s| then mid + 3 else mid)
    ensures next <= |s|
    ensures var plain := if m in mask then Plain(s[k..mid]) else "";
            var token := if m in mask && mid < |s| then Replacement(m, s[mid + 1]) else "";
            before + plain + token + Rest(mask, m, s, next) == before + Rest(mask, m, s, k)
  {
    hide *;
    if mid == |s| {
      assert s[k..mid] == s[k..];
      LastPiece(mask, m, s, k, before);
    } else {
      NextPiece(mask, m, s, k, before);
    }
  }

  lemma LastPiece(mask: set<Mode>, m: Mode, s: string, k: nat, before: string)
    requires k < |s| && View(m, s, k).Some? && NextToken(s, k) == |s|
    ensures before + (if m in mask then Plain(s[k..]) else "") + "" + Rest(mask, m, s, |s|) == before
            + Rest(mask, m, s, k)
  {
    hide Printf; hide NextToken; hide Replacement;
    assert s[k..|s|] == s[k..];
  }

  lemma NextPiece(mask: set<Mode>, m: Mode, s: string, k: nat, before: string)
    requires k < |s| && View(m, s, k).Some? && NextToken(s, k) < |s|
    ensures NextToken(s, k) + 3 <= |s|
    ensures var mid := NextToken(s, k);
            before + (if m in mask then Plain(s[k..mid]) else "")
              + (if m in mask then Replacement(m, s[mid + 1]) else "")
            + Rest(mask, m, s, mid + 3) == before + Rest(mask, m, s, k)
  {
    hide *;
    var mid := NextToken(s, k);
    ViewParts(m, s, k);
    RestIs(mask, m, s, k);
    RestIs(mask, m, s, mid + 3);
    if m in mask {
      Appended(before, Plain(s[k..mid]), Replacement(m, s[mid + 1]), View(m, s, mid + 3).value);
    } else {
      Appended(before, "", "", "");
    }
  }

  lemma RestIs(mask: set<Mode>, m: Mode, s: string, k: nat)
    requires k <= |s| && View(m, s, k).Some?
    ensures Rest(mask, m, s, k) == if m in mask then View(m, s, k).value else ""
  {
    hide View;
  }

  lemma ViewParts(m: Mode, s: string, k: nat)
    requires k < |s| && View(m, s, k).Some? && NextToken(s, k) < |s|
    ensures NextToken(s, k) + 3 <= |s| && View(m, s, NextToken(s, k) + 3).Some?
    ensures var mid := NextToken(s, k);
            View(m, s, k).value == Plain(s[k..mid]) + Replacement(m, s[mid + 1]) + View(m, s, mid + 3).value
  {
    hide Printf; hide NextToken; hide Replacement;
  }

  lemma Appended(a: string, b: string, c: string, d: string)
    ensures a + b + c + d == a + (b + c + d)
  {
  }
}
