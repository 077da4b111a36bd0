/**
  The byte level of a CDR stream: little-endian numbers, and the cursor of a stream
  with the alignment it remembers.
 */
module Wire {

  type byte = b: nat | b < 256

  /** The sizes a C++ arithmetic or enum type has on the stream. */
  type Width = w: nat | w == 1 || w == 2 || w == 4 || w == 8 witness 1

  /** The largest alignment a stream honours: 8, or 4 for the second XCDR version. */
  type MaxAlign = a: nat | a == 4 || a == 8 witness 8

  /** How many values fit in a number of bytes. */
  function Range(bytes: nat): (r: nat)
    ensures r > 0
  {
    if bytes == 0 then 1 else 256 * Range(bytes - 1)
  }

  function Bytes(n: nat, k: nat): (s: seq<byte>)
    ensures |s| == k
  {
    if k == 0 then [] else [n % 256] + Bytes(n / 256, k - 1)
  }

  function Number(s: seq<byte>): nat {
    if s == [] then 0 else s[0] + 256 * Number(s[1..])
  }

  /** A number that fits its width is read back from the bytes it was written as. */
  lemma {:induction false} NumberOfBytes(n: nat, k: nat)
    requires n < Range(k)
    ensures Number(Bytes(n, k)) == n
  {
    if k > 0 {
      NumberOfBytes(n / 256, k - 1);
      assert Bytes(n, k)[1..] == Bytes(n / 256, k - 1);
    }
  }

  /** The numbers that fit in the sizes a stream has. */
  lemma Ranges()
    ensures Range(0) == 1
    ensures Range(1) == 0x100 && Range(2) == 0x1_0000
    ensures Range(4) == 0x1_0000_0000 && Range(8) == 0x1_0000_0000_0000_0000
  {
    assert Range(3) == 256 * Range(2);
    assert Range(5) == 256 * Range(4);
    assert Range(6) == 256 * Range(5);
    assert Range(7) == 256 * Range(6);
  }

  lemma DivideTwice(n: nat, b: nat)
    requires b > 0
    ensures n / 256 / b == n / (256 * b)
  {
    var q, rest := n / 256 / b, n / 256 % b;
    assert n / 256 == b * q + rest;
    assert 256 * (b * q) == 256 * b * q;
    UniqueQuotient(n, 256 * b, q, 256 * rest + n % 256);
  }

  lemma UniqueQuotient(n: nat, m: nat, q: nat, r: nat)
    requires m > 0 && r < m && n == m * q + r
    ensures n / m == q
  {
    var d := n / m - q;
    assert m * (n / m) == m * q + m * d;
    assert 0 - m < m * d && m * d < m;
    assert d > 0 ==> m * d >= m;
    assert d < 0 ==> m * d <= 0 - m;
  }

  /** The byte at each place is the digit of the number there, the lowest first. */
  lemma {:induction false} ByteAt(n: nat, k: nat, i: nat)
    requires i < k
    ensures Bytes(n, k)[i] == n / Range(i) % 256
  {
    if i == 0 {
      assert n / 1 == n;
    } else {
      ByteAt(n / 256, k - 1, i - 1);
      DivideTwice(n, Range(i - 1));
    }
  }

  function Zeros(n: nat): (s: seq<byte>)
    ensures |s| == n
    ensures forall i :: 0 <= i < n ==> s[i] == 0
  {
    seq(n, _ => 0 as byte)
  }

  // ----- positions -----

  function Min(a: nat, b: nat): nat { if a < b then a else b }

  /** The remainder of `p` by an alignment, with each of the four moduli spelled out. */
  function Rem(p: nat, a: Width): (r: nat)
    ensures r < a
  {
    if a == 1 then 0 else if a == 2 then p % 2 else if a == 4 then p % 4 else p % 8
  }

  lemma RemIsRemainder(p: nat, a: Width)
    ensures Rem(p, a) == p % a
  {
    if a == 1 { assert p % 1 == 0; }
  }

  function Alignment(w: Width, maxAlign: MaxAlign): Width { Min(w, maxAlign) }

  /** The padding a value of width `w` needs at position `p`. */
  function Padding(p: nat, w: Width, maxAlign: MaxAlign): nat {
    var r := Rem(p, Alignment(w, maxAlign));
    if r == 0 then 0 else Alignment(w, maxAlign) - r
  }

  /** Padding leads to the next multiple of the alignment: there is none in between. */
  lemma PaddingRoundsUp(p: nat, w: Width, maxAlign: MaxAlign)
    ensures Rem(p + Padding(p, w, maxAlign), Alignment(w, maxAlign)) == 0
    ensures Padding(p, w, maxAlign) < Alignment(w, maxAlign)
  {
    var a := Alignment(w, maxAlign);
    if a == 2 { assert p == 2 * (p / 2) + p % 2; }
    else if a == 4 { assert p == 4 * (p / 4) + p % 4; }
    else if a == 8 { assert p == 8 * (p / 8) + p % 8; }
  }

  lemma Monotone2(p: nat, q: nat)
    requires p <= q
    ensures (if p % 2 == 0 then p else p + 2 - p % 2) <= (if q % 2 == 0 then q else q + 2 - q % 2)
  {
    assert p / 2 <= q / 2;
  }

  lemma Monotone4(p: nat, q: nat)
    requires p <= q
    ensures (if p % 4 == 0 then p else p + 4 - p % 4) <= (if q % 4 == 0 then q else q + 4 - q % 4)
  {
    assert p / 4 <= q / 4;
  }

  lemma Monotone8(p: nat, q: nat)
    requires p <= q
    ensures (if p % 8 == 0 then p else p + 8 - p % 8) <= (if q % 8 == 0 then q else q + 8 - q % 8)
  {
    assert p / 8 <= q / 8;
  }

  /** A later start never ends earlier. */
  lemma PaddingMonotone(p: nat, q: nat, w: Width, maxAlign: MaxAlign)
    requires p <= q
    ensures p + Padding(p, w, maxAlign) <= q + Padding(q, w, maxAlign)
  {
    var a := Alignment(w, maxAlign);
    if a == 2 { Monotone2(p, q); } else if a == 4 { Monotone4(p, q); } else if a == 8 { Monotone8(p, q); }
  }

  /**
    The alignment step as the stream performs it: nothing happens when the stream already
    stands at the alignment asked for, and otherwise the position is rounded up.
   */
  function AlignStep(pos: nat, al: nat, w: Width, maxAlign: MaxAlign): (r: (nat, nat)) {
    if w == al then (pos, al)
    else
      var a := Alignment(w, maxAlign);
      (pos + Rem(a - Rem(pos, a), a), a)
  }

  /** The remembered alignment divides the position (0 means that nothing is remembered). */
  predicate Aligned(pos: nat, al: nat, maxAlign: MaxAlign) {
    al <= maxAlign && (al == 0 || ((al == 1 || al == 2 || al == 4 || al == 8) && Rem(pos, al) == 0))
  }

  /**
    Skipping the arithmetic when the remembered alignment matches is sound: on every aligned
    cursor the step ends where rounding up ends, whatever alignment is remembered.
   */
  lemma AlignStepRoundsUp(pos: nat, al: nat, w: Width, maxAlign: MaxAlign)
    requires Aligned(pos, al, maxAlign)
    ensures AlignStep(pos, al, w, maxAlign) == (pos + Padding(pos, w, maxAlign), Alignment(w, maxAlign))
    ensures Aligned(pos + Padding(pos, w, maxAlign), Alignment(w, maxAlign), maxAlign)
  {
    PaddingRoundsUp(pos, w, maxAlign);
    var a := Alignment(w, maxAlign);
    var r := Rem(pos, a);
    if r == 0 { assert Rem(a, a) == 0; } else { assert Rem(a - r, a) == a - r; }
  }

  /** Appending whole values keeps the cursor aligned, so that no padding separates them. */
  lemma AlignedAdvance(pos: nat, w: Width, count: nat, maxAlign: MaxAlign)
    requires Rem(pos, Alignment(w, maxAlign)) == 0
    ensures Rem(pos + w * count, Alignment(w, maxAlign)) == 0
    ensures Padding(pos + w * count, w, maxAlign) == 0
  {
    var a := Alignment(w, maxAlign);
    assert w == a || (w == 8 && a == 4);
    if w == 1 {
    } else if w == 2 { assert w * count == 2 * count; assert pos + 2 * count == 2 * (pos / 2 + count) + pos % 2;
    } else if w == 4 { assert w * count == 4 * count; assert pos + 4 * count == 4 * (pos / 4 + count) + pos % 4;
    } else if a == 4 { assert w * count == 8 * count; assert pos + 8 * count == 4 * (pos / 4 + 2 * count) + pos % 4;
    } else { assert w * count == 8 * count; assert pos + 8 * count == 8 * (pos / 8 + count) + pos % 8; }
  }
}
