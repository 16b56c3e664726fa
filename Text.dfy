/** The text primitives of the record payloads: the C library's decimal conversion
    (atoi, atoll) and the scan for a delimiter byte. */
module Text {
  import opened Bytes

  const BAR: byte := 124    // '|', ends a field
  const COMMA: byte := 44   // ',', ends a record
  const MINUS: byte := 45   // '-'
  const PLUS: byte := 43    // '+'
  const ZERO: byte := 48    // '0'

  predicate IsDigit(b: byte) {
    ZERO <= b <= ZERO + 9
  }

  /** The bytes C's isspace accepts (space, \t, \n, \v, \f, \r). */
  predicate IsSpace(b: byte) {
    b == 32 || 9 <= b <= 13
  }

  /** A byte that ends every phase of atoi: neither blank, sign nor digit. */
  predicate IsStop(b: byte) {
    !IsSpace(b) && b != MINUS && b != PLUS && !IsDigit(b)
  }

  /** The number of leading blanks of `s`. */
  function SpaceRun(s: seq<byte>): (n: nat)
    ensures n <= |s|
  {
    if s != [] && IsSpace(s[0]) then 1 + SpaceRun(s[1..]) else 0
  }

  /** The number of leading digits of `s`. */
  function DigitRun(s: seq<byte>): (n: nat)
    ensures n <= |s|
  {
    if s != [] && IsDigit(s[0]) then 1 + DigitRun(s[1..]) else 0
  }

  /** SpaceRun counts exactly the blanks before the first other byte. */
  lemma {:induction false} SpaceRunSpec(s: seq<byte>)
    ensures forall k :: 0 <= k < SpaceRun(s) ==> IsSpace(s[k])
    ensures SpaceRun(s) < |s| ==> !IsSpace(s[SpaceRun(s)])
  {
    if s != [] && IsSpace(s[0]) {
      SpaceRunSpec(s[1..]);
    }
  }

  /** DigitRun counts exactly the digits before the first other byte. */
  lemma {:induction false} DigitRunSpec(s: seq<byte>)
    ensures forall k :: 0 <= k < DigitRun(s) ==> IsDigit(s[k])
    ensures DigitRun(s) < |s| ==> !IsDigit(s[DigitRun(s)])
  {
    if s != [] && IsDigit(s[0]) {
      DigitRunSpec(s[1..]);
    }
  }

  /** The value of a run of decimal digits, most significant first. */
  function DigitsValue(ds: seq<byte>): int
  {
    if ds == [] then 0 else DigitsValue(ds[..|ds| - 1]) * 10 + (ds[|ds| - 1] - ZERO)
  }

  /** What atoi and atoll return for the text starting at `s`: leading blanks are
      skipped, one optional sign is taken, then the digits up to the first non-digit.
      No digits gives 0. (Overflow, undefined in C, is not modelled.) */
  function Atoi(s: seq<byte>): int
  {
    var t := s[SpaceRun(s)..];
    var signed := |t| > 0 && (t[0] == MINUS || t[0] == PLUS);
    var u := if signed then t[1..] else t;
    var magnitude := DigitsValue(u[..DigitRun(u)]);
    if signed && t[0] == MINUS then -magnitude else magnitude
  }

  /** The decimal text of `n`, without leading zeros. */
  function NatText(n: nat): (s: seq<byte>)
    ensures |s| > 0
    ensures forall k :: 0 <= k < |s| ==> IsDigit(s[k])
  {
    if n < 10 then [ZERO + n] else NatText(n / 10) + [ZERO + n % 10]
  }

  /** The decimal text of `v`, with a '-' when negative. */
  function IntText(v: int): (s: seq<byte>)
    ensures |s| > 0 && s[0] != PLUS && !IsSpace(s[0])
    ensures forall k :: 0 <= k < |s| ==> IsDigit(s[k]) || (k == 0 && s[k] == MINUS)
  {
    if v < 0 then [MINUS] + NatText(-v) else NatText(v)
  }

  lemma {:induction false} DigitsValueNatText(n: nat)
    ensures DigitsValue(NatText(n)) == n
  {
    if n >= 10 {
      var s := NatText(n);
      assert s[..|s| - 1] == NatText(n / 10);
      DigitsValueNatText(n / 10);
    }
  }

  lemma {:induction false} DigitRunAll(s: seq<byte>)
    requires forall k :: 0 <= k < |s| ==> IsDigit(s[k])
    ensures DigitRun(s) == |s|
  {
    if s != [] {
      DigitRunAll(s[1..]);
    }
  }

  /** Round trip: atoi reads back the decimal text of every integer. */
  lemma AtoiIntText(v: int)
    ensures Atoi(IntText(v)) == v
  {
    var s := IntText(v);
    assert SpaceRun(s) == 0;
    assert s[0..] == s;
    var m: nat := if v < 0 then -v else v;
    if v < 0 {
      assert s[1..] == NatText(m);
    }
    DigitRunAll(NatText(m));
    assert NatText(m)[..|NatText(m)|] == NatText(m);
    DigitsValueNatText(m);
  }

  /** A digit run is not changed by appending text that starts with a non-digit. */
  lemma {:induction false} DigitRunStops(t: seq<byte>, w: seq<byte>)
    requires w != [] && !IsDigit(w[0])
    ensures DigitRun(t + w) == DigitRun(t)
  {
    if t == [] {
      assert t + w == w;
    } else {
      assert (t + w)[1..] == t[1..] + w;
      DigitRunStops(t[1..], w);
    }
  }

  /** Likewise for a run of blanks. */
  lemma {:induction false} SpaceRunStops(t: seq<byte>, w: seq<byte>)
    requires w != [] && !IsSpace(w[0])
    ensures SpaceRun(t + w) == SpaceRun(t)
  {
    if t == [] {
      assert t + w == w;
    } else {
      assert (t + w)[1..] == t[1..] + w;
      SpaceRunStops(t[1..], w);
    }
  }

  /** atoi on the file buffer, which runs on past a delimiter, reads the same number
      as atoi on the field alone: the delimiter stops every phase of the conversion. */
  lemma AtoiStopsAtDelimiter(t: seq<byte>, w: seq<byte>)
    requires w != [] && IsStop(w[0])
    ensures Atoi(t + w) == Atoi(t)
  {
    SpaceRunStops(t, w);
    var n := SpaceRun(t);
    var tt := t[n..];
    assert (t + w)[n..] == tt + w;
    if |tt| > 0 && (tt[0] == MINUS || tt[0] == PLUS) {
      assert (tt + w)[1..] == tt[1..] + w;
      DigitRunStops(tt[1..], w);
      PrefixOfConcat(tt[1..], w, DigitRun(tt[1..]));
    } else {
      assert |tt| == 0 ==> (tt + w)[0] == w[0];
      DigitRunStops(tt, w);
      PrefixOfConcat(tt, w, DigitRun(tt));
    }
  }

  lemma PrefixOfConcat(t: seq<byte>, w: seq<byte>, k: nat)
    requires k <= |t|
    ensures (t + w)[..k] == t[..k]
  {
  }

  /** The position of the first `d` in `t`, or `|t|` when there is none. */
  function FindIn(t: seq<byte>, d: byte): (k: nat)
    ensures k <= |t|
    ensures k < |t| ==> t[k] == d
  {
    if t == [] then 0 else if t[0] == d then 0 else 1 + FindIn(t[1..], d)
  }

  /** FindIn stops at the first `d`: none stands before the position it returns. */
  lemma {:induction false} FindInFirst(t: seq<byte>, d: byte)
    ensures forall j :: 0 <= j < FindIn(t, d) ==> t[j] != d
  {
    if t != [] && t[0] != d {
      FindInFirst(t[1..], d);
    }
  }

  /** A text without `d` followed by `d`: the first `d` is the one after the text. */
  lemma {:induction false} FindInAfter(w: seq<byte>, d: byte, u: seq<byte>)
    requires forall k :: 0 <= k < |w| ==> w[k] != d
    ensures FindIn(w + [d] + u, d) == |w|
  {
    if w != [] {
      assert (w + [d] + u)[1..] == w[1..] + [d] + u;
      FindInAfter(w[1..], d, u);
    }
  }

  /** The source's `while (*i != d) i++`, stopped at `end` instead of running past it:
      the first `d` of `a[from..end]`, as a position in `a`. */
  method ScanFor(a: array<byte>, from: nat, end: nat, d: byte) returns (k: nat)
    requires from <= end <= a.Length
    ensures from <= k <= end
    ensures k - from == FindIn(a[from..end], d)
  {
    k := from;
    while k < end && a[k] != d
      invariant from <= k <= end
      invariant FindIn(a[from..end], d) == (k - from) + FindIn(a[k..end], d)
    {
      assert a[k..end][1..] == a[k + 1..end];
      k := k + 1;
    }
  }
}
