/** The integer printers of logger/logstream.cpp, which fill a character buffer from its low end. */
module Digits {
  const DIGITS: string := "9876543210123456789"
  const DIGITS_HEX: string := "0123456789ABCDEF"
  const NUL: char := '\0'

  /** The two radices of the source. */
  datatype Radix = Ten | Sixteen

  function Abs(x: int): nat {
    if x < 0 then -x else x
  }

  function Scaled(n: nat, r: Radix): nat {
    if r.Ten? then 10 * n else 16 * n
  }

  function Div(n: nat, r: Radix): nat {
    if r.Ten? then n / 10 else n / 16
  }

  function Mod(n: nat, r: Radix): (d: nat)
    ensures d < 16 && (r.Ten? ==> d < 10)
  {
    if r.Ten? then n % 10 else n % 16
  }

  /** Division and remainder of C++: the quotient truncates, the remainder has the dividend's sign. */
  function TruncDiv(x: int, r: Radix): int {
    if x < 0 then 0 - Div(-x, r) else Div(x, r)
  }

  function TruncMod(x: int, r: Radix): int {
    if x < 0 then 0 - Mod(-x, r) else Mod(x, r)
  }

  // ---------------------------------------------------------------- what is to be printed

  /** The usual positional notation, most significant digit first. */
  function Number(n: nat, r: Radix): string {
    if Div(n, r) == 0 then [DIGITS_HEX[Mod(n, r)]] else Number(Div(n, r), r) + [DIGITS_HEX[Mod(n, r)]]
  }

  function Text(v: int): string {
    if v < 0 then "-" + Number(-v, Ten) else Number(v, Ten)
  }

  function DigitValue(c: char): nat {
    if '0' <= c <= '9' then (c - '0') as nat else if 'A' <= c <= 'F' then (c - 'A') as nat + 10 else 0
  }

  function Value(s: string, r: Radix): nat {
    if s == [] then 0 else Scaled(Value(s[..|s| - 1], r), r) + DigitValue(s[|s| - 1])
  }

  function ParseText(s: string): int {
    if s != [] && s[0] == '-' then 0 - Value(s[1..], Ten) else Value(s, Ten)
  }

  lemma DigitRoundTrip(d: nat)
    requires d < 16
    ensures DigitValue(DIGITS_HEX[d]) == d && DIGITS_HEX[d] != '-'
  {
  }

  lemma {:induction false} NumberRoundTrip(n: nat, r: Radix)
    ensures Number(n, r) != [] && Number(n, r)[0] != '-'
    ensures Value(Number(n, r), r) == n
  {
    var s := Number(n, r);
    DigitRoundTrip(Mod(n, r));
    if Div(n, r) == 0 {
      assert s[..|s| - 1] == [];
    } else {
      NumberRoundTrip(Div(n, r), r);
      assert s[..|s| - 1] == Number(Div(n, r), r);
    }
  }

  /** What is printed reads back as the value, for every integer. */
  lemma TextRoundTrip(v: int)
    ensures ParseText(Text(v)) == v
  {
    NumberRoundTrip(Abs(v), Ten);
    if v < 0 {
      assert Text(v)[1..] == Number(-v, Ten);
    }
  }

  function Power(r: Radix, k: nat): nat {
    if k == 0 then 1 else Scaled(Power(r, k - 1), r)
  }

  lemma {:induction false} NumberLength(n: nat, r: Radix, k: nat)
    requires k > 0 && n < Power(r, k)
    ensures 1 <= |Number(n, r)| <= k
    decreases k
  {
    if Div(n, r) != 0 {
      assert Power(r, 0) == 1;
      NumberLength(Div(n, r), r, k - 1);
    }
  }

  /** Every signed or unsigned 64-bit integer prints in at most 20 characters. */
  lemma TextFits(v: int)
    requires -0x8000_0000_0000_0000 <= v < 0x1_0000_0000_0000_0000
    ensures 1 <= |Text(v)| <= 20
  {
    assert Power(Ten, 4) == 1_0000;
    assert Power(Ten, 8) == 1_0000_0000;
    assert Power(Ten, 12) == 1_0000_0000_0000;
    assert Power(Ten, 16) == 1_0000_0000_0000_0000;
    assert Power(Ten, 19) == 1000_0000_0000_0000_0000;
    if v < 0 {
      NumberLength(-v, Ten, 19);
    } else {
      NumberLength(v, Ten, 20);
    }
  }

  /** A 64-bit address prints in at most 16. */
  lemma HexFits(v: nat)
    requires v < 0x1_0000_0000_0000_0000
    ensures 1 <= |Number(v, Sixteen)| <= 16
  {
    assert Power(Sixteen, 4) == 0x1_0000;
    assert Power(Sixteen, 8) == 0x1_0000_0000;
    assert Power(Sixteen, 12) == 0x1_0000_0000_0000;
    NumberLength(v, Sixteen, 16);
  }

  // ---------------------------------------------------------------- printing in place

  function Reversed(s: string): string {
    seq(|s|, i requires 0 <= i < |s| => s[|s| - 1 - i])
  }

  lemma ReversedAppend(s: string, c: char)
    ensures Reversed(s + [c]) == [c] + Reversed(s)
  {
  }

  lemma TurnedRound(pre: string, mid: string, post: string, now: string)
    requires |now| == |pre| + |mid| + |post|
    requires forall k :: 0 <= k < |pre| ==> now[k] == pre[k]
    requires forall k :: |pre| <= k < |pre| + |mid| ==> now[k] == mid[|pre| + |mid| - 1 - k]
    requires forall k :: |pre| + |mid| <= k < |now| ==> now[k] == post[k - |pre| - |mid|]
    ensures now == pre + Reversed(mid) + post
  {
  }

  /** std::reverse on [lo, hi). */
  method Reverse(buf: array<char>, lo: nat, hi: nat, ghost pre: string, ghost mid: string, ghost post: string)
    requires buf[..] == pre + mid + post && lo == |pre| && hi == lo + |mid|
    modifies buf
    ensures buf[..] == pre + Reversed(mid) + post
  {
    ghost var was := buf[..];
    var a, b := lo, hi;
    while b - a > 1
      invariant lo <= a <= b + 1 && b <= hi && a - lo == hi - b
      invariant forall k :: 0 <= k < lo || hi <= k < buf.Length || a <= k < b ==> buf[k] == was[k]
      invariant forall k :: lo <= k < a || b <= k < hi ==> buf[k] == was[lo + hi - 1 - k]
    {
      b := b - 1;
      buf[a], buf[b] := buf[b], buf[a];
      a := a + 1;
    }
    TurnedRound(pre, mid, post, buf[..]);
  }

  /** What is still to be printed, given whether the loop goes on. */
  function Rest(more: bool, n: nat, r: Radix): string {
    if more then Number(n, r) else []
  }

  lemma OneDigit(n: nat, r: Radix, written: string, whole: string)
    requires whole == Number(n, r) + Reversed(written)
    ensures whole == Rest(Div(n, r) != 0, Div(n, r), r) + Reversed(written + [DIGITS_HEX[Mod(n, r)]])
  {
    var d := DIGITS_HEX[Mod(n, r)];
    ReversedAppend(written, d);
    assert Number(n, r) == Rest(Div(n, r) != 0, Div(n, r), r) + [d];
    assert Rest(Div(n, r) != 0, Div(n, r), r) + [d] + Reversed(written)
        == Rest(Div(n, r) != 0, Div(n, r), r) + ([d] + Reversed(written));
  }

  lemma TruncFacts(i: int)
    ensures -10 < TruncMod(i, Ten) < 10
    ensures Abs(TruncMod(i, Ten)) == Mod(Abs(i), Ten) && Abs(TruncDiv(i, Ten)) == Div(Abs(i), Ten)
    ensures i == 10 * TruncDiv(i, Ten) + TruncMod(i, Ten)
  {
  }

  /** The table is centred on 0, so it turns a remainder of either sign into its digit. */
  lemma TableDigit(d: int)
    requires -10 < d < 10
    ensures DIGITS[9 + d] == DIGITS_HEX[Abs(d)]
  {
  }

  /** Overwrites the first character behind the written ones. */
  method Put(buf: array<char>, p: nat, c: char, ghost pre: string, ghost written: string, ghost left: string)
    requires left != [] && buf[..] == pre + written + left && p == |pre| + |written|
    modifies buf
    ensures buf[..] == pre + (written + [c]) + left[1..]
  {
    buf[p] := c;
  }

  /** Writes the terminator and reverses what is in front of it. */
  method Terminate(buf: array<char>, at: nat, p: nat, ghost pre: string, ghost written: string, ghost left: string)
    requires left != [] && buf[..] == pre + written + left && at == |pre| && p == at + |written|
    modifies buf
    ensures buf[..] == pre + Reversed(written) + [NUL] + left[1..]
  {
    Put(buf, p, NUL, pre, written, left);
    assert pre + (written + [NUL]) + left[1..] == pre + written + ([NUL] + left[1..]);
    Reverse(buf, at, p, pre, written, [NUL] + left[1..]);
    assert pre + Reversed(written) + ([NUL] + left[1..]) == pre + Reversed(written) + [NUL] + left[1..];
  }

  /** The sign, the terminator, and the reversal. */
  method Finish(buf: array<char>, at: nat, end: nat, value: int, ghost pre: string, ghost written: string, ghost tail: string)
    returns (p: nat)
    requires |written| <= |tail| && buf[..] == pre + written + tail[|written|..] && at == |pre| && end == at + |written|
    requires |Text(value)| < |tail| && Number(Abs(value), Ten) == Reversed(written)
    modifies buf
    ensures p == at + |Text(value)|
    ensures buf[..] == pre + Text(value) + [NUL] + tail[|Text(value)| + 1..]
  {
    p := end;
    assert |Reversed(written)| == |written|;
    if value < 0 {
      ReversedAppend(written, '-');
      assert tail[|written|..][1..] == tail[|written| + 1..];
      Put(buf, p, '-', pre, written, tail[|written|..]);
      p := p + 1;
      assert tail[|written| + 1..][1..] == tail[|written| + 2..];
      Terminate(buf, at, p, pre, written + ['-'], tail[|written| + 1..]);
    } else {
      assert tail[|written|..][1..] == tail[|written| + 1..];
      Terminate(buf, at, p, pre, written, tail[|written|..]);
    }
  }

  /** The digits of a value of either sign, least significant first. */
  method PutDigits(buf: array<char>, at: nat, value: int, ghost pre: string, ghost tail: string)
    returns (p: nat, ghost written: string)
    requires buf[..] == pre + tail && at == |pre| && |Number(Abs(value), Ten)| <= |tail|
    modifies buf
    ensures p == at + |written| && |written| <= |tail| && Reversed(written) == Number(Abs(value), Ten)
    ensures buf[..] == pre + written + tail[|written|..]
  {
    ghost var whole := Number(Abs(value), Ten);
    ghost var left := tail;
    written := [];
    assert Reversed([]) == [] && whole + [] == whole && pre + [] + tail == pre + tail;
    var i := value;
    p := at;
    var more := true;
    while more
      invariant p == at + |written| && |written| + |Rest(more, Abs(i), Ten)| == |whole|
      invariant buf[..] == pre + written + left && |written| + |left| == |tail| && left == tail[|written|..]
      invariant whole == Rest(more, Abs(i), Ten) + Reversed(written)
      decreases if more then 1 + Abs(i) else 0
    {
      TruncFacts(i);
      OneDigit(Abs(i), Ten, written, whole);
      var lsd := TruncMod(i, Ten);
      i := TruncDiv(i, Ten);
      TableDigit(lsd);
      Put(buf, p, DIGITS[9 + lsd], pre, written, left);
      written, left := written + [DIGITS[9 + lsd]], left[1..];
      p := p + 1;
      more := i != 0;
    }
  }

  /** Writes the digits, a sign and a terminator, and turns them round. */
  method Convert(buf: array<char>, at: nat, value: int) returns (len: nat)
    requires -0x8000_0000_0000_0000 <= value < 0x1_0000_0000_0000_0000
    requires at + 21 <= buf.Length
    modifies buf
    ensures len == |Text(value)| && 1 <= len <= 20
    ensures buf[..] == old(buf[..at]) + Text(value) + [NUL] + old(buf[at + len + 1..])
  {
    TextFits(value);
    ghost var pre, tail := buf[..at], buf[at..];
    assert buf[..] == pre + tail;
    var p; ghost var written;
    p, written := PutDigits(buf, at, value, pre, tail);
    p := Finish(buf, at, p, value, pre, written, tail);
    len := p - at;
    assert tail[len + 1..] == old(buf[at + len + 1..]);
  }

  method PutHexDigits(buf: array<char>, at: nat, value: nat, ghost pre: string, ghost tail: string)
    returns (p: nat, ghost written: string)
    requires buf[..] == pre + tail && at == |pre| && |Number(value, Sixteen)| <= |tail|
    modifies buf
    ensures p == at + |written| && |written| <= |tail| && Reversed(written) == Number(value, Sixteen)
    ensures buf[..] == pre + written + tail[|written|..]
  {
    ghost var whole := Number(value, Sixteen);
    ghost var left := tail;
    written := [];
    assert Reversed([]) == [] && whole + [] == whole && pre + [] + tail == pre + tail;
    var i := value;
    p := at;
    var more := true;
    while more
      invariant p == at + |written| && |written| + |Rest(more, i, Sixteen)| == |whole|
      invariant buf[..] == pre + written + left && |written| + |left| == |tail| && left == tail[|written|..]
      invariant whole == Rest(more, i, Sixteen) + Reversed(written)
      decreases if more then 1 + i else 0
    {
      var lsd := i % 16;
      OneDigit(i, Sixteen, written, whole);
      i := i / 16;
      Put(buf, p, DIGITS_HEX[lsd], pre, written, left);
      written, left := written + [DIGITS_HEX[lsd]], left[1..];
      p := p + 1;
      more := i != 0;
    }
  }

  method ConvertHex(buf: array<char>, at: nat, value: nat) returns (len: nat)
    requires value < 0x1_0000_0000_0000_0000
    requires at + 17 <= buf.Length
    modifies buf
    ensures len == |Number(value, Sixteen)| && 1 <= len <= 16
    ensures buf[..] == old(buf[..at]) + Number(value, Sixteen) + [NUL] + old(buf[at + len + 1..])
  {
    HexFits(value);
    ghost var pre, tail := buf[..at], buf[at..];
    assert buf[..] == pre + tail;
    var p; ghost var written;
    p, written := PutHexDigits(buf, at, value, pre, tail);
    assert |Reversed(written)| == |written|;
    Terminate(buf, at, p, pre, written, tail[|written|..]);
    len := p - at;
  }

  /** Numbers as they are written. */
  lemma Written()
    ensures Text(-120) == "-120" && Text(0) == "0" && Text(7) == "7"
    ensures Number(0x1AF, Sixteen) == "1AF" && Number(10, Sixteen) == "A"
  {
    assert Number(1, Ten) == "1" && Number(12, Ten) == "12" && Number(120, Ten) == "120";
    assert Number(1, Sixteen) == "1" && Number(0x1A, Sixteen) == "1A";
  }

  /** Only zero begins with the digit zero. */
  lemma {:induction false} NoLeadingZero(n: nat, r: Radix)
    ensures Number(n, r) != [] && (Number(n, r)[0] == '0' <==> n == 0)
    decreases n
  {
    if Div(n, r) != 0 { NoLeadingZero(Div(n, r), r); }
  }
}
