/**
 Machine words as sequences of bits, the highest-order bit first, and CRC division on them.

 Division of an unaugmented message is linear in register and message, which is what makes eight
 steps of it a shift and a table entry, in the direct and in the reflected form.
 */
module CrcWords {
  type Word = seq<bool>

  function Zero(n: nat): Word {
    seq(n, _ => false)
  }

  function Xor(a: Word, b: Word): (r: Word)
    requires |a| == |b|
    ensures |r| == |a|
  {
    seq(|a|, i requires 0 <= i < |a| => a[i] != b[i])
  }

  /** `<<= k` and `>>= k` in a register of |w| bits. */
  function Shl(w: Word, k: nat): (r: Word)
    requires k <= |w|
    ensures |r| == |w|
  {
    w[k..] + Zero(k)
  }

  function Shr(w: Word, k: nat): (r: Word)
    requires k <= |w|
    ensures |r| == |w|
  {
    Zero(k) + w[..|w| - k]
  }

  function Reflect(w: Word): (r: Word)
    ensures |r| == |w|
  {
    seq(|w|, i requires 0 <= i < |w| => w[|w| - 1 - i])
  }

  function ReflectIf(w: Word, reflect: bool): (r: Word)
    ensures |r| == |w|
  {
    if reflect then Reflect(w) else w
  }

  lemma ReflectTwice(w: Word)
    ensures Reflect(Reflect(w)) == w
  {
  }

  lemma ReflectXor(a: Word, b: Word)
    requires |a| == |b|
    ensures Reflect(Xor(a, b)) == Xor(Reflect(a), Reflect(b))
  {
  }

  /** Shifting a reflected word right is reflecting the word shifted left. */
  lemma ReflectShift(w: Word, k: nat)
    requires k <= |w|
    ensures Shr(Reflect(w), k) == Reflect(Shl(w, k))
    ensures Reflect(Reflect(w)[|w| - k..]) == w[..k]
  {
  }

  // ---------------------------------------------------------------- words as numbers

  function ToNat(w: Word): nat {
    if w == [] then 0 else 2 * ToNat(w[..|w| - 1]) + (if w[|w| - 1] then 1 else 0)
  }

  function FromNat(v: nat, n: nat): (w: Word)
    ensures |w| == n
  {
    if n == 0 then [] else FromNat(v / 2, n - 1) + [v % 2 == 1]
  }

  function Pow2(n: nat): nat {
    if n == 0 then 1 else 2 * Pow2(n - 1)
  }

  lemma {:induction false} WordRoundTrip(w: Word)
    ensures ToNat(w) < Pow2(|w|) && FromNat(ToNat(w), |w|) == w
  {
    if w != [] {
      WordRoundTrip(w[..|w| - 1]);
      assert ToNat(w) / 2 == ToNat(w[..|w| - 1]);
      assert w == w[..|w| - 1] + [w[|w| - 1]];
    }
  }

  lemma {:induction false} NatRoundTrip(v: nat, n: nat)
    requires v < Pow2(n)
    ensures ToNat(FromNat(v, n)) == v
    decreases n
  {
    if n > 0 {
      NatRoundTrip(v / 2, n - 1);
      assert FromNat(v, n)[..n - 1] == FromNat(v / 2, n - 1);
    }
  }

  // ---------------------------------------------------------------- bitwise division

  /** One step of modulo-2 division for an unaugmented message. */
  function Feed(rem: Word, bit: bool, poly: Word): (r: Word)
    requires |rem| == |poly| > 0
    ensures |r| == |rem|
  {
    var x := rem[0 := rem[0] != bit];
    if x[0] then Xor(Shl(x, 1), poly) else Shl(x, 1)
  }

  /** The bits of a message, first bit first. */
  function FeedBits(rem: Word, bits: Word, poly: Word): (r: Word)
    requires |rem| == |poly| > 0
    ensures |r| == |rem|
    decreases |bits|
  {
    if bits == [] then rem else FeedBits(Feed(rem, bits[0], poly), bits[1..], poly)
  }

  lemma {:induction false} FeedConcat(rem: Word, a: Word, b: Word, poly: Word)
    requires |rem| == |poly| > 0
    ensures FeedBits(rem, a + b, poly) == FeedBits(FeedBits(rem, a, poly), b, poly)
    decreases |a|
  {
    if a == [] {
      assert a + b == b;
    } else {
      assert (a + b)[1..] == a[1..] + b;
      FeedConcat(Feed(rem, a[0], poly), a[1..], b, poly);
    }
  }

  lemma FeedAppend(rem: Word, bits: Word, bit: bool, poly: Word)
    requires |rem| == |poly| > 0
    ensures FeedBits(rem, bits + [bit], poly) == Feed(FeedBits(rem, bits, poly), bit, poly)
  {
    FeedConcat(rem, bits, [bit], poly);
    var r := FeedBits(rem, bits, poly);
    assert [bit][1..] == [];
    assert FeedBits(Feed(r, bit, poly), [], poly) == Feed(r, bit, poly);
  }

  lemma FeedLinear(x: Word, y: Word, b: bool, d: bool, poly: Word)
    requires |x| == |y| == |poly| > 0
    ensures Feed(Xor(x, y), b != d, poly) == Xor(Feed(x, b, poly), Feed(y, d, poly))
  {
  }

  /** Division is linear in the register and the message together. */
  lemma {:induction false} FeedBitsLinear(x: Word, y: Word, b: Word, d: Word, poly: Word)
    requires |x| == |y| == |poly| > 0 && |b| == |d|
    ensures FeedBits(Xor(x, y), Xor(b, d), poly) == Xor(FeedBits(x, b, poly), FeedBits(y, d, poly))
    decreases |b|
  {
    if b != [] {
      FeedLinear(x, y, b[0], d[0], poly);
      assert Xor(b, d)[1..] == Xor(b[1..], d[1..]);
      FeedBitsLinear(Feed(x, b[0], poly), Feed(y, d[0], poly), b[1..], d[1..], poly);
    }
  }

  /** A message equal to the top of the register cancels it: nothing is divided, only shifted. */
  lemma {:induction false} FeedCancels(rem: Word, k: nat, poly: Word)
    requires |rem| == |poly| > 0 && k <= |rem|
    ensures FeedBits(rem, rem[..k], poly) == Shl(rem, k)
    decreases k
  {
    if k > 0 {
      var next := Feed(rem, rem[0], poly);
      assert next == Shl(rem, 1);
      assert rem[..k][1..] == next[..k - 1];
      FeedCancels(next, k - 1, poly);
      assert Shl(next, k - 1) == Shl(rem, k);
    }
  }

  lemma XorZero(a: Word)
    ensures Xor(a, Zero(|a|)) == a
  {
  }

  lemma XorTwice(a: Word, b: Word)
    requires |a| == |b|
    ensures Xor(a, Xor(a, b)) == b
  {
  }

  /** Division by what is left after the top of the register has been cancelled. */
  lemma Split(rem: Word, top: Word, index: Word, bits: Word, poly: Word)
    requires |rem| == |poly| > 0 && |bits| == |index| <= |rem|
    requires top == rem[..|bits|] && Xor(top, index) == bits
    ensures FeedBits(rem, bits, poly) == Xor(Shl(rem, |bits|), FeedBits(Zero(|rem|), index, poly))
  {
    XorZero(rem);
    FeedBitsLinear(rem, Zero(|rem|), top, index, poly);
    FeedCancels(rem, |bits|, poly);
  }

  /** The table-driven step: the register shifted, and the effect of what was pushed out. */
  lemma TableStep(rem: Word, bits: Word, poly: Word)
    requires |rem| == |poly| > 0 && |bits| <= |rem|
    ensures FeedBits(rem, bits, poly)
            == Xor(Shl(rem, |bits|), FeedBits(Zero(|rem|), Xor(rem[..|bits|], bits), poly))
  {
    var top := rem[..|bits|];
    XorTwice(top, bits);
    Split(rem, top, Xor(top, bits), bits, poly);
  }

  // ---------------------------------------------------------------- table-driven division

  /** What a byte does to the register by the time it has been pushed out. */
  function Product(b: Word, poly: Word, reflect: bool): (r: Word)
    requires |poly| > 0
    ensures |r| == |poly|
  {
    ReflectIf(FeedBits(Zero(|poly|), ReflectIf(b, reflect), poly), reflect)
  }

  /** One step of crc_update. */
  function DirectUpdate(rem: Word, byte: Word, poly: Word): (r: Word)
    requires |rem| == |poly| > 0 && |byte| <= |rem|
    ensures |r| == |rem|
  {
    Xor(Shl(rem, |byte|), Product(Xor(rem[..|byte|], byte), poly, false))
  }

  /** One step of crc_update on a reflected register. */
  function ReflectedUpdate(rem: Word, byte: Word, poly: Word): (r: Word)
    requires |rem| == |poly| > 0 && |byte| <= |rem|
    ensures |r| == |rem|
  {
    Xor(Shr(rem, |byte|), Product(Xor(rem[|rem| - |byte|..], byte), poly, true))
  }

  lemma DirectRefines(rem: Word, byte: Word, poly: Word)
    requires |rem| == |poly| > 0 && |byte| <= |rem|
    ensures DirectUpdate(rem, byte, poly) == FeedBits(rem, byte, poly)
  {
    TableStep(rem, byte, poly);
  }

  lemma ReflectedIndex(rem: Word, bits: Word)
    requires |bits| <= |rem|
    ensures Reflect(Xor(Reflect(rem)[|rem| - |bits|..], bits)) == Xor(rem[..|bits|], Reflect(bits))
  {
    ReflectShift(rem, |bits|);
    ReflectXor(Reflect(rem)[|rem| - |bits|..], bits);
  }

  lemma ReflectedRefines(rem: Word, byte: Word, poly: Word)
    requires |rem| == |poly| > 0 && |byte| <= |rem|
    ensures ReflectedUpdate(Reflect(rem), byte, poly) == Reflect(FeedBits(rem, Reflect(byte), poly))
  {
    ReflectedIndex(rem, byte);
    TableStep(rem, Reflect(byte), poly);
    ReflectShift(rem, |byte|);
    ReflectXor(Shl(rem, |byte|), FeedBits(Zero(|rem|), Xor(rem[..|byte|], Reflect(byte)), poly));
  }

  // ---------------------------------------------------------------- stepping through a word

  lemma HighBit(w: Word, k: nat)
    requires k < |w|
    ensures Shl(w, k)[0] == w[k] && Shl(Shl(w, k), 1) == Shl(w, k + 1)
  {
  }

  lemma LowBit(w: Word, k: nat)
    requires k < |w|
    ensures Shr(w, k)[|w| - 1] == Reflect(w)[k] && Shr(Shr(w, k), 1) == Shr(w, k + 1)
  {
  }

  lemma FeedNext(rem: Word, bits: Word, k: nat, poly: Word)
    requires |rem| == |poly| > 0 && k < |bits|
    ensures FeedBits(rem, bits[..k + 1], poly) == Feed(FeedBits(rem, bits[..k], poly), bits[k], poly)
  {
    assert bits[..k + 1] == bits[..k] + [bits[k]];
    FeedAppend(rem, bits[..k], bits[k], poly);
  }

  /** Turn `k` of a loop that shifts a word up and feeds its highest bit. */
  lemma HighBitNext(rem: Word, w: Word, start: nat, message: Word, k: nat, poly: Word)
    requires |rem| == |poly| > 0 && start + k < |w| && message == w[start..]
    ensures Feed(FeedBits(rem, message[..k], poly), Shl(w, start + k)[0], poly) == FeedBits(rem, message[..k + 1], poly)
    ensures Shl(Shl(w, start + k), 1) == Shl(w, start + k + 1)
  {
    HighBit(w, start + k);
    FeedNext(rem, message, k, poly);
  }

  /** Turn `k` of a loop that shifts a word down and feeds its lowest bit. */
  lemma LowBitNext(rem: Word, w: Word, message: Word, k: nat, poly: Word)
    requires |rem| == |poly| > 0 && k < |w| && message == Reflect(w)
    ensures Feed(FeedBits(rem, message[..k], poly), Shr(w, k)[|w| - 1], poly) == FeedBits(rem, message[..k + 1], poly)
    ensures Shr(Shr(w, k), 1) == Shr(w, k + 1)
  {
    LowBit(w, k);
    FeedNext(rem, message, k, poly);
  }

  lemma ShiftNone(w: Word)
    ensures Shr(w, 0) == w && Shl(w, 0) == w
  {
  }
}
