/** boost/crc.hpp: the bitwise and the table-driven CRC, for registers as wide as the polynomial and at least a byte. */
module Crc {
  import opened CrcWords

  /** The parameters of a CRC; the register width is the length of the polynomial. */
  datatype Formula = Formula(poly: Word, initial: Word, finalXor: Word, reflectIn: bool, reflectRem: bool)

  predicate WellFormed(f: Formula) {
    |f.poly| == |f.initial| == |f.finalXor| >= 8
  }

  predicate Bytes(bytes: seq<Word>) {
    forall i :: 0 <= i < |bytes| ==> |bytes[i]| == 8
  }

  // ---------------------------------------------------------------- reference

  /** The register after a string of bytes, one division step per bit. */
  function Remainder(f: Formula, rem: Word, bytes: seq<Word>): (r: Word)
    requires WellFormed(f) && |rem| == |f.poly| && Bytes(bytes)
    ensures |r| == |rem|
    decreases |bytes|
  {
    if bytes == [] then rem
    else Remainder(f, FeedBits(rem, ReflectIf(bytes[0], f.reflectIn), f.poly), bytes[1..])
  }

  function Checksum(f: Formula, rem: Word): Word
    requires WellFormed(f) && |rem| == |f.poly|
  {
    Xor(ReflectIf(rem, f.reflectRem), f.finalXor)
  }

  // ---------------------------------------------------------------- tables

  /** `t` holds the effect of every word of `order` bits, at the place of its value. */
  ghost predicate IsTable(t: seq<Word>, order: nat, poly: Word, reflect: bool)
    requires |poly| > 0
  {
    && |t| == Pow2(order)
    && forall b: Word {:trigger ToNat(b)} :: |b| == order ==> ToNat(b) < |t| && t[ToNat(b)] == Product(b, poly, reflect)
  }

  /** One byte of crc_update, by the direct or by the reflected driver. */
  function TableUpdate(f: Formula, rem: Word, byte: Word): (r: Word)
    requires WellFormed(f) && |rem| == |f.poly| && |byte| == 8
    ensures |r| == |rem|
  {
    if f.reflectIn then ReflectedUpdate(rem, byte, f.poly) else DirectUpdate(rem, byte, f.poly)
  }

  function TableRemainder(f: Formula, rem: Word, bytes: seq<Word>): (r: Word)
    requires WellFormed(f) && |rem| == |f.poly| && Bytes(bytes)
    ensures |r| == |rem|
    decreases |bytes|
  {
    if bytes == [] then rem else TableRemainder(f, TableUpdate(f, rem, bytes[0]), bytes[1..])
  }

  /** Reflection of the remainder is needed where it does not cancel that of the input. */
  function TableChecksum(f: Formula, rem: Word): Word
    requires WellFormed(f) && |rem| == |f.poly|
  {
    Xor(ReflectIf(rem, f.reflectRem != f.reflectIn), f.finalXor)
  }

  // ---------------------------------------------------------------- refinement

  /** One table look-up does the work of eight divisions, on a register reflected like the input. */
  lemma TableUpdateRefines(f: Formula, rem: Word, byte: Word)
    requires WellFormed(f) && |rem| == |f.poly| && |byte| == 8
    ensures TableUpdate(f, ReflectIf(rem, f.reflectIn), byte)
            == ReflectIf(FeedBits(rem, ReflectIf(byte, f.reflectIn), f.poly), f.reflectIn)
  {
    if f.reflectIn { ReflectedRefines(rem, byte, f.poly); } else { DirectRefines(rem, byte, f.poly); }
  }

  lemma {:induction false} TableRemainderRefines(f: Formula, rem: Word, bytes: seq<Word>)
    requires WellFormed(f) && |rem| == |f.poly| && Bytes(bytes)
    ensures TableRemainder(f, ReflectIf(rem, f.reflectIn), bytes) == ReflectIf(Remainder(f, rem, bytes), f.reflectIn)
    decreases |bytes|
  {
    if bytes != [] {
      TableUpdateRefines(f, rem, bytes[0]);
      TableRemainderRefines(f, FeedBits(rem, ReflectIf(bytes[0], f.reflectIn), f.poly), bytes[1..]);
    }
  }

  lemma ChecksumsAgree(f: Formula, rem: Word)
    requires WellFormed(f) && |rem| == |f.poly|
    ensures TableChecksum(f, ReflectIf(rem, f.reflectIn)) == Checksum(f, rem)
  {
    ReflectTwice(rem);
  }

  /**
   For every polynomial, initial remainder, final mask and choice of reflections, and for every
   string of bytes, the table-driven checksum is the bitwise one.
   */
  lemma OptimalRefinesBasic(f: Formula, bytes: seq<Word>)
    requires WellFormed(f) && Bytes(bytes)
    ensures TableChecksum(f, TableRemainder(f, ReflectIf(f.initial, f.reflectIn), bytes))
            == Checksum(f, Remainder(f, f.initial, bytes))
  {
    TableRemainderRefines(f, f.initial, bytes);
    ChecksumsAgree(f, Remainder(f, f.initial, bytes));
  }

  /** A message may be processed in any blocks. */
  lemma {:induction false} BlocksCompose(f: Formula, rem: Word, a: seq<Word>, b: seq<Word>)
    requires WellFormed(f) && |rem| == |f.poly| && Bytes(a) && Bytes(b)
    ensures Remainder(f, rem, a + b) == Remainder(f, Remainder(f, rem, a), b)
    decreases |a|
  {
    if a == [] {
      assert a + b == b;
    } else {
      assert (a + b)[1..] == a[1..] + b;
      BlocksCompose(f, FeedBits(rem, ReflectIf(a[0], f.reflectIn), f.poly), a[1..], b);
    }
  }

  lemma {:induction false} TableAppend(f: Formula, rem: Word, bytes: seq<Word>, byte: Word)
    requires WellFormed(f) && |rem| == |f.poly| && Bytes(bytes) && |byte| == 8
    ensures TableRemainder(f, rem, bytes + [byte]) == TableUpdate(f, TableRemainder(f, rem, bytes), byte)
    decreases |bytes|
  {
    if bytes == [] {
      assert [byte][1..] == [];
      assert TableRemainder(f, TableUpdate(f, rem, byte), []) == TableUpdate(f, rem, byte);
    } else {
      assert (bytes + [byte])[1..] == bytes[1..] + [byte];
      TableAppend(f, TableUpdate(f, rem, bytes[0]), bytes[1..], byte);
    }
  }

  lemma TableNext(f: Formula, rem: Word, bytes: seq<Word>, p: nat)
    requires WellFormed(f) && |rem| == |f.poly| && Bytes(bytes) && p < |bytes|
    ensures TableRemainder(f, rem, bytes[..p + 1]) == TableUpdate(f, TableRemainder(f, rem, bytes[..p]), bytes[p])
  {
    assert bytes[..p + 1] == bytes[..p] + [bytes[p]];
    TableAppend(f, rem, bytes[..p], bytes[p]);
  }

  lemma InterimRefines(f: Formula, rem: Word, bytes: seq<Word>)
    requires WellFormed(f) && |rem| == |f.poly| && Bytes(bytes)
    ensures ReflectIf(TableRemainder(f, rem, bytes), f.reflectIn) == Remainder(f, ReflectIf(rem, f.reflectIn), bytes)
  {
    ReflectTwice(rem);
    TableRemainderRefines(f, ReflectIf(rem, f.reflectIn), bytes);
    ReflectTwice(Remainder(f, ReflectIf(rem, f.reflectIn), bytes));
  }

  lemma RemainderOne(f: Formula, rem: Word, byte: Word)
    requires WellFormed(f) && |rem| == |f.poly| && |byte| == 8
    ensures Remainder(f, rem, [byte]) == FeedBits(rem, ReflectIf(byte, f.reflectIn), f.poly)
  {
    assert [byte][1..] == [];
  }

  /** A message followed by its own remainder, fed as it stands, leaves the register zero. */
  lemma SelfCheck(initial: Word, message: Word, poly: Word)
    requires |initial| == |poly| > 0
    ensures FeedBits(initial, message + FeedBits(initial, message, poly), poly) == Zero(|poly|)
  {
    var rem := FeedBits(initial, message, poly);
    FeedConcat(initial, message, rem, poly);
    assert rem[..|rem|] == rem;
    FeedCancels(rem, |rem|, poly);
    assert Shl(rem, |rem|) == Zero(|rem|);
  }

  // ---------------------------------------------------------------- long division

  /**
   Division of polynomials over two elements, by hand: wherever the leading bit is set, the divisor,
   which is a one and `poly`, is taken off; the last |poly| bits are the remainder.
   */
  function LongDivision(dividend: Word, poly: Word): (r: Word)
    requires |dividend| >= |poly|
    ensures |r| == |poly|
    decreases |dividend|
  {
    var w := |poly|;
    if |dividend| == w then dividend
    else if dividend[0] then LongDivision(Xor(dividend[1..w + 1], poly) + dividend[w + 1..], poly)
    else LongDivision(dividend[1..], poly)
  }

  /** The message with room for the remainder behind it, and the register added in front. */
  function Augmented(rem: Word, message: Word): (d: Word)
    ensures |d| == |rem| + |message|
  {
    Xor(message + Zero(|rem|), rem + Zero(|message|))
  }

  lemma AugmentedAt(rem: Word, message: Word, k: nat)
    requires k < |rem| + |message|
    ensures Augmented(rem, message)[k] == ((k < |message| && message[k]) != (k < |rem| && rem[k]))
  {
  }

  lemma AugmentedNext(rem: Word, message: Word, poly: Word)
    requires |rem| == |poly| > 0 && message != []
    ensures var d, w := Augmented(rem, message), |poly|;
            && (d[0] <==> rem[0] != message[0])
            && Augmented(Feed(rem, message[0], poly), message[1..])
               == if d[0] then Xor(d[1..w + 1], poly) + d[w + 1..] else d[1..]
  {
    var d, w := Augmented(rem, message), |poly|;
    var next := Feed(rem, message[0], poly);
    var e, f := Augmented(next, message[1..]), if d[0] then Xor(d[1..w + 1], poly) + d[w + 1..] else d[1..];
    AugmentedAt(rem, message, 0);
    assert |e| == |f|;
    forall k | 0 <= k < |e| ensures e[k] == f[k] {
      AugmentedAt(next, message[1..], k);
      AugmentedAt(rem, message, k + 1);
      if k < w {
        assert next[k] == ((k + 1 < w && rem[k + 1]) != (d[0] && poly[k]));
        assert f[k] == (d[k + 1] != (d[0] && poly[k]));
      } else {
        assert f[k] == d[k + 1];
      }
    }
  }

  /** Feeding a message bit by bit is long division. */
  lemma {:induction false} FeedIsLongDivision(rem: Word, message: Word, poly: Word)
    requires |rem| == |poly| > 0
    ensures FeedBits(rem, message, poly) == LongDivision(Augmented(rem, message), poly)
    decreases |message|
  {
    if message == [] {
      assert Augmented(rem, message) == rem;
    } else {
      AugmentedNext(rem, message, poly);
      FeedIsLongDivision(Feed(rem, message[0], poly), message[1..], poly);
    }
  }

  /** `bits` are the bits of the bytes, the lowest of each first if `reflect`, else the highest. */
  predicate IsMessage(bits: Word, bytes: seq<Word>, reflect: bool)
    requires Bytes(bytes)
  {
    && |bits| == 8 * |bytes|
    && forall k :: 0 <= k < |bits| ==> bits[k] == bytes[k / 8][if reflect then 7 - k % 8 else k % 8]
  }

  lemma MessageFirst(bits: Word, bytes: seq<Word>, reflect: bool)
    requires Bytes(bytes) && bytes != [] && IsMessage(bits, bytes, reflect)
    ensures bits[..8] == ReflectIf(bytes[0], reflect) && IsMessage(bits[8..], bytes[1..], reflect)
  {
    var rest := bits[8..];
    forall k | 0 <= k < |rest| ensures rest[k] == bytes[1..][k / 8][if reflect then 7 - k % 8 else k % 8] {
      assert rest[k] == bits[k + 8] && (k + 8) / 8 == k / 8 + 1 && (k + 8) % 8 == k % 8;
    }
  }

  lemma {:induction false} RemainderOfMessage(f: Formula, rem: Word, bytes: seq<Word>, bits: Word)
    requires WellFormed(f) && |rem| == |f.poly| && Bytes(bytes) && IsMessage(bits, bytes, f.reflectIn)
    ensures Remainder(f, rem, bytes) == FeedBits(rem, bits, f.poly)
    decreases |bytes|
  {
    if bytes != [] {
      MessageFirst(bits, bytes, f.reflectIn);
      RemainderOfMessage(f, FeedBits(rem, bits[..8], f.poly), bytes[1..], bits[8..]);
      FeedConcat(rem, bits[..8], bits[8..], f.poly);
      assert bits == bits[..8] + bits[8..];
    }
  }

  /**
   The checksum, bit by bit, is the remainder of the message in long division, the initial
   remainder added to its first bits, reversed if asked for and with the final mask added.
   */
  lemma ChecksumIsLongDivision(f: Formula, bytes: seq<Word>, bits: Word, k: nat)
    requires WellFormed(f) && Bytes(bytes) && IsMessage(bits, bytes, f.reflectIn) && k < |f.poly|
    ensures var r := LongDivision(Augmented(f.initial, bits), f.poly);
            Checksum(f, Remainder(f, f.initial, bytes))[k]
            == ((if f.reflectRem then r[|f.poly| - 1 - k] else r[k]) != f.finalXor[k])
  {
    RemainderOfMessage(f, f.initial, bytes, bits);
    FeedIsLongDivision(f.initial, bits, f.poly);
  }

  /** A single one leaves the polynomial. */
  lemma OneLeavesPoly(poly: Word)
    requires poly != []
    ensures Feed(Zero(|poly|), true, poly) == poly
  {
    var z := Zero(|poly|);
    var x := z[0 := true];
    assert Shl(x, 1) == z;
    forall k | 0 <= k < |poly| ensures Xor(z, poly)[k] == poly[k] { }
  }

  // ---------------------------------------------------------------- loops of the source

  /** Swaps bits l and h, counted from the low end, wherever they differ. */
  method ReflectUnsigned(x: Word, wordLength: nat) returns (r: Word)
    requires 0 < wordLength <= |x|
    ensures |r| == |x| && r[..|x| - wordLength] == x[..|x| - wordLength]
    ensures r[|x| - wordLength..] == Reflect(x[|x| - wordLength..])
  {
    var n := |x|;
    r := x;
    var l, h := 0, wordLength - 1;
    while h > l
      invariant |r| == n && 0 <= l <= h + 1 && l + h == wordLength - 1
      invariant forall k :: 0 <= k < n - wordLength ==> r[k] == x[k]
      invariant forall k :: n - 1 - h <= k < n - l ==> r[k] == x[k]
      invariant forall k :: n - wordLength <= k < n - 1 - h || n - l <= k < n ==> r[k] == x[2 * n - wordLength - 1 - k]
    {
      var i, j := n - 1 - h, n - 1 - l;
      assert 2 * n - wordLength - 1 - i == j && r[i] == x[i] && r[j] == x[j];
      if r[i] != r[j] {
        r := r[i := !r[i]][j := !r[j]];
      }
      h := h - 1;
      l := l + 1;
    }
    assert r[n - wordLength..] == Reflect(x[n - wordLength..]);
  }

  method ReflectOptionally(x: Word, reflect: bool) returns (r: Word)
    requires |x| > 0
    ensures r == ReflectIf(x, reflect)
  {
    r := x;
    if reflect {
      r := ReflectUnsigned(x, |x|);
      assert r[0..] == r && x[0..] == x;
    }
  }

  /** `t` maps every word of `order` bits to its reflection. */
  ghost predicate IsReflection(t: seq<Word>, order: nat) {
    && |t| == Pow2(order)
    && forall b: Word {:trigger ToNat(b)} :: |b| == order ==> ToNat(b) < |t| && t[ToNat(b)] == Reflect(b)
  }

  method MakeReflectionTable(order: nat) returns (t: array<Word>)
    requires order > 0
    ensures fresh(t) && IsReflection(t[..], order)
  {
    t := new Word[Pow2(order)](_ => []);
    var i := 0;
    while i < t.Length
      invariant 0 <= i <= t.Length
      invariant forall k :: 0 <= k < i ==> t[k] == Reflect(FromNat(k, order))
    {
      t[i] := ReflectOptionally(FromNat(i, order), true);
      i := i + 1;
    }
    forall b: Word | |b| == order ensures ToNat(b) < |t[..]| && t[..][ToNat(b)] == Reflect(b) {
      WordRoundTrip(b);
    }
  }

  lemma FeedByMask(rem: Word, bit: bool, poly: Word)
    requires |rem| == |poly| > 0
    ensures var mask := [true] + Zero(|rem| - 1);
            var x := Xor(rem, if bit then mask else Zero(|rem|));
            Feed(rem, bit, poly) == Xor(Shl(x, 1), if x[0] then poly else Zero(|rem|))
  {
    var x := Xor(rem, if bit then [true] + Zero(|rem| - 1) else Zero(|rem|));
    assert x == rem[0 := rem[0] != bit];
    XorZero(Shl(x, 1));
  }

  /** Compares the new bit with the highest of the remainder, shifts, and subtracts the divisor. */
  method Divide(rem0: Word, bit: bool, poly: Word) returns (rem: Word)
    requires |rem0| == |poly| > 0
    ensures rem == Feed(rem0, bit, poly)
  {
    FeedByMask(rem0, bit, poly);
    var highBitMask := [true] + Zero(|poly| - 1);
    rem := Xor(rem0, if bit then highBitMask else Zero(|poly|));
    var quotient := rem[0];
    rem := Shl(rem, 1);
    rem := Xor(rem, if quotient then poly else Zero(|poly|));
  }

  /** The loop of crc_modulo_word_update, from the lowest bit of a word up. */
  method DivideWord(rem0: Word, word: Word, ghost message: Word, poly: Word) returns (rem: Word)
    requires |rem0| == |poly| > 0 && message == Reflect(word)
    ensures rem == FeedBits(rem0, message, poly)
  {
    ShiftNone(word);
    rem := rem0;
    var w := word;
    var i := |word|;
    assert message[..0] == [];
    while i > 0
      invariant 0 <= i <= |word| == |w| && |rem| == |poly|
      invariant w == Shr(word, |word| - i)
      invariant rem == FeedBits(rem0, message[..|word| - i], poly)
    {
      LowBitNext(rem0, word, message, |word| - i, poly);
      rem := Divide(rem, w[|w| - 1], poly);
      i := i - 1;
      w := Shr(w, 1);
    }
    assert message[..|word|] == message;
  }

  method CrcModuloWordUpdate(rem0: Word, bits: Word, poly: Word, reflect: bool) returns (rem: Word)
    requires |rem0| == |poly| > 0 && |bits| > 0
    ensures rem == FeedBits(rem0, ReflectIf(bits, reflect), poly)
  {
    var word := ReflectOptionally(bits, !reflect);
    ReflectTwice(bits);
    rem := DivideWord(rem0, word, ReflectIf(bits, reflect), poly);
  }

  /** Where the entry of dividend `d` is stored. */
  function Place(d: nat, order: nat, reflect: bool): nat {
    ToNat(ReflectIf(FromNat(d, order), reflect))
  }

  function Entry(d: nat, order: nat, poly: Word, reflect: bool): Word
    requires |poly| > 0
  {
    ReflectIf(FeedBits(Zero(|poly|), FromNat(d, order), poly), reflect)
  }

  predicate Entered(t: seq<Word>, d: nat, order: nat, poly: Word, reflect: bool)
    requires |poly| > 0
  {
    var at := Place(d, order, reflect); at < |t| && t[at] == Entry(d, order, poly, reflect)
  }

  /** Places are a permutation of the dividends that undoes itself. */
  lemma PlaceTwice(d: nat, order: nat, reflect: bool)
    requires d < Pow2(order)
    ensures Place(d, order, reflect) < Pow2(order) && Place(Place(d, order, reflect), order, reflect) == d
  {
    var b := FromNat(d, order);
    WordRoundTrip(ReflectIf(b, reflect));
    ReflectTwice(b);
    NatRoundTrip(d, order);
  }

  /** A full table has the entry of every byte. */
  lemma TableComplete(t: seq<Word>, order: nat, poly: Word, reflect: bool)
    requires |poly| > 0 && |t| == Pow2(order) && forall d :: 0 <= d < |t| ==> Entered(t, d, order, poly, reflect)
    ensures IsTable(t, order, poly, reflect)
  {
    forall b: Word {:trigger ToNat(b)} | |b| == order
      ensures ToNat(b) < |t| && t[ToNat(b)] == Product(b, poly, reflect)
    {
      WordRoundTrip(b);
      var r := ReflectIf(b, reflect);
      WordRoundTrip(r);
      ReflectTwice(b);
      assert Entered(t, ToNat(r), order, poly, reflect);
    }
  }

  /** No two dividends share a place. */
  lemma PlacesDiffer(k: nat, d: nat, order: nat, reflect: bool)
    requires k < d < Pow2(order)
    ensures Place(k, order, reflect) != Place(d, order, reflect)
  {
    PlaceTwice(k, order, reflect);
    PlaceTwice(d, order, reflect);
  }

  /** So storing one entry leaves the others. */
  lemma EntryStays(t: seq<Word>, d: nat, k: nat, order: nat, entry: Word, poly: Word, reflect: bool)
    requires |poly| > 0 && k < d < Pow2(order) && Place(d, order, reflect) < |t|
    requires Entered(t, k, order, poly, reflect)
    ensures Entered(t[Place(d, order, reflect) := entry], k, order, poly, reflect)
  {
    PlacesDiffer(k, d, order, reflect);
  }

  lemma EntriesStay(t: seq<Word>, d: nat, order: nat, entry: Word, poly: Word, reflect: bool)
    requires |poly| > 0 && d < Pow2(order) == |t| && Place(d, order, reflect) < |t|
    requires forall k :: 0 <= k < d ==> Entered(t, k, order, poly, reflect)
    requires entry == Entry(d, order, poly, reflect)
    ensures var u := t[Place(d, order, reflect) := entry]; forall k :: 0 <= k < d + 1 ==> Entered(u, k, order, poly, reflect)
  {
    var u := t[Place(d, order, reflect) := entry];
    forall k | 0 <= k < d ensures Entered(u, k, order, poly, reflect) {
      EntryStays(t, d, k, order, entry, poly, reflect);
    }
  }

  method MakeEntry(dividend: nat, order: nat, poly: Word, reflect: bool) returns (place: nat, entry: Word)
    requires 0 < order <= |poly| && dividend < Pow2(order)
    ensures place == Place(dividend, order, reflect) < Pow2(order)
    ensures entry == Entry(dividend, order, poly, reflect)
  {
    var rem := CrcModuloWordUpdate(Zero(|poly|), FromNat(dividend, order), poly, false);
    var at := ReflectOptionally(FromNat(dividend, order), reflect);
    entry := ReflectOptionally(rem, reflect);
    place := ToNat(at);
    PlaceTwice(dividend, order, reflect);
  }

  method MakePartialXorProductsTable(order: nat, poly: Word, reflect: bool) returns (t: array<Word>)
    requires 0 < order <= |poly|
    ensures fresh(t) && IsTable(t[..], order, poly, reflect)
  {
    t := new Word[Pow2(order)](_ => []);
    var dividend := 0;
    while dividend < t.Length
      invariant 0 <= dividend <= t.Length
      invariant forall d :: 0 <= d < dividend ==> Entered(t[..], d, order, poly, reflect)
    {
      var place, entry := MakeEntry(dividend, order, poly, reflect);
      EntriesStay(t[..], dividend, order, entry, poly, reflect);
      ghost var next := t[..][place := entry];
      t[place] := entry;
      assert t[..] == next;
      dividend := dividend + 1;
    }
    TableComplete(t[..], order, poly, reflect);
  }

  // ---------------------------------------------------------------- the two computers

  class CrcBasic {
    const f: Formula
    const reflected: array<Word>  // reflect_byte's table
    var rem: Word

    ghost predicate Valid()
      reads this, reflected
    {
      WellFormed(f) && |rem| == |f.poly| && IsReflection(reflected[..], 8)
    }

    constructor (f: Formula)
      requires WellFormed(f)
      ensures Valid() && this.f == f && rem == f.initial && fresh(reflected)
    {
      var t := MakeReflectionTable(8);
      this.f := f;
      rem := f.initial;
      reflected := t;
    }

    method Reset(newRem: Word)
      requires Valid() && |newRem| == |f.poly|
      modifies this
      ensures Valid() && rem == newRem
    {
      rem := newRem;
    }

    method ProcessBit(bit: bool)
      requires |rem| == |f.poly| > 0
      modifies this`rem
      ensures rem == Feed(old(rem), bit, f.poly)
    {
      rem := CrcModuloWordUpdate(rem, [bit], f.poly, false);
      assert [bit][1..] == [];
      assert FeedBits(Feed(old(rem), bit, f.poly), [], f.poly) == Feed(old(rem), bit, f.poly);
    }

    /** The lowest `bitLength` bits of a byte, the highest of them first. */
    method ProcessBits(bits: Word, bitLength: nat)
      requires |rem| == |f.poly| > 0 && |bits| == 8 && bitLength <= 8
      modifies this`rem
      ensures rem == FeedBits(old(rem), bits[8 - bitLength..], f.poly)
    {
      ghost var start, was, message := 8 - bitLength, rem, bits[8 - bitLength..];
      var w := Shl(bits, 8 - bitLength);
      var i := bitLength;
      assert message[..0] == [];
      while i > 0
        invariant 0 <= i <= bitLength && |rem| == |f.poly|
        invariant w == Shl(bits, 8 - i)
        invariant rem == FeedBits(was, message[..bitLength - i], f.poly)
      {
        HighBitNext(was, bits, start, message, bitLength - i, f.poly);
        ProcessBit(w[0]);
        i := i - 1;
        w := Shl(w, 1);
      }
      assert message[..bitLength] == message;
    }

    method ProcessByte(byte: Word)
      requires Valid() && |byte| == 8
      modifies this
      ensures Valid() && rem == Remainder(f, old(rem), [byte])
    {
      RemainderOne(f, rem, byte);
      assert |byte| == 8 ==> ToNat(byte) < |reflected[..]| && reflected[..][ToNat(byte)] == Reflect(byte);
      var b := if f.reflectIn then reflected[ToNat(byte)] else byte;
      assert b[0..] == b;
      ProcessBits(b, 8);
    }

    method ProcessBlock(bytes: seq<Word>)
      requires Valid() && Bytes(bytes)
      modifies this
      ensures Valid() && rem == Remainder(f, old(rem), bytes)
    {
      var p := 0;
      while p < |bytes|
        invariant Valid() && 0 <= p <= |bytes|
        invariant rem == Remainder(f, old(rem), bytes[..p])
      {
        BlocksCompose(f, old(rem), bytes[..p], [bytes[p]]);
        assert bytes[..p + 1] == bytes[..p] + [bytes[p]];
        ProcessByte(bytes[p]);
        p := p + 1;
      }
      assert bytes[..p] == bytes;
    }

    method GetChecksum() returns (c: Word)
      requires Valid()
      ensures c == Checksum(f, rem)
    {
      var r := ReflectOptionally(rem, f.reflectRem);
      c := Xor(r, f.finalXor);
    }
  }

  class CrcOptimal {
    const f: Formula
    const table: array<Word>
    var rem: Word

    ghost predicate Valid()
      reads this, table
    {
      WellFormed(f) && |rem| == |f.poly| && IsTable(table[..], 8, f.poly, f.reflectIn)
    }

    /** The remainder as the bitwise computer has it. */
    ghost function Interim(): Word
      reads this, table
      requires Valid()
    {
      ReflectIf(rem, f.reflectIn)
    }

    constructor (f: Formula)
      requires WellFormed(f)
      ensures Valid() && this.f == f && Interim() == f.initial && fresh(table)
    {
      var t := MakePartialXorProductsTable(8, f.poly, f.reflectIn);
      var r := ReflectOptionally(f.initial, f.reflectIn);
      ReflectTwice(f.initial);
      this.f := f;
      table := t;
      rem := r;
    }

    method Reset(newRem: Word)
      requires Valid() && |newRem| == |f.poly|
      modifies this
      ensures Valid() && Interim() == newRem
    {
      rem := ReflectOptionally(newRem, f.reflectIn);
      ReflectTwice(newRem);
    }

    /** crc_update of the direct and of the reflected driver. */
    method CrcUpdate(byte: Word)
      requires Valid() && |byte| == 8
      modifies this
      ensures Valid() && rem == TableUpdate(f, old(rem), byte)
    {
      if f.reflectIn {
        var index := Xor(rem[|rem| - 8..], byte);
        assert table[..][ToNat(index)] == Product(index, f.poly, true);
        rem := Xor(Shr(rem, 8), table[ToNat(index)]);
      } else {
        var index := Xor(rem[..8], byte);
        assert table[..][ToNat(index)] == Product(index, f.poly, false);
        rem := Xor(Shl(rem, 8), table[ToNat(index)]);
      }
    }

    /** The loop of crc_update. */
    method UpdateAll(bytes: seq<Word>)
      requires Valid() && Bytes(bytes)
      modifies this
      ensures Valid() && rem == TableRemainder(f, old(rem), bytes)
    {
      ghost var was := rem;
      var p := 0;
      assert bytes[..0] == [];
      while p < |bytes|
        invariant Valid() && 0 <= p <= |bytes|
        invariant rem == TableRemainder(f, was, bytes[..p])
      {
        TableNext(f, was, bytes, p);
        CrcUpdate(bytes[p]);
        p := p + 1;
      }
      assert bytes[..p] == bytes;
    }

    method ProcessBytes(bytes: seq<Word>)
      requires Valid() && Bytes(bytes)
      modifies this
      ensures Valid() && Interim() == Remainder(f, old(Interim()), bytes)
    {
      InterimRefines(f, rem, bytes);
      UpdateAll(bytes);
    }

    method GetChecksum() returns (c: Word)
      requires Valid()
      ensures c == Checksum(f, Interim())
    {
      var r := ReflectOptionally(rem, f.reflectRem != f.reflectIn);
      c := Xor(r, f.finalXor);
      ReflectTwice(rem);
      ChecksumsAgree(f, Interim());
    }
  }

  /** Both computers, run on the same bytes, give the same checksum. */
  method BothAgree(f: Formula, bytes: seq<Word>) returns (basic: Word, optimal: Word)
    requires WellFormed(f) && Bytes(bytes)
    ensures basic == optimal == Checksum(f, Remainder(f, f.initial, bytes))
  {
    var b := new CrcBasic(f);
    b.ProcessBlock(bytes);
    basic := b.GetChecksum();
    var o := new CrcOptimal(f);
    o.ProcessBytes(bytes);
    optimal := o.GetChecksum();
  }

  /**
   Reset makes a used computer a new one: whatever either computer has processed before, after a
   reset to the same remainder both give the checksum of the bytes that follow.
   */
  method ResetBothAgree(b: CrcBasic, o: CrcOptimal, start: Word, bytes: seq<Word>) returns (basic: Word, optimal: Word)
    requires b.Valid() && o.Valid() && b.f == o.f && |start| == |b.f.poly| && Bytes(bytes)
    modifies b, o
    ensures basic == optimal == Checksum(b.f, Remainder(b.f, start, bytes))
  {
    b.Reset(start);
    b.ProcessBlock(bytes);
    basic := b.GetChecksum();
    o.Reset(start);
    o.ProcessBytes(bytes);
    optimal := o.GetChecksum();
  }
}
