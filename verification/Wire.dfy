/**
 The wire format of ripcqccomponent/ipcbase: a 20-byte header, a payload, and nothing between
 frames.  `Parse` is the reference decoder both receivers are compared with.
 */
module Wire {
  type Byte = b: int | 0 <= b < 256
  type u32 = x: int | 0 <= x < 0x1_0000_0000

  const U32: int := 0x1_0000_0000
  const HEADER: nat := 20
  const SLICE: nat := 0x4_0000                   // RsLocalSocketBufferLength
  const CLIENT_MODE: u32 := 0xF000_0000          // RIPC_CLIENT_MODE_VERSION
  const MAGIC: seq<Byte> := [0x72, 0x69, 0x70, 0x63]  // "ripc"

  datatype Frame = Frame(version: u32, cid: u32, sid: u32, payload: seq<Byte>)

  // ---------------------------------------------------------------- integers

  function Le32(x: u32): (s: seq<Byte>)
    ensures |s| == 4
  {
    [x % 0x100, x / 0x100 % 0x100, x / 0x1_0000 % 0x100, x / 0x100_0000]
  }

  function FromLe32(s: seq<Byte>): u32
    requires |s| == 4
  {
    s[0] as int + 0x100 * (s[1] as int) + 0x1_0000 * (s[2] as int) + 0x100_0000 * (s[3] as int)
  }

  lemma Le32RoundTrip(x: u32)
    ensures FromLe32(Le32(x)) == x
  {
    assert x == x % 0x100 + 0x100 * (x / 0x100);
    assert x / 0x100 == x / 0x100 % 0x100 + 0x100 * (x / 0x1_0000);
    assert x / 0x1_0000 == x / 0x1_0000 % 0x100 + 0x100 * (x / 0x100_0000);
  }

  lemma FromLe32RoundTrip(s: seq<Byte>)
    requires |s| == 4
    ensures Le32(FromLe32(s)) == s
  {
    var x := FromLe32(s);
    var b1: int, b2: int, b3: int := s[1], s[2], s[3];
    assert x / 0x100 == b1 + 0x100 * b2 + 0x1_0000 * b3;
    assert x / 0x1_0000 == b2 + 0x100 * b3;
    assert x / 0x100_0000 == b3;
  }

  // ---------------------------------------------------------------- printing

  /**
   Frame lengths are computed in 32 bits and slice offsets in signed ints, so the senders
   are only defined for frames below 2 GiB.
   */
  predicate Sendable(f: Frame) {
    HEADER + |f.payload| < 0x8000_0000
  }

  function Encode(f: Frame): (s: seq<Byte>)
    requires Sendable(f)
    ensures |s| == HEADER + |f.payload|
  {
    MAGIC + Le32(HEADER + |f.payload|) + Le32(f.version) + Le32(f.cid) + Le32(f.sid) + f.payload
  }

  predicate AllSendable(fs: seq<Frame>) {
    forall i :: 0 <= i < |fs| ==> Sendable(fs[i])
  }

  function EncodeAll(fs: seq<Frame>): seq<Byte>
    requires AllSendable(fs)
  {
    if fs == [] then [] else Encode(fs[0]) + EncodeAll(fs[1..])
  }

  // ---------------------------------------------------------------- parsing

  datatype Head = Wait | Bad | Whole(frame: Frame, length: nat)

  /** The first frame, if it is there.  A bare header waits for one byte more. */
  function Look(s: seq<Byte>): (h: Head)
    ensures h.Whole? ==> HEADER <= h.length <= |s|
  {
    if |s| <= HEADER then Wait
    else if s[..4] != MAGIC then Bad
    else
      var length := FromLe32(s[4..8]);
      if length < HEADER then Bad
      else if |s| < length then Wait
      else Whole(Frame(FromLe32(s[8..12]), FromLe32(s[12..16]), FromLe32(s[16..20]), s[HEADER..length]), length)
  }

  datatype Parsed = Parsed(frames: seq<Frame>, rest: seq<Byte>, bad: bool)

  function Parse(s: seq<Byte>): Parsed
    decreases |s|
  {
    match Look(s)
    case Wait => Parsed([], s, false)
    case Bad => Parsed([], s, true)
    case Whole(f, n) => var p := Parse(s[n..]); Parsed([f] + p.frames, p.rest, p.bad)
  }

  // ---------------------------------------------------------------- one frame

  lemma EncodeParts(f: Frame, tail: seq<Byte>)
    requires Sendable(f)
    ensures var s := Encode(f) + tail;
            && s[..4] == MAGIC && s[4..8] == Le32(HEADER + |f.payload|) && s[8..12] == Le32(f.version)
            && s[12..16] == Le32(f.cid) && s[16..20] == Le32(f.sid)
            && s[HEADER..HEADER + |f.payload|] == f.payload && s[HEADER + |f.payload|..] == tail
  {
  }

  /** A frame followed by at least one byte, its own payload or the next frame's, is seen. */
  lemma LookEncode(f: Frame, tail: seq<Byte>)
    requires Sendable(f) && |f.payload| + |tail| > 0
    ensures Look(Encode(f) + tail) == Whole(f, |Encode(f)|)
    ensures (Encode(f) + tail)[|Encode(f)|..] == tail
  {
    EncodeParts(f, tail);
    Le32RoundTrip(HEADER + |f.payload|);
    Le32RoundTrip(f.version);
    Le32RoundTrip(f.cid);
    Le32RoundTrip(f.sid);
  }

  /** What has been decided is not changed by later bytes. */
  lemma LookStable(a: seq<Byte>, b: seq<Byte>)
    requires !Look(a).Wait?
    ensures Look(a + b) == Look(a)
    ensures Look(a).Whole? ==> (a + b)[Look(a).length..] == a[Look(a).length..] + b
  {
    var s := a + b;
    assert s[..4] == a[..4] && s[4..8] == a[4..8] && s[8..12] == a[8..12];
    assert s[12..16] == a[12..16] && s[16..20] == a[16..20];
    if Look(a).Whole? {
      assert s[HEADER..Look(a).length] == a[HEADER..Look(a).length];
    }
  }

  /** Printing what was parsed gives back the bytes. */
  lemma LookExact(s: seq<Byte>)
    requires Look(s).Whole? && Sendable(Look(s).frame)
    ensures Encode(Look(s).frame) == s[..Look(s).length]
  {
    FromLe32RoundTrip(s[4..8]);
    FromLe32RoundTrip(s[8..12]);
    FromLe32RoundTrip(s[12..16]);
    FromLe32RoundTrip(s[16..20]);
    var n := Look(s).length;
    assert s[..n] == s[..4] + s[4..8] + s[8..12] + s[12..16] + s[16..20] + s[HEADER..n];
  }

  // ---------------------------------------------------------------- the layout, byte by byte

  function Pow256(i: nat): (r: nat)
    ensures r > 0
  {
    if i == 0 then 1 else 256 * Pow256(i - 1)
  }

  /** The value of the four bytes from `at`, byte i with weight 256^i. */
  function Field(s: seq<Byte>, at: nat): nat
    requires at + 4 <= |s|
  {
    Pow256(0) * s[at] + Pow256(1) * s[at + 1] + Pow256(2) * s[at + 2] + Pow256(3) * s[at + 3]
  }

  lemma Powers()
    ensures Pow256(0) == 1 && Pow256(1) == 256 && Pow256(2) == 0x1_0000 && Pow256(3) == 0x100_0000
  {
    assert Pow256(2) == 256 * Pow256(1);
    assert Pow256(3) == 256 * Pow256(2);
  }

  lemma Le32Byte(x: u32, i: nat)
    requires i < 4
    ensures Le32(x)[i] == x / Pow256(i) % 256
  {
    Powers();
  }

  lemma FromLe32Field(s: seq<Byte>, at: nat)
    requires at + 4 <= |s|
    ensures FromLe32(s[at..at + 4]) == Field(s, at)
  {
    Powers();
  }

  /** Every byte of a frame: "ripc", then byte i of each field is its digit to the base 256 with weight 256^i. */
  lemma EncodeBytes(f: Frame, i: nat, k: nat)
    requires Sendable(f) && i < 4 && k < |f.payload|
    ensures var s := Encode(f);
            && s[0] == 'r' as int && s[1] == 'i' as int && s[2] == 'p' as int && s[3] == 'c' as int
            && s[4 + i] == (20 + |f.payload|) / Pow256(i) % 256
            && s[8 + i] == f.version / Pow256(i) % 256
            && s[12 + i] == f.cid / Pow256(i) % 256
            && s[16 + i] == f.sid / Pow256(i) % 256
            && s[20 + k] == f.payload[k]
  {
    Le32Byte(HEADER + |f.payload|, i);
    Le32Byte(f.version, i);
    Le32Byte(f.cid, i);
    Le32Byte(f.sid, i);
  }

  lemma SmallFields()
    ensures Le32(21) == [21, 0, 0, 0] && Le32(0) == [0, 0, 0, 0] && Le32(1) == [1, 0, 0, 0] && Le32(258) == [2, 1, 0, 0]
  {
  }

  /** One frame in numbers. */
  lemma OneFrame()
    ensures Encode(Frame(0, 1, 258, [65]))
            == [0x72, 0x69, 0x70, 0x63, 21, 0, 0, 0, 0, 0, 0, 0, 1, 0, 0, 0, 2, 1, 0, 0, 65]
  {
    SmallFields();
    var s := Encode(Frame(0, 1, 258, [65]));
    assert s == MAGIC + [21, 0, 0, 0] + [0, 0, 0, 0] + [1, 0, 0, 0] + [2, 1, 0, 0] + [65];
  }

  predicate SaysRipc(s: seq<Byte>)
    requires |s| >= 4
  {
    s[0] == 'r' as int && s[1] == 'i' as int && s[2] == 'p' as int && s[3] == 'c' as int
  }

  /** What a receiver makes of the bytes it has, in terms of the bytes. */
  lemma LookIff(s: seq<Byte>)
    ensures Look(s).Wait? <==> |s| <= 20 || (SaysRipc(s) && 20 <= Field(s, 4) && |s| < Field(s, 4))
    ensures Look(s).Bad? <==> |s| > 20 && (!SaysRipc(s) || Field(s, 4) < 20)
    ensures Look(s).Whole? ==>
              && Look(s).length == Field(s, 4)
              && Look(s).frame == Frame(Field(s, 8), Field(s, 12), Field(s, 16), s[20..Field(s, 4)])
  {
    if |s| > HEADER {
      assert s[..4] == MAGIC <==> SaysRipc(s);
      FromLe32Field(s, 4);
      FromLe32Field(s, 8);
      FromLe32Field(s, 12);
      FromLe32Field(s, 16);
    }
  }

  // ---------------------------------------------------------------- streams

  lemma Associates(a: seq<Byte>, b: seq<Byte>, c: seq<Byte>)
    ensures (a + b) + c == a + (b + c)
  {
  }

  lemma EncodeAllFirst(f: Frame, fs: seq<Frame>)
    requires Sendable(f) && AllSendable(fs)
    ensures AllSendable([f] + fs) && EncodeAll([f] + fs) == Encode(f) + EncodeAll(fs)
  {
    assert ([f] + fs)[1..] == fs;
  }

  lemma {:induction false} EncodeAllConcat(fs: seq<Frame>, gs: seq<Frame>)
    requires AllSendable(fs) && AllSendable(gs)
    ensures AllSendable(fs + gs) && EncodeAll(fs + gs) == EncodeAll(fs) + EncodeAll(gs)
  {
    if fs == [] {
      assert fs + gs == gs;
    } else {
      var f, rest := fs[0], fs[1..];
      assert fs == [f] + rest && fs + gs == [f] + (rest + gs);
      EncodeAllConcat(rest, gs);
      EncodeAllFirst(f, rest);
      EncodeAllFirst(f, rest + gs);
      Associates(Encode(f), EncodeAll(rest), EncodeAll(gs));
    }
  }

  /** What decoding `b` behind the leftover of `p` adds to `p`. */
  predicate Composes(p: Parsed, b: seq<Byte>, all: Parsed) {
    if p.bad then all == Parsed(p.frames, p.rest + b, true)
    else var q := Parse(p.rest + b); all == Parsed(p.frames + q.frames, q.rest, q.bad)
  }

  lemma ComposesFirst(f: Frame, p: Parsed, b: seq<Byte>, all: Parsed)
    requires Composes(p, b, all)
    ensures Composes(Parsed([f] + p.frames, p.rest, p.bad), b, Parsed([f] + all.frames, all.rest, all.bad))
  {
    assert [f] + (p.frames + Parse(p.rest + b).frames) == ([f] + p.frames) + Parse(p.rest + b).frames;
  }

  lemma ComposesNothing(a: seq<Byte>, b: seq<Byte>)
    ensures Composes(Parsed([], a, false), b, Parse(a + b))
  {
    assert [] + Parse(a + b).frames == Parse(a + b).frames;
  }

  lemma {:induction false} ParseComposes(a: seq<Byte>, b: seq<Byte>)
    ensures Composes(Parse(a), b, Parse(a + b))
    decreases |a|
  {
    match Look(a)
    case Wait => ComposesNothing(a, b);
    case Bad => LookStable(a, b);
    case Whole(f, n) =>
      LookStable(a, b);
      ParseComposes(a[n..], b);
      ComposesFirst(f, Parse(a[n..]), b, Parse(a[n..] + b));
  }

  /** Decoding in two goes: the second sees the leftover of the first. */
  lemma ParseConcat(a: seq<Byte>, b: seq<Byte>)
    ensures var p := Parse(a);
            if p.bad then Parse(a + b) == Parsed(p.frames, p.rest + b, true)
            else var q := Parse(p.rest + b); Parse(a + b) == Parsed(p.frames + q.frames, q.rest, q.bad)
  {
    ParseComposes(a, b);
  }

  /** The frames that can be delivered: all, but a final bare header has to wait. */
  function Deliverable(fs: seq<Frame>): seq<Frame> {
    if fs != [] && fs[|fs|-1].payload == [] then fs[..|fs|-1] else fs
  }

  function Kept(fs: seq<Frame>): seq<Byte>
    requires AllSendable(fs)
  {
    if fs != [] && fs[|fs|-1].payload == [] then Encode(fs[|fs|-1]) else []
  }

  lemma {:induction false} EncodeAllNonEmpty(fs: seq<Frame>)
    requires AllSendable(fs) && fs != []
    ensures |EncodeAll(fs)| >= HEADER
  {
  }

  lemma RoundTripOne(f: Frame)
    requires Sendable(f)
    ensures Parse(Encode(f)) == if f.payload == [] then Parsed([], Encode(f), false) else Parsed([f], [], false)
  {
    assert Encode(f) + [] == Encode(f);
    if f.payload != [] { LookEncode(f, []); }
  }

  lemma ParseFirst(f: Frame, tail: seq<Byte>)
    requires Sendable(f) && tail != []
    ensures var p := Parse(tail); Parse(Encode(f) + tail) == Parsed([f] + p.frames, p.rest, p.bad)
  {
    LookEncode(f, tail);
  }

  lemma DeliverableTail(fs: seq<Frame>)
    requires AllSendable(fs) && |fs| > 1
    ensures Deliverable(fs) == [fs[0]] + Deliverable(fs[1..]) && Kept(fs) == Kept(fs[1..])
  {
    assert fs[1..][|fs|-2] == fs[|fs|-1];
    assert fs == [fs[0]] + fs[1..];
  }

  /** Decoding the concatenated encodings gives the frames back, up to a trailing bare header. */
  lemma {:induction false} RoundTrip(fs: seq<Frame>)
    requires AllSendable(fs)
    ensures Parse(EncodeAll(fs)) == Parsed(Deliverable(fs), Kept(fs), false)
  {
    if |fs| == 1 {
      assert fs[1..] == [] && [fs[0]] == fs;
      assert EncodeAll(fs) == Encode(fs[0]);
      RoundTripOne(fs[0]);
    } else if fs != [] {
      EncodeAllNonEmpty(fs[1..]);
      ParseFirst(fs[0], EncodeAll(fs[1..]));
      RoundTrip(fs[1..]);
      DeliverableTail(fs);
    }
  }

  /** All frames come out exactly if the last one, if any, carries a payload. */
  lemma RoundTripIff(fs: seq<Frame>)
    requires AllSendable(fs)
    ensures Parse(EncodeAll(fs)).frames == fs <==> fs == [] || fs[|fs|-1].payload != []
  {
    RoundTrip(fs);
    assert Deliverable(fs) == fs <==> |Deliverable(fs)| == |fs|;
  }

  /** Whatever has arrived of a sent stream decodes to a prefix of the frames sent. */
  lemma PrefixParses(fs: seq<Frame>, arrived: seq<Byte>, missing: seq<Byte>)
    requires AllSendable(fs) && arrived + missing == EncodeAll(fs)
    ensures !Parse(arrived).bad && Parse(arrived).frames <= fs
  {
    RoundTrip(fs);
    ParseConcat(arrived, missing);
    var q := Parse(Parse(arrived).rest + missing);
    assert Parse(arrived).bad ==> Parse(arrived + missing).bad;
    assert Parse(arrived).frames + q.frames == Deliverable(fs);
    assert Deliverable(fs) <= fs;
  }

  // ---------------------------------------------------------------- chunks

  function Flatten(chunks: seq<seq<Byte>>): seq<Byte> {
    if chunks == [] then [] else chunks[0] + Flatten(chunks[1..])
  }

  lemma {:induction false} FlattenConcat(a: seq<seq<Byte>>, b: seq<seq<Byte>>)
    ensures Flatten(a + b) == Flatten(a) + Flatten(b)
  {
    if a == [] {
      assert a + b == b;
    } else {
      assert (a + b)[1..] == a[1..] + b;
      FlattenConcat(a[1..], b);
    }
  }

  /** A receiver that decodes after every chunk and keeps the leftover. */
  function Feed(rest: seq<Byte>, chunks: seq<seq<Byte>>): Parsed
    decreases |chunks|
  {
    if chunks == [] then Parsed([], rest, false)
    else
      var p := Parse(rest + chunks[0]);
      if p.bad then Parsed(p.frames, p.rest + Flatten(chunks[1..]), true)
      else var q := Feed(p.rest, chunks[1..]); Parsed(p.frames + q.frames, q.rest, q.bad)
  }

  lemma RestWaits(s: seq<Byte>)
    requires !Parse(s).bad
    ensures Look(Parse(s).rest).Wait? && Parse(Parse(s).rest) == Parsed([], Parse(s).rest, false)
    decreases |s|
  {
    match Look(s)
    case Wait =>
    case Whole(f, n) => RestWaits(s[n..]);
  }

  /** Every way of cutting the bytes gives the same frames and the same leftover. */
  lemma {:induction false} ChunkIndependence(rest: seq<Byte>, chunks: seq<seq<Byte>>)
    requires Look(rest).Wait?
    ensures Feed(rest, chunks) == Parse(rest + Flatten(chunks))
    decreases |chunks|
  {
    if chunks == [] {
      assert rest + Flatten(chunks) == rest;
    } else {
      var a := rest + chunks[0];
      var b := Flatten(chunks[1..]);
      assert rest + Flatten(chunks) == a + b;
      ParseConcat(a, b);
      if !Parse(a).bad {
        RestWaits(a);
        ChunkIndependence(Parse(a).rest, chunks[1..]);
      }
    }
  }

  // ---------------------------------------------------------------- slices

  /** How the senders cut a message for the socket. */
  function Slices(m: seq<Byte>): seq<seq<Byte>>
    decreases |m|
  {
    if m == [] then []
    else if |m| <= SLICE then [m]
    else [m[..SLICE]] + Slices(m[SLICE..])
  }

  /** Slices are never empty and never larger than the socket takes, and lose nothing. */
  lemma {:induction false} SlicesFit(m: seq<Byte>)
    ensures Flatten(Slices(m)) == m
    ensures forall i :: 0 <= i < |Slices(m)| ==> 1 <= |Slices(m)[i]| <= SLICE
    decreases |m|
  {
    if |m| > SLICE {
      SlicesFit(m[SLICE..]);
      assert m == m[..SLICE] + m[SLICE..];
    } else if m != [] {
      assert [m][1..] == [];
      assert Flatten([m]) == m + [];
    }
  }

  lemma {:induction false} SlicesCount(m: seq<Byte>)
    ensures |Slices(m)| == (|m| + SLICE - 1) / SLICE
    decreases |m|
  {
    if |m| > SLICE {
      SlicesCount(m[SLICE..]);
      assert (|m| + SLICE - 1) / SLICE == 1 + (|m| - SLICE + SLICE - 1) / SLICE;
    }
  }

  /** The i-th slice starts at byte i * SLICE. */
  lemma {:induction false} SliceAt(m: seq<Byte>, i: nat)
    requires i < |Slices(m)|
    ensures i * SLICE < |m|
    ensures Slices(m)[i] == m[i * SLICE .. if (i + 1) * SLICE <= |m| then (i + 1) * SLICE else |m|]
    decreases i
  {
    if |m| > SLICE && i > 0 {
      SliceAt(m[SLICE..], i - 1);
    }
  }
}
