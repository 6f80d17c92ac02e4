/** Reading back what was written, for single frames, whole streams and streams cut short. */
module FrameProofs {
  import opened Text
  import opened WebSocket

  /** Lengths a Go slice can have. */
  predicate Writable(f: Frame) { |f.payload| < 0x8000_0000_0000_0000 }

  // ---------------------------------------------------------------- one frame

  /** The bytes of the length field after its first byte. */
  function Extension(n: nat): (bs: seq<Byte>)
    requires n < 0x8000_0000_0000_0000
  {
    if n < 126 then [] else if n <= 0xffff then BigEndian(2, n) else BigEndian(8, n)
  }

  function LengthCode(n: nat): int { if n < 126 then n else if n <= 0xffff then 126 else 127 }

  lemma {:induction false} TakeLengthInverts(n: nat, rest: seq<Byte>)
    requires n < 0x8000_0000_0000_0000
    ensures TakeLength(LengthCode(n), Extension(n) + rest) == Ok(n, rest)
  {
    if n < 126 {
      assert Extension(n) + rest == rest;
    } else if n <= 0xffff {
      BigEndianRoundTrip(2, n);
    } else {
      BigEndianRoundTrip(8, n);
    }
  }

  lemma {:induction false} TakeMaskInverts(m: Mask, rest: seq<Byte>)
    requires ValidMask(m)
    ensures TakeMask(m.Key?, KeyBytes(m) + rest) == Ok(m, rest)
  {
    if m.Key? {
    } else {
      assert KeyBytes(m) + rest == rest;
    }
  }

  /** The two leading bytes of a frame. */
  function Lead(f: Frame, m: Mask): seq<Byte>
    requires Writable(f)
  {
    [SetHighBit(f.opcode), MaskBit(m) + LengthCode(|f.payload|)]
  }

  lemma {:induction false} EncodeLayout(f: Frame, m: Mask)
    requires Writable(f) && ValidMask(m)
    ensures Encode(f, m) == Lead(f, m) + (Extension(|f.payload|) + (KeyBytes(m) + Apply(m, f.payload)))
  {
    var n := |f.payload|;
    assert LengthField(m, n) == [MaskBit(m) + LengthCode(n)] + Extension(n);
    assert Header(f, m) == Lead(f, m) + Extension(n) + KeyBytes(m);
    var a, b, c, d := Lead(f, m), Extension(n), KeyBytes(m), Apply(m, f.payload);
    ConcatAssociative(a + b, c, d);
    ConcatAssociative(a, b, c + d);
  }

  lemma {:induction false} ReadBodyInverts(f: Frame, m: Mask, rest: seq<Byte>)
    requires ValidMask(m) && |f.payload| <= MAX_FRAME
    ensures ReadBody(f.opcode, m.Key?, |f.payload|, KeyBytes(m) + (Apply(m, f.payload) + rest)) == Ok(f, rest)
  {
    var masked := Apply(m, f.payload);
    TakeMaskInverts(m, masked + rest);
    MaskingIsItsOwnInverse(m, f.payload);
  }

  /** The reader gets past the header of a frame, whatever follows it. */
  lemma {:induction false} ReadPastHeader(f: Frame, m: Mask, s: seq<Byte>)
    requires f.opcode < 16 && Writable(f)
    ensures ReadFrame(Lead(f, m) + (Extension(|f.payload|) + s)) == ReadBody(f.opcode, m.Key?, |f.payload|, s)
  {
    var n := |f.payload|;
    TakeLengthInverts(n, s);
    LeadCode(f, m);
  }

  lemma {:induction false} LeadCode(f: Frame, m: Mask)
    requires f.opcode < 16 && Writable(f)
    ensures var h := Lead(f, m); |h| == 2 && h[0] % 16 == f.opcode && h[1] % 128 == LengthCode(|f.payload|) && (h[1] >= 128 <==> m.Key?)
  {}

  /** A written frame reads back unchanged, leaving what follows it, exactly when it is within
      the reader's limit; a longer one is refused. */
  lemma {:induction false} ReadInvertsEncode(f: Frame, m: Mask, rest: seq<Byte>)
    requires f.opcode < 16 && Writable(f) && ValidMask(m)
    ensures ReadFrame(Encode(f, m) + rest) == if |f.payload| <= 0x100_0000 then Ok(f, rest) else Failed(TooLarge)
  {
    var a, b, c, d := Lead(f, m), Extension(|f.payload|), KeyBytes(m), Apply(m, f.payload);
    EncodeLayout(f, m);
    ConcatAssociative(a, b + (c + d), rest);
    ConcatAssociative(b, c + d, rest);
    ConcatAssociative(c, d, rest);
    ReadPastHeader(f, m, c + (d + rest));
    if |f.payload| <= MAX_FRAME { ReadBodyInverts(f, m, rest); }
  }

  // ---------------------------------------------------------------- streams

  datatype Written = Written(frame: Frame, mask: Mask)

  predicate Sendable(w: Written) {
    w.frame.opcode < 16 && |w.frame.payload| <= MAX_FRAME && ValidMask(w.mask)
  }

  predicate AllSendable(ws: seq<Written>) { forall i :: 0 <= i < |ws| ==> Sendable(ws[i]) }

  function EncodeAll(ws: seq<Written>): seq<Byte>
    requires AllSendable(ws)
  {
    if ws == [] then [] else Encode(ws[0].frame, ws[0].mask) + EncodeAll(ws[1..])
  }

  function FramesOf(ws: seq<Written>): seq<Frame> {
    seq(|ws|, i requires 0 <= i < |ws| => ws[i].frame)
  }

  /** Reads `n` frames in a row. */
  function ReadMany(n: nat, s: seq<Byte>): Read<seq<Frame>> {
    if n == 0 then Ok([], s) else
    match ReadFrame(s)
    case Failed(e) => Failed(e)
    case Ok(f, rest) =>
      match ReadMany(n - 1, rest)
      case Failed(e) => Failed(e)
      case Ok(fs, tail) => Ok([f] + fs, tail)
  }

  lemma {:induction false} ReadManyStep(n: nat, s: seq<Byte>, f: Frame, rest: seq<Byte>, fs: seq<Frame>, tail: seq<Byte>)
    requires ReadFrame(s) == Ok(f, rest) && ReadMany(n, rest) == Ok(fs, tail)
    ensures ReadMany(n + 1, s) == Ok([f] + fs, tail)
  {}

  /** Any frames, written with any masks and concatenated, read back as exactly those frames
      with the trailing bytes untouched. */
  lemma {:induction false} StreamRoundTrip(ws: seq<Written>, tail: seq<Byte>)
    requires AllSendable(ws)
    ensures ReadMany(|ws|, EncodeAll(ws) + tail) == Ok(FramesOf(ws), tail)
  {
    if ws == [] {
      assert EncodeAll(ws) + tail == tail && FramesOf(ws) == [];
    } else {
      var f, m, more := ws[0].frame, ws[0].mask, EncodeAll(ws[1..]) + tail;
      ConcatAssociative(Encode(f, m), EncodeAll(ws[1..]), tail);
      ReadInvertsEncode(f, m, more);
      StreamRoundTrip(ws[1..], tail);
      ReadManyStep(|ws| - 1, Encode(f, m) + more, f, more, FramesOf(ws[1..]), tail);
      FramesOfFirst(ws);
    }
  }

  lemma {:induction false} FramesOfFirst(ws: seq<Written>)
    requires ws != []
    ensures FramesOf(ws) == [ws[0].frame] + FramesOf(ws[1..])
  {}

  // ---------------------------------------------------------------- minimal length

  predicate IsMasked(s: seq<Byte>)
    requires |s| >= 2
  {
    s[1] >= 128
  }

  /** No byte string that reads as a given frame is shorter than the writer's encoding of it,
      apart from the four key bytes an unmasked frame does without. */
  lemma {:induction false} EncodingIsShortest(s: seq<Byte>, m: Mask)
    requires ReadFrame(s).Ok? && ValidMask(m) && |s| >= 2 && (m.Key? <==> IsMasked(s))
    ensures |s| - |ReadFrame(s).rest| >= |Encode(ReadFrame(s).value, m)|
  {
    var r := ReadFrame(s);
    var s1 := TakeFull(s, 2).rest;
    var length := TakeLength(s[1] % 128, s1);
    LengthFieldIsShortest(s[1] % 128, s1);
    EncodeLayout(r.value, m);
  }

  lemma {:induction false} LengthFieldIsShortest(code: int, s: seq<Byte>)
    requires 0 <= code < 128 && TakeLength(code, s).Ok?
    requires 0 <= TakeLength(code, s).value <= MAX_FRAME
    ensures |s| - |TakeLength(code, s).rest| >= |Extension(TakeLength(code, s).value)|
  {
    if code == 126 { UnsignedBound(TakeFull(s, 2).value); }
  }

  // ---------------------------------------------------------------- streams cut short

  /** Where a cut falls between two of the reader's fields. */
  predicate FieldBoundary(f: Frame, m: Mask, k: nat)
    requires Writable(f)
  {
    var e := |Extension(|f.payload|)|;
    k == 0 || k == 2 || k == 2 + e || k == 2 + e + |KeyBytes(m)|
  }

  /** A frame cut short never reads as a frame. The error is the clean end of stream, which the
      exec reader takes for a normal finish, exactly when the cut falls between two fields. */
  lemma {:induction false} CutFrameFails(f: Frame, m: Mask, k: nat)
    requires f.opcode < 16 && |f.payload| <= MAX_FRAME && ValidMask(m) && k < |Encode(f, m)|
    ensures ReadFrame(Encode(f, m)[..k]) == Failed(if FieldBoundary(f, m, k) then Eof else UnexpectedEof)
  {
    EncodeLayout(f, m);
    var b, body := Extension(|f.payload|), KeyBytes(m) + Apply(m, f.payload);
    var s := Encode(f, m)[..k];
    if 2 + |b| <= k {
      var j := k - 2 - |b|;
      assert s == Lead(f, m) + (b + body[..j]);
      ReadPastHeader(f, m, body[..j]);
    } else if 2 <= k {
      CutInLength(f, m, k);
    }
  }

  lemma {:induction false} CutInLength(f: Frame, m: Mask, k: nat)
    requires f.opcode < 16 && Writable(f) && ValidMask(m) && 2 <= k < 2 + |Extension(|f.payload|)|
    ensures ReadFrame(Encode(f, m)[..k]) == Failed(if k == 2 then Eof else UnexpectedEof)
  {
    EncodeLayout(f, m);
    var h, b := Lead(f, m), Extension(|f.payload|);
    CutOfConcat(h, b, KeyBytes(m) + Apply(m, f.payload), k);
    LeadCode(f, m);
    ShortLength(h, b[..k - 2], |f.payload|);
  }

  lemma {:induction false} CutOfConcat(a: seq<Byte>, b: seq<Byte>, c: seq<Byte>, k: nat)
    requires |a| <= k <= |a| + |b|
    ensures (a + (b + c))[..k] == a + b[..k - |a|]
  {}

  lemma {:induction false} ShortLength(h: seq<Byte>, s: seq<Byte>, n: nat)
    requires n < 0x8000_0000_0000_0000 && |h| == 2 && h[1] % 128 == LengthCode(n) && |s| < |Extension(n)|
    ensures ReadFrame(h + s) == Failed(if s == [] then Eof else UnexpectedEof)
  {
    TakeFullPrefix(h, s);
    TakeFullShort(s, |Extension(n)|);
  }

  lemma {:induction false} TakeFullPrefix(a: seq<Byte>, b: seq<Byte>)
    ensures TakeFull(a + b, |a|) == Ok(a, b)
  {
    assert (a + b)[..|a|] == a && (a + b)[|a|..] == b;
  }

  lemma {:induction false} TakeFullShort(s: seq<Byte>, n: nat)
    requires |s| < n
    ensures TakeFull(s, n) == Failed(if s == [] then Eof else UnexpectedEof)
  {}
}
