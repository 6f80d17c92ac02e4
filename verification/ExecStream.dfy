/** Demultiplexing of the exec stream: `readExecWebSocket`. */
module ExecStream {
  import opened Text
  import opened WebSocket
  import opened FrameProofs

  // ---------------------------------------------------------------- what the frames say

  /** A data frame's channel number is its first payload byte. */
  predicate OnChannel(f: Frame, channel: Byte) {
    (f.opcode == 1 || f.opcode == 2) && f.payload != [] && f.payload[0] == channel
  }

  function StdoutPart(f: Frame): seq<Byte> { if OnChannel(f, 1) then f.payload[1..] else [] }

  function StderrPart(f: Frame): seq<Byte> { if OnChannel(f, 2) || OnChannel(f, 3) then f.payload[1..] else [] }

  function PongPart(f: Frame): seq<seq<Byte>> { if f.opcode == 9 then [f.payload] else [] }

  /** In-order concatenation of what each frame contributes. */
  function Gather<T>(part: Frame -> seq<T>, fs: seq<Frame>): seq<T> {
    if fs == [] then [] else Gather(part, fs[..|fs| - 1]) + part(fs[|fs| - 1])
  }

  lemma {:induction false} GatherOne<T>(part: Frame -> seq<T>, fs: seq<Frame>, f: Frame)
    ensures Gather(part, fs + [f]) == Gather(part, fs) + part(f)
  {
    assert (fs + [f])[..|fs + [f]| - 1] == fs;
  }

  function Truncate(data: seq<Byte>, limit: nat): seq<Byte> {
    if |data| <= limit then data else data[..limit]
  }

  function Stdout(fs: seq<Frame>, limit: nat): seq<Byte> { Truncate(Gather(StdoutPart, fs), limit) }

  function Stderr(fs: seq<Frame>, limit: nat): seq<Byte> { Truncate(Gather(StderrPart, fs), limit) }

  /** How a status payload is read: the code it carries, and whether it is blank text. */
  datatype Status = Status(code: seq<Byte> -> int, blank: seq<Byte> -> bool)

  function ExitStep(st: Status, code: int, f: Frame): int {
    if !OnChannel(f, 3) then code else
    var data := f.payload[1..];
    if st.code(data) != 0 then st.code(data) else
    if !st.blank(data) && code == 0 then 1 else code
  }

  function ExitCode(st: Status, fs: seq<Frame>): int {
    if fs == [] then 0 else ExitStep(st, ExitCode(st, fs[..|fs| - 1]), fs[|fs| - 1])
  }

  // ---------------------------------------------------------------- which frames are read

  datatype Stop = LimitReached | Closed | EndOfStream | Broken(error: ReadError)

  datatype Session = Session(frames: seq<Frame>, stop: Stop)

  /** The frames the loop reads from `s` when it has read `fs`, and why it stops. */
  function Listen(s: seq<Byte>, fs: seq<Frame>, limit: nat): Session
    decreases |s|
  {
    if |Stdout(fs, limit)| + |Stderr(fs, limit)| >= limit then Session(fs, LimitReached) else
    match ReadFrame(s)
    case Failed(Eof) => Session(fs, EndOfStream)
    case Failed(e) => Session(fs, Broken(e))
    case Ok(f, rest) => if f.opcode == 8 then Session(fs + [f], Closed) else Listen(rest, fs + [f], limit)
  }

  datatype ExecResult = ExecResult(stdout: seq<Byte>, stderr: seq<Byte>, exitCode: int, error: Stop, pongs: seq<seq<Byte>>)

  /** The result is a function of the frames read. */
  function ResultOf(st: Status, x: Session, limit: nat): ExecResult {
    ExecResult(Stdout(x.frames, limit), Stderr(x.frames, limit), ExitCode(st, x.frames), x.stop, Gather(PongPart, x.frames))
  }

  function EffectiveLimit(limitBytes: int): nat {
    if 0 < limitBytes < 1024 * 1024 then limitBytes else 1024 * 1024
  }

  // ---------------------------------------------------------------- the loop

  /** `writeLimited`. */
  method WriteLimited(dst: seq<Byte>, data: seq<Byte>, limit: nat, ghost all: seq<Byte>) returns (r: seq<Byte>)
    requires dst == Truncate(all, limit)
    ensures r == Truncate(all + data, limit)
  {
    var remain := limit - |dst|;
    if remain <= 0 {
      assert (all + data)[..limit] == all[..limit];
      return dst;
    }
    var kept := if |data| > remain then data[..remain] else data;
    r := dst + kept;
  }

  /** The state of the loop after reading the frames `fs`. */
  datatype Buffers = Buffers(stdout: seq<Byte>, stderr: seq<Byte>, exitCode: int, pongs: seq<seq<Byte>>)

  function BuffersOf(st: Status, fs: seq<Frame>, limit: nat): Buffers {
    Buffers(Stdout(fs, limit), Stderr(fs, limit), ExitCode(st, fs), Gather(PongPart, fs))
  }

  /** What one frame does to the buffers. */
  method HandleFrame(st: Status, b: Buffers, f: Frame, limit: nat, ghost fs: seq<Frame>) returns (r: Buffers)
    requires b == BuffersOf(st, fs, limit)
    ensures r == BuffersOf(st, fs + [f], limit)
  {
    GatherOne(StdoutPart, fs, f);
    GatherOne(StderrPart, fs, f);
    GatherOne(PongPart, fs, f);
    assert (fs + [f])[..|fs + [f]| - 1] == fs;
    ghost var out, err := Gather(StdoutPart, fs), Gather(StderrPart, fs);
    r := b;
    if f.opcode == 9 {
      r := b.(pongs := b.pongs + [f.payload]);
    } else if (f.opcode == 1 || f.opcode == 2) && f.payload != [] {
      var channel, data := f.payload[0], f.payload[1..];
      if channel == 1 {
        var stdout := WriteLimited(b.stdout, data, limit, out);
        r := b.(stdout := stdout);
      } else if channel == 2 {
        var stderr := WriteLimited(b.stderr, data, limit, err);
        r := b.(stderr := stderr);
      } else if channel == 3 {
        var stderr := WriteLimited(b.stderr, data, limit, err);
        var code := st.code(data);
        var exitCode := if code != 0 then code else if !st.blank(data) && b.exitCode == 0 then 1 else b.exitCode;
        r := b.(stderr := stderr, exitCode := exitCode);
      }
    }
  }

  /** `readExecWebSocket`; the pongs it writes back are returned in order. */
  method ReadExecWebSocket(r: ByteReader, limitBytes: int, st: Status) returns (res: ExecResult)
    modifies r
    ensures var limit := EffectiveLimit(limitBytes);
            res == ResultOf(st, Listen(old(r.data), [], limit), limit)
  {
    var limit := EffectiveLimit(limitBytes);
    var b := Buffers([], [], 0, []);
    ghost var fs: seq<Frame> := [];
    while |b.stdout| + |b.stderr| < limit
      invariant Listen(old(r.data), [], limit) == Listen(r.data, fs, limit)
      invariant b == BuffersOf(st, fs, limit)
      decreases |r.data|
    {
      var frame := ReadWebSocketFrame(r);
      if frame.Failed? {
        var stop := if frame.error == Eof then EndOfStream else Broken(frame.error);
        return ExecResult(b.stdout, b.stderr, b.exitCode, stop, b.pongs);
      }
      b := HandleFrame(st, b, frame.value, limit, fs);
      fs := fs + [frame.value];
      if frame.value.opcode == 8 {
        return ExecResult(b.stdout, b.stderr, b.exitCode, Closed, b.pongs);
      }
    }
    res := ExecResult(b.stdout, b.stderr, b.exitCode, LimitReached, b.pongs);
  }

  // ---------------------------------------------------------------- bounds

  predicate BelowLimit(fs: seq<Frame>, limit: nat) { |Stdout(fs, limit)| + |Stderr(fs, limit)| < limit }

  lemma {:induction false} ListenBound(s: seq<Byte>, fs: seq<Frame>, limit: nat)
    requires limit >= 1 && |Stdout(fs, limit)| + |Stderr(fs, limit)| <= 2 * limit - 1
    ensures var x := Listen(s, fs, limit);
            |Stdout(x.frames, limit)| + |Stderr(x.frames, limit)| <= 2 * limit - 1
    decreases |s|
  {
    if BelowLimit(fs, limit) {
      var r := ReadFrame(s);
      if r.Ok? {
        if r.value.opcode != 8 { ListenBound(r.rest, fs + [r.value], limit); }
      }
    }
  }

  /** Whatever arrives, each stream is within the limit and both together are below twice it. */
  lemma {:induction false} OutputIsBounded(s: seq<Byte>, limitBytes: int)
    ensures var limit := EffectiveLimit(limitBytes);
            var x := Listen(s, [], limit);
            && |Stdout(x.frames, limit)| <= limit && |Stderr(x.frames, limit)| <= limit
            && |Stdout(x.frames, limit)| + |Stderr(x.frames, limit)| <= 2 * limit - 1
  {
    ListenBound(s, [], EffectiveLimit(limitBytes));
  }

  /** The limit is the one asked for, within a megabyte. */
  lemma {:induction false} LimitIsCapped(limitBytes: int)
    ensures 1 <= EffectiveLimit(limitBytes) <= 0x10_0000
    ensures EffectiveLimit(limitBytes) == limitBytes <==> 1 <= limitBytes <= 0x10_0000
    ensures !(1 <= limitBytes <= 0x10_0000) ==> EffectiveLimit(limitBytes) == 0x10_0000
  {}

  /** What a frame contributes: text and binary frames by the channel in their first byte, pings
      their payload as a pong, everything else nothing. */
  lemma {:induction false} FrameContributes(opcode: Byte, channel: Byte, data: seq<Byte>)
    ensures var f, text := Frame(opcode, [channel] + data), opcode == 1 || opcode == 2;
            && StdoutPart(f) == (if text && channel == 1 then data else [])
            && StderrPart(f) == (if text && (channel == 2 || channel == 3) then data else [])
            && PongPart(f) == (if opcode == 9 then [[channel] + data] else [])
    ensures StdoutPart(Frame(opcode, [])) == [] && StderrPart(Frame(opcode, [])) == []
  {
    assert ([channel] + data)[1..] == data;
  }

  // ---------------------------------------------------------------- nothing is dropped below the limit

  predicate NoClose(fs: seq<Frame>) { forall i :: 0 <= i < |fs| ==> fs[i].opcode != 8 }

  /** While the frames' combined output stays below the limit, the loop reads on. */
  predicate Roomy(fs: seq<Frame>, limit: nat) {
    |Gather(StdoutPart, fs)| + |Gather(StderrPart, fs)| < limit
  }

  lemma {:induction false} RoomyMeansUntruncated(fs: seq<Frame>, limit: nat)
    requires Roomy(fs, limit)
    ensures Stdout(fs, limit) == Gather(StdoutPart, fs) && Stderr(fs, limit) == Gather(StderrPart, fs) && BelowLimit(fs, limit)
  {}

  lemma {:induction false} RoomyPrefix(fs: seq<Frame>, f: Frame, more: seq<Frame>, limit: nat)
    requires Roomy(fs + [f] + more, limit)
    ensures Roomy(fs, limit)
    decreases |more|
  {
    GatherOne(StdoutPart, fs, f);
    GatherOne(StderrPart, fs, f);
    if more == [] {
      assert fs + [f] + more == fs + [f];
    } else {
      var n := |more| - 1;
      assert fs + [f] + more == (fs + [f] + more[..n]) + [more[n]];
      GatherOne(StdoutPart, fs + [f] + more[..n], more[n]);
      GatherOne(StderrPart, fs + [f] + more[..n], more[n]);
      RoomyPrefix(fs, f, more[..n], limit);
    }
  }

  lemma {:induction false} ListenStep(s: seq<Byte>, fs: seq<Frame>, f: Frame, rest: seq<Byte>, limit: nat)
    requires BelowLimit(fs, limit) && ReadFrame(s) == Ok(f, rest)
    ensures Listen(s, fs, limit) == if f.opcode == 8 then Session(fs + [f], Closed) else Listen(rest, fs + [f], limit)
  {}

  lemma {:induction false} ListenToStream(fs: seq<Frame>, ws: seq<Written>, tail: seq<Byte>, limit: nat)
    requires AllSendable(ws) && NoClose(FramesOf(ws)) && Roomy(fs + FramesOf(ws), limit)
    ensures Listen(EncodeAll(ws) + tail, fs, limit) == Listen(tail, fs + FramesOf(ws), limit)
    decreases |ws|
  {
    if ws == [] {
      assert EncodeAll(ws) + tail == tail && fs + FramesOf(ws) == fs;
    } else {
      var w, more := ws[0], EncodeAll(ws[1..]) + tail;
      var f := w.frame;
      var later := FramesOf(ws[1..]);
      assert FramesOf(ws)[0] == f && FramesOf(ws) == [f] + later;
      assert fs + FramesOf(ws) == fs + [f] + later;
      assert NoClose(later) by { assert forall i :: 0 <= i < |later| ==> later[i] == FramesOf(ws)[i + 1]; }
      RoomyPrefix(fs, f, later, limit);
      RoomyMeansUntruncated(fs, limit);
      ConcatAssociative(Encode(f, w.mask), EncodeAll(ws[1..]), tail);
      ReadInvertsEncode(f, w.mask, more);
      ListenStep(Encode(f, w.mask) + more, fs, f, more, limit);
      ListenToStream(fs + [f], ws[1..], tail, limit);
    }
  }

  /** A session whose output stays below the limit is delivered whole: every byte of every
      channel in order, the exit code and the pongs, up to and including the close frame. */
  lemma {:induction false} SmallSessionIsComplete(st: Status, ws: seq<Written>, close: Written, tail: seq<Byte>, limit: nat)
    requires AllSendable(ws) && Sendable(close) && NoClose(FramesOf(ws)) && close.frame.opcode == 8
    requires Roomy(FramesOf(ws), limit)
    ensures var x := Listen(EncodeAll(ws) + (Encode(close.frame, close.mask) + tail), [], limit);
            ResultOf(st, x, limit) == ExecResult(
              Gather(StdoutPart, FramesOf(ws)), Gather(StderrPart, FramesOf(ws)), ExitCode(st, FramesOf(ws)), Closed, Gather(PongPart, FramesOf(ws)))
  {
    var fs := FramesOf(ws);
    var last := Encode(close.frame, close.mask) + tail;
    assert [] + fs == fs;
    ListenToStream([], ws, last, limit);
    RoomyMeansUntruncated(fs, limit);
    ReadInvertsEncode(close.frame, close.mask, tail);
    ListenStep(last, fs, close.frame, tail, limit);
    CloseSaysNothing(st, fs, close.frame);
  }

  lemma {:induction false} CloseSaysNothing(st: Status, fs: seq<Frame>, close: Frame)
    requires close.opcode == 8
    ensures Gather(StdoutPart, fs + [close]) == Gather(StdoutPart, fs) && Gather(StderrPart, fs + [close]) == Gather(StderrPart, fs)
    ensures Gather(PongPart, fs + [close]) == Gather(PongPart, fs) && ExitCode(st, fs + [close]) == ExitCode(st, fs)
  {
    GatherOne(StdoutPart, fs, close);
    GatherOne(StderrPart, fs, close);
    GatherOne(PongPart, fs, close);
    assert (fs + [close])[..|fs + [close]| - 1] == fs;
  }

  // ---------------------------------------------------------------- the bound is reached

  /** `n` bytes of output on one channel. */
  function Chunk(channel: Byte, n: nat): Frame { Frame(2, [channel] + seq(n, i => 0)) }

  lemma {:induction false} ChunkParts(n: nat)
    ensures |StdoutPart(Chunk(1, n))| == n && StderrPart(Chunk(1, n)) == []
    ensures |StderrPart(Chunk(2, n))| == n && StdoutPart(Chunk(2, n)) == []
  {}

  /** For every limit some session yields exactly 2 * limit - 1 bytes: one byte short of the limit
      on one stream, then a full limit on the other. */
  lemma {:induction false} BoundIsReached(limit: nat, mask: Mask, tail: seq<Byte>)
    requires 1 <= limit <= 1024 * 1024 && ValidMask(mask)
    ensures var ws := [Written(Chunk(1, limit - 1), mask), Written(Chunk(2, limit), mask)];
            && AllSendable(ws)
            && var x := Listen(EncodeAll(ws) + tail, [], limit);
               x.stop == LimitReached && |Stdout(x.frames, limit)| + |Stderr(x.frames, limit)| == 2 * limit - 1
  {
    var f, g := Chunk(1, limit - 1), Chunk(2, limit);
    var ws := [Written(f, mask), Written(g, mask)];
    assert Sendable(ws[0]) && Sendable(ws[1]);
    ChunkParts(limit - 1);
    ChunkParts(limit);
    TwoFrames(f, g, limit);
    StopsAfterSecond(ws, tail, limit);
  }

  /** Two frames of which the second reaches the limit are all that is read. */
  lemma {:induction false} StopsAfterSecond(ws: seq<Written>, tail: seq<Byte>, limit: nat)
    requires |ws| == 2 && AllSendable(ws) && ws[0].frame.opcode != 8 && ws[1].frame.opcode != 8
    requires var f, g := ws[0].frame, ws[1].frame; BelowLimit([], limit) && BelowLimit([] + [f], limit) && !BelowLimit([] + [f] + [g], limit)
    ensures Listen(EncodeAll(ws) + tail, [], limit) == Session([] + [ws[0].frame] + [ws[1].frame], LimitReached)
  {
    var f, g, later := ws[0].frame, ws[1].frame, ws[1..];
    assert later[0] == ws[1];
    EncodesFirst(ws, tail);
    EncodesFirst(later, tail);
    ListenStep(EncodeAll(ws) + tail, [], f, EncodeAll(later) + tail, limit);
    ListenStep(EncodeAll(later) + tail, [] + [f], g, EncodeAll(later[1..]) + tail, limit);
  }

  /** The first frame of a stream is read first. */
  lemma {:induction false} EncodesFirst(ws: seq<Written>, tail: seq<Byte>)
    requires ws != [] && AllSendable(ws)
    ensures ReadFrame(EncodeAll(ws) + tail) == Ok(ws[0].frame, EncodeAll(ws[1..]) + tail)
  {
    ConcatAssociative(Encode(ws[0].frame, ws[0].mask), EncodeAll(ws[1..]), tail);
    ReadInvertsEncode(ws[0].frame, ws[0].mask, EncodeAll(ws[1..]) + tail);
  }

  lemma {:induction false} TwoFrames(f: Frame, g: Frame, limit: nat)
    requires limit >= 1 && |StdoutPart(f)| == limit - 1 && StderrPart(f) == [] && |StderrPart(g)| == limit && StdoutPart(g) == []
    ensures BelowLimit([], limit) && BelowLimit([] + [f], limit)
    ensures var fs := [] + [f] + [g]; |Stdout(fs, limit)| == limit - 1 && |Stderr(fs, limit)| == limit
  {
    GatherOne(StdoutPart, [], f);
    GatherOne(StderrPart, [], f);
    GatherOne(StdoutPart, [] + [f], g);
    GatherOne(StderrPart, [] + [f], g);
  }

  // ---------------------------------------------------------------- exit code

  predicate Failure(st: Status, f: Frame) {
    OnChannel(f, 3) && (st.code(f.payload[1..]) != 0 || !st.blank(f.payload[1..]))
  }

  /** The exit code after frames read is zero exactly when none of them reported a failure. */
  lemma {:induction false} ZeroMeansNoFailure(st: Status, fs: seq<Frame>)
    ensures ExitCode(st, fs) == 0 <==> forall i :: 0 <= i < |fs| ==> !Failure(st, fs[i])
  {
    if fs != [] {
      var n := |fs| - 1;
      ZeroMeansNoFailure(st, fs[..n]);
      assert forall i :: 0 <= i < n ==> fs[..n][i] == fs[i];
    }
  }

  /** The exit code that further frames lead to. */
  function ExitFrom(st: Status, code: int, fs: seq<Frame>): int {
    if fs == [] then code else ExitStep(st, ExitFrom(st, code, fs[..|fs| - 1]), fs[|fs| - 1])
  }

  lemma {:induction false} ExitOfConcat(st: Status, fs: seq<Frame>, more: seq<Frame>)
    ensures ExitCode(st, fs + more) == ExitFrom(st, ExitCode(st, fs), more)
  {
    if more == [] {
      assert fs + more == fs;
    } else {
      assert (fs + more)[..|fs + more| - 1] == fs + more[..|more| - 1];
      ExitOfConcat(st, fs, more[..|more| - 1]);
    }
  }

  predicate Codes(st: Status, f: Frame) { OnChannel(f, 3) && st.code(f.payload[1..]) != 0 }

  /** Frames after which the exit code stands as it was: the last code among them repeats it, or
      they carry no code and, unless it was set already, no failure. */
  ghost predicate Unmoved(st: Status, code: int, fs: seq<Frame>) {
    || (exists i :: LastCodeAt(st, fs, i) && st.code(fs[i].payload[1..]) == code)
    || (NoCodes(st, fs) && (code != 0 || forall i :: 0 <= i < |fs| ==> !Failure(st, fs[i])))
  }

  predicate NoCodes(st: Status, fs: seq<Frame>) { forall i :: 0 <= i < |fs| ==> !Codes(st, fs[i]) }

  predicate LastCodeAt(st: Status, fs: seq<Frame>, i: int) {
    0 <= i < |fs| && Codes(st, fs[i]) && forall j :: i < j < |fs| ==> !Codes(st, fs[j])
  }

  /** The last code wins. */
  lemma {:induction false} LastCodeWins(st: Status, code: int, fs: seq<Frame>, i: nat)
    requires LastCodeAt(st, fs, i)
    ensures ExitFrom(st, code, fs) == st.code(fs[i].payload[1..])
  {
    if i < |fs| - 1 {
      LastCodeWins(st, code, fs[..|fs| - 1], i);
    }
  }

  /** Without any code, a failure turns zero into one. */
  lemma {:induction false} WithoutCodes(st: Status, code: int, fs: seq<Frame>)
    requires NoCodes(st, fs)
    ensures ExitFrom(st, code, fs) == if code == 0 && exists i :: 0 <= i < |fs| && Failure(st, fs[i]) then 1 else code
  {
    if fs != [] {
      var n := |fs| - 1;
      assert forall i :: 0 <= i < n ==> fs[..n][i] == fs[i];
      WithoutCodes(st, code, fs[..n]);
    }
  }

  lemma {:induction false} LastCodeExists(st: Status, fs: seq<Frame>)
    ensures NoCodes(st, fs) || exists i :: LastCodeAt(st, fs, i)
  {
    if fs != [] {
      var n := |fs| - 1;
      var init := fs[..n];
      LastCodeExists(st, init);
      assert forall i :: 0 <= i < n ==> init[i] == fs[i];
      if Codes(st, fs[n]) {
        assert LastCodeAt(st, fs, n);
      } else if i :| LastCodeAt(st, init, i) {
        assert LastCodeAt(st, fs, i);
      }
    }
  }

  lemma {:induction false} UnmovedExactlyWhen(st: Status, code: int, fs: seq<Frame>)
    ensures ExitFrom(st, code, fs) == code <==> Unmoved(st, code, fs)
  {
    LastCodeExists(st, fs);
    if NoCodes(st, fs) { WithoutCodes(st, code, fs); }
    forall i | LastCodeAt(st, fs, i) ensures ExitFrom(st, code, fs) == st.code(fs[i].payload[1..]) { LastCodeWins(st, code, fs, i); }
  }

  /** The frames of a session: those up to the first close frame. */
  function Spoken(fs: seq<Frame>): seq<Frame> {
    if fs == [] then [] else if fs[0].opcode == 8 then [fs[0]] else [fs[0]] + Spoken(fs[1..])
  }

  /** After `fs`, the reader reads the first `k` of the frames `rest` and stops short of the others
      only at the limit. */
  ghost predicate ReadsTo(x: Session, fs: seq<Frame>, rest: seq<Frame>, k: int, limit: nat) {
    && 0 <= k <= |rest| && x.frames == fs + rest[..k]
    && (k < |rest| ==> x.stop == LimitReached && !BelowLimit(fs + rest[..k], limit))
    && (forall j :: 0 <= j < k ==> BelowLimit(fs + rest[..j], limit))
  }

  lemma {:induction false} ReadsOneMore(x: Session, fs: seq<Frame>, f: Frame, tail: seq<Frame>, k: nat, limit: nat)
    requires BelowLimit(fs, limit) && ReadsTo(x, fs + [f], tail, k, limit)
    ensures ReadsTo(x, fs, [f] + tail, k + 1, limit)
  {
    var rest := [f] + tail;
    forall j | 0 <= j <= |tail| ensures fs + rest[..j + 1] == fs + [f] + tail[..j] { assert rest[..j + 1] == [f] + tail[..j]; }
    forall j | 0 <= j < k + 1 ensures BelowLimit(fs + rest[..j], limit) {
      if j == 0 { assert fs + rest[..0] == fs; } else { assert fs + rest[..j - 1 + 1] == fs + [f] + tail[..j - 1]; }
    }
  }

  lemma {:induction false} ReadsPrefix(fs: seq<Frame>, ws: seq<Written>, limit: nat) returns (k: nat)
    requires AllSendable(ws)
    ensures ReadsTo(Listen(EncodeAll(ws), fs, limit), fs, Spoken(FramesOf(ws)), k, limit)
    decreases |ws|
  {
    if ws == [] || !BelowLimit(fs, limit) {
      k := 0;
      assert fs + Spoken(FramesOf(ws))[..0] == fs;
    } else {
      var w, later := ws[0], EncodeAll(ws[1..]);
      var f := w.frame;
      assert FramesOf(ws)[0] == f && FramesOf(ws)[1..] == FramesOf(ws[1..]);
      ReadInvertsEncode(f, w.mask, later);
      ListenStep(EncodeAll(ws), fs, f, later, limit);
      if f.opcode == 8 {
        k := 1;
        assert fs + [f][..0] == fs && [f][..1] == [f];
      } else {
        var m := ReadsPrefix(fs + [f], ws[1..], limit);
        ReadsOneMore(Listen(later, fs + [f], limit), fs, f, Spoken(FramesOf(ws[1..])), m, limit);
        k := m + 1;
      }
    }
  }

  /** Of a whole session the reader reads the frames up to the one that reaches the limit. The exit
      code it reports is that of the whole session if and only if the frames left unread would not
      move it. */
  lemma {:induction false} ReportedCodeExactlyWhen(st: Status, ws: seq<Written>, limit: nat) returns (k: nat)
    requires AllSendable(ws)
    ensures var x, fs := Listen(EncodeAll(ws), [], limit), Spoken(FramesOf(ws));
            && k <= |fs| && x.frames == fs[..k] && (k < |fs| ==> x.stop == LimitReached && !BelowLimit(fs[..k], limit))
            && (forall j :: 0 <= j < k ==> BelowLimit(fs[..j], limit))
            && (ResultOf(st, x, limit).exitCode == ExitCode(st, fs) <==> Unmoved(st, ExitCode(st, fs[..k]), fs[k..]))
  {
    k := ReadsPrefix([], ws, limit);
    var fs := Spoken(FramesOf(ws));
    forall j | 0 <= j <= k ensures [] + fs[..j] == fs[..j] {}
    assert fs == fs[..k] + fs[k..];
    ExitOfConcat(st, fs[..k], fs[k..]);
    UnmovedExactlyWhen(st, ExitCode(st, fs[..k]), fs[k..]);
  }

  /** A failing status frame right after output that fills the limit is not read: the result has
      exit code zero although the command failed. */
  lemma {:induction false} FailureLeftUnread(st: Status, limit: nat, mask: Mask, status: Frame)
    requires 1 <= limit <= 1024 * 1024 && ValidMask(mask) && Sendable(Written(status, mask)) && Failure(st, status)
    ensures var ws := [Written(Chunk(1, limit), mask), Written(status, mask)];
            && AllSendable(ws)
            && var r := ResultOf(st, Listen(EncodeAll(ws), [], limit), limit);
               r.exitCode == 0 && r.error == LimitReached && ExitCode(st, FramesOf(ws)) != 0
  {
    var f := Chunk(1, limit);
    var ws := [Written(f, mask), Written(status, mask)];
    assert Sendable(ws[0]) && Sendable(ws[1]);
    ChunkFillsLimit(st, limit);
    StopsAfterFirst(ws, limit);
    ZeroMeansNoFailure(st, FramesOf(ws));
    assert FramesOf(ws)[1] == status;
  }

  /** A first frame that reaches the limit is the only one read. */
  lemma {:induction false} StopsAfterFirst(ws: seq<Written>, limit: nat)
    requires ws != [] && AllSendable(ws) && ws[0].frame.opcode != 8 && BelowLimit([], limit) && !BelowLimit([] + [ws[0].frame], limit)
    ensures Listen(EncodeAll(ws), [], limit) == Session([] + [ws[0].frame], LimitReached)
  {
    var f, rest := ws[0].frame, EncodeAll(ws[1..]);
    ReadInvertsEncode(f, ws[0].mask, rest);
    ListenStep(EncodeAll(ws), [], f, rest, limit);
  }

  lemma {:induction false} ChunkFillsLimit(st: Status, limit: nat)
    requires limit >= 1
    ensures var f := Chunk(1, limit); BelowLimit([], limit) && !BelowLimit([] + [f], limit) && ExitCode(st, [] + [f]) == 0
  {
    var f := Chunk(1, limit);
    ChunkParts(limit);
    GatherOne(StdoutPart, [], f);
    GatherOne(StderrPart, [], f);
    assert ([] + [f])[..0] == [];
  }
}
