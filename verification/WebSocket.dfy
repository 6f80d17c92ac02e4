/** WebSocket framing of the exec client, after sections 5.2 and 5.3 of RFC 6455. */
module WebSocket {
  import opened Text

  type Byte = b: int | 0 <= b < 256

  const MAX_FRAME := 16 * 1024 * 1024

  // ---------------------------------------------------------------- bytes

  function Pow2(k: nat): (r: nat)
    ensures r >= 1
  {
    if k == 0 then 1 else 2 * Pow2(k - 1)
  }

  /** Exclusive or of the low `k` bits. */
  function XorBits(k: nat, a: nat, b: nat): (r: nat)
    ensures r < Pow2(k)
  {
    if k == 0 then 0 else (if a % 2 == b % 2 then 0 else 1) + 2 * XorBits(k - 1, a / 2, b / 2)
  }

  lemma {:induction false} XorInvolutive(k: nat, a: nat, b: nat)
    requires a < Pow2(k)
    ensures XorBits(k, XorBits(k, a, b), b) == a
  {
    if k > 0 {
      XorInvolutive(k - 1, a / 2, b / 2);
      var x := XorBits(k, a, b);
      assert x / 2 == XorBits(k - 1, a / 2, b / 2);
    }
  }

  function Xor(a: Byte, b: Byte): Byte {
    XorBits(8, a, b)
  }

  function Pow256(k: nat): (r: nat)
    ensures r >= 1
  {
    if k == 0 then 1 else 256 * Pow256(k - 1)
  }

  /** `v` in `k` bytes, most significant first. */
  function BigEndian(k: nat, v: nat): (bs: seq<Byte>)
    ensures |bs| == k
  {
    if k == 0 then [] else BigEndian(k - 1, v / 256) + [v % 256]
  }

  function Unsigned(bs: seq<Byte>): nat {
    if bs == [] then 0 else 256 * Unsigned(bs[..|bs| - 1]) + bs[|bs| - 1]
  }

  lemma {:induction false} BigEndianRoundTrip(k: nat, v: nat)
    requires v < Pow256(k)
    ensures Unsigned(BigEndian(k, v)) == v
  {
    if k > 0 {
      BigEndianRoundTrip(k - 1, v / 256);
      var bs := BigEndian(k, v);
      assert bs[..|bs| - 1] == BigEndian(k - 1, v / 256);
    }
  }

  lemma {:induction false} UnsignedBound(bs: seq<Byte>)
    ensures Unsigned(bs) < Pow256(|bs|)
  {
    if bs != [] { UnsignedBound(bs[..|bs| - 1]); }
  }

  // ---------------------------------------------------------------- writing

  datatype Frame = Frame(opcode: Byte, payload: seq<Byte>)

  /** A masking key, or none on frames a server sends. */
  datatype Mask = NoMask | Key(key: seq<Byte>)

  predicate ValidMask(m: Mask) { m.Key? ==> |m.key| == 4 }

  function KeyBytes(m: Mask): seq<Byte> { if m.Key? then m.key else [] }

  function Apply(m: Mask, payload: seq<Byte>): (r: seq<Byte>)
    requires ValidMask(m)
    ensures |r| == |payload|
  {
    if m.NoMask? then payload else seq(|payload|, i requires 0 <= i < |payload| => Xor(payload[i], m.key[i % 4]))
  }

  lemma {:induction false} MaskingIsItsOwnInverse(m: Mask, payload: seq<Byte>)
    requires ValidMask(m)
    ensures Apply(m, Apply(m, payload)) == payload
  {
    if m.Key? {
      var once := Apply(m, payload);
      forall i | 0 <= i < |payload| ensures Apply(m, once)[i] == payload[i] {
        XorInvolutive(8, payload[i], m.key[i % 4]);
      }
    }
  }

  function MaskBit(m: Mask): int { if m.Key? then 128 else 0 }

  /** The length field in the shortest of its three forms. */
  function LengthField(m: Mask, n: nat): (bs: seq<Byte>)
    requires n < 0x8000_0000_0000_0000
  {
    if n < 126 then [MaskBit(m) + n] else
    if n <= 0xffff then [MaskBit(m) + 126] + BigEndian(2, n) else
    [MaskBit(m) + 127] + BigEndian(8, n)
  }

  function SetHighBit(b: Byte): Byte { if b < 128 then b + 128 else b }

  function Header(f: Frame, m: Mask): seq<Byte>
    requires |f.payload| < 0x8000_0000_0000_0000
  {
    [SetHighBit(f.opcode)] + LengthField(m, |f.payload|) + KeyBytes(m)
  }

  /** The bytes of a frame: final bit and opcode, length, key, masked payload. */
  function Encode(f: Frame, m: Mask): seq<Byte>
    requires ValidMask(m) && |f.payload| < 0x8000_0000_0000_0000
  {
    Header(f, m) + Apply(m, f.payload)
  }

  class ByteWriter {
    var data: seq<Byte>

    constructor ()
      ensures data == []
    {
      data := [];
    }

    method Write(bs: seq<Byte>)
      modifies this
      ensures data == old(data) + bs
    {
      data := data + bs;
    }
  }

  /** `writeWebSocketFrame` with the random key as an input. */
  method WriteWebSocketFrame(w: ByteWriter, opcode: Byte, payload: seq<Byte>, key: seq<Byte>)
    requires |key| == 4 && |payload| < 0x8000_0000_0000_0000
    modifies w
    ensures w.data == old(w.data) + Encode(Frame(opcode, payload), Key(key))
  {
    var h: seq<Byte> := [SetHighBit(opcode)];
    var l := |payload|;
    if l < 126 {
      h := h + [128 + l];
    } else if l <= 0xffff {
      h := h + ([254] + BigEndian(2, l));
    } else {
      h := h + ([255] + BigEndian(8, l));
    }
    h := h + key;
    assert h == Header(Frame(opcode, payload), Key(key));
    var masked := new Byte[l];
    for i := 0 to l
      invariant w.data == old(w.data)
      invariant forall j :: 0 <= j < i ==> masked[j] == Xor(payload[j], key[j % 4])
    {
      masked[i] := Xor(payload[i], key[i % 4]);
    }
    var body := masked[..];
    assert body == Apply(Key(key), payload);
    w.Write(h);
    w.Write(body);
    ConcatAssociative(old(w.data), h, body);
  }

  // ---------------------------------------------------------------- reading

  datatype ReadError = Eof | UnexpectedEof | TooLarge

  datatype Read<T> = Ok(value: T, rest: seq<Byte>) | Failed(error: ReadError)

  /** `io.ReadFull`: an empty buffer always succeeds, and a stream cut before the first byte
      reads as a clean end. */
  function TakeFull(s: seq<Byte>, n: nat): Read<seq<Byte>> {
    if n <= |s| then Ok(s[..n], s[n..]) else
    if s == [] then Failed(Eof) else Failed(UnexpectedEof)
  }

  /** Go's conversion from uint64 to int64. */
  function Signed64(v: nat): int
    requires v < 0x1_0000_0000_0000_0000
  {
    if v < 0x8000_0000_0000_0000 then v else v - 0x1_0000_0000_0000_0000
  }

  /** The payload length announced by the second header byte and what follows it. */
  function TakeLength(code: int, s: seq<Byte>): Read<int>
    requires 0 <= code < 128
  {
    if code < 126 then Ok(code, s) else
    var k := if code == 126 then 2 else 8;
    match TakeFull(s, k)
    case Failed(e) => Failed(e)
    case Ok(bs, rest) =>
      UnsignedBound(bs);
      Ok(if code == 126 then Unsigned(bs) else Signed64(Unsigned(bs)), rest)
  }

  function TakeMask(masked: bool, s: seq<Byte>): (r: Read<Mask>)
    ensures r.Ok? ==> ValidMask(r.value) && r.value.Key? == masked
  {
    if !masked then Ok(NoMask, s) else
    match TakeFull(s, 4)
    case Failed(e) => Failed(e)
    case Ok(bs, rest) => Ok(Key(bs), rest)
  }

  function TakePayload(m: Mask, n: nat, s: seq<Byte>): Read<seq<Byte>>
    requires ValidMask(m)
  {
    match TakeFull(s, n)
    case Failed(e) => Failed(e)
    case Ok(bs, rest) => Ok(Apply(m, bs), rest)
  }

  /** What remains of a frame once its length is known: the key and the payload. */
  function ReadBody(opcode: Byte, masked: bool, n: int, s: seq<Byte>): (r: Read<Frame>)
    ensures r.Ok? ==> |r.rest| <= |s|
  {
    if n < 0 || n > MAX_FRAME then Failed(TooLarge) else
    match TakeMask(masked, s)
    case Failed(e) => Failed(e)
    case Ok(m, s1) =>
      match TakePayload(m, n, s1)
      case Failed(e) => Failed(e)
      case Ok(p, s2) => Ok(Frame(opcode, p), s2)
  }

  /** `readWebSocketFrame` on the bytes still to come. */
  function ReadFrame(s: seq<Byte>): (r: Read<Frame>)
    ensures r.Ok? ==> |r.rest| < |s|
  {
    match TakeFull(s, 2)
    case Failed(e) => Failed(e)
    case Ok(h, s1) =>
      match TakeLength(h[1] % 128, s1)
      case Failed(e) => Failed(e)
      case Ok(n, s2) => ReadBody(h[0] % 16, h[1] >= 128, n, s2)
  }

  class ByteReader {
    var data: seq<Byte>

    constructor (bytes: seq<Byte>)
      ensures data == bytes
    {
      data := bytes;
    }

    /** Consumes what it delivers; on failure the remaining bytes are gone too. */
    method ReadFull(n: nat) returns (r: Read<seq<Byte>>)
      modifies this
      ensures r == TakeFull(old(data), n)
      ensures data == if r.Ok? then r.rest else []
    {
      r := TakeFull(data, n);
      data := if r.Ok? then r.rest else [];
    }
  }

  method UnmaskInPlace(a: array<Byte>, key: seq<Byte>)
    requires |key| == 4
    modifies a
    ensures a[..] == Apply(Key(key), old(a[..]))
  {
    for i := 0 to a.Length
      invariant forall j :: 0 <= j < i ==> a[j] == Xor(old(a[j]), key[j % 4])
      invariant forall j :: i <= j < a.Length ==> a[j] == old(a[j])
    {
      a[i] := Xor(a[i], key[i % 4]);
    }
  }

  /** The second half of `readWebSocketFrame`. */
  method ReadKeyAndPayload(r: ByteReader, opcode: Byte, masked: bool, length: int) returns (res: Read<Frame>)
    modifies r
    ensures res == ReadBody(opcode, masked, length, old(r.data))
    ensures res.Ok? ==> r.data == res.rest
  {
    if length < 0 || length > MAX_FRAME { return Failed(TooLarge); }
    var mask := NoMask;
    if masked {
      var k := r.ReadFull(4);
      if k.Failed? { return Failed(k.error); }
      mask := Key(k.value);
    }
    var p := r.ReadFull(length);
    if p.Failed? { return Failed(p.error); }
    var bytes := p.value;
    if masked {
      var payload := new Byte[length](i requires 0 <= i < length => bytes[i]);
      assert payload[..] == bytes;
      UnmaskInPlace(payload, mask.key);
      bytes := payload[..];
    }
    res := Ok(Frame(opcode, bytes), r.data);
  }

  method ReadWebSocketFrame(r: ByteReader) returns (res: Read<Frame>)
    modifies r
    ensures res == ReadFrame(old(r.data))
    ensures res.Ok? ==> r.data == res.rest
  {
    var h := r.ReadFull(2);
    if h.Failed? { return Failed(h.error); }
    var opcode, masked, length := h.value[0] % 16, h.value[1] >= 128, h.value[1] % 128;
    if length == 126 {
      var b := r.ReadFull(2);
      if b.Failed? { return Failed(b.error); }
      length := Unsigned(b.value);
    } else if length == 127 {
      var b := r.ReadFull(8);
      if b.Failed? { return Failed(b.error); }
      UnsignedBound(b.value);
      length := Signed64(Unsigned(b.value));
    }
    res := ReadKeyAndPayload(r, opcode, masked, length);
  }
}
