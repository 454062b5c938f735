/** The server side of the WebSocket frame codec: sections 5.2 (framing) and 5.3 (masking) of RFC 6455. */
module WebSocket {
  import opened Common

  type Wire = seq<bv8>

  const MAX_FRAME := 1048576
  const BINARY: bv8 := 0x2
  const CLOSE: bv8 := 0x8
  const TWO_63 := 0x8000_0000_0000_0000
  const TWO_64 := 0x1_0000_0000_0000_0000

  datatype Frame = Frame(opcode: bv8, payload: Wire)

  /** NegativeLength stands for the panic of allocating a payload whose 64-bit length has its sign bit set. */
  datatype WsError = Eof | TooLarge | NotMasked | NegativeLength | BinaryFrame | Fragmented

  // ---------- numbers on the wire ----------

  function BigEndian(bytes: Wire): (n: nat) {
    if bytes == [] then 0 else BigEndian(bytes[..|bytes| - 1]) * 256 + bytes[|bytes| - 1] as int
  }

  function ToBigEndian(n: nat, width: nat): (bytes: Wire)
    ensures |bytes| == width
  {
    if width == 0 then [] else ToBigEndian(n / 256, width - 1) + [(n % 256) as bv8]
  }

  function Pow256(width: nat): nat {
    if width == 0 then 1 else 256 * Pow256(width - 1)
  }

  lemma {:induction false} BigEndianRoundTrip(n: nat, width: nat)
    requires n < Pow256(width)
    ensures BigEndian(ToBigEndian(n, width)) == n
  {
    if width > 0 {
      BigEndianRoundTrip(n / 256, width - 1);
      var bytes := ToBigEndian(n, width);
      assert bytes[..width - 1] == ToBigEndian(n / 256, width - 1);
      ByteRoundTrip(n % 256);
    }
  }

  lemma ByteRoundTrip(n: nat)
    requires n < 256
    ensures (n as bv8) as int == n
  {
    var b := ByteOf(n);
    IntRoundTrip(b);
  }

  lemma {:induction false} ByteOf(n: nat) returns (b: bv8)
    requires n < 256
    ensures b as int == n
  {
    b := 0;
    if n > 0 {
      var c := ByteOf(n - 1);
      NextByte(c);
      b := c + 1;
    }
  }

  lemma NextByte(b: bv8)
    requires b != 255
    ensures (b + 1) as int == b as int + 1
  {
  }

  lemma IntRoundTrip(b: bv8)
    ensures (b as int) as bv8 == b
  {
  }

  /** A 64-bit length is read as a signed number. */
  function Int64(n: nat): int {
    if n < TWO_63 then n else n - TWO_64
  }

  // ---------- masking ----------

  function Masked(p: Wire, key: Wire): Wire
    requires |key| == 4
  {
    seq(|p|, i requires 0 <= i < |p| => p[i] ^ key[i % 4])
  }

  lemma MaskTwice(p: Wire, key: Wire)
    requires |key| == 4
    ensures Masked(Masked(p, key), key) == p
  {
    forall i | 0 <= i < |p| ensures Masked(Masked(p, key), key)[i] == p[i] {
      XorTwice(p[i], key[i % 4]);
    }
  }

  lemma XorTwice(a: bv8, k: bv8)
    ensures (a ^ k) ^ k == a
  {
  }

  // ---------- the frame layout ----------

  /** The header of a final frame: a length below 126 in place, up to 65535 in two bytes, beyond that in eight. */
  function Header(opcode: bv8, n: nat): (h: Wire)
    ensures |h| >= 2
  {
    if n < 126 then [0x80 | opcode, n as bv8]
    else if n <= 0xffff then [0x80 | opcode, 126] + ToBigEndian(n, 2)
    else [0x80 | opcode, 127] + ToBigEndian(n, 8)
  }

  function ServerFrame(f: Frame): Wire {
    Header(f.opcode, |f.payload|) + f.payload
  }

  /** The same header with the mask bit set, the masking key and the masked payload. */
  function ClientFrame(f: Frame, key: Wire): Wire
    requires |key| == 4
  {
    var h := Header(f.opcode, |f.payload|);
    MarkMasked(h) + key + Masked(f.payload, key)
  }

  // ---------- reading as a function of the stream ----------

  function ExtendedBytes(b: bv8): nat {
    if b & 0x7f == 126 then 2 else if b & 0x7f == 127 then 8 else 0
  }

  /** The outcome of reading one frame and what is left of the stream; a short read drains it. */
  function Parse(s: Wire): (r: (Result<Frame, WsError>, Wire))
    ensures r.0.Ok? ==> |r.1| < |s| && |r.0.value.payload| <= MAX_FRAME
  {
    if |s| < 2 then (Err(Eof), [])
    else
      var ext := ExtendedBytes(s[1]);
      if |s| < 2 + ext then (Err(Eof), [])
      else
        var length := if ext == 0 then (s[1] & 0x7f) as int else Int64(BigEndian(s[2..2 + ext]));
        ParseBody(s[0], s[1], length, s[2 + ext..])
  }

  function ParseBody(b0: bv8, b1: bv8, length: int, s: Wire): (r: (Result<Frame, WsError>, Wire))
    ensures r.0.Ok? ==> |r.1| <= |s| && |r.0.value.payload| <= MAX_FRAME
  {
    if length > MAX_FRAME then (Err(TooLarge), s)
    else if b1 & 0x80 == 0 then (Err(NotMasked), s)
    else if |s| < 4 then (Err(Eof), [])
    else if length < 0 then (Err(NegativeLength), s[4..])
    else if |s| < 4 + length then (Err(Eof), [])
    else
      var payload := Masked(s[4..4 + length], s[..4]);
      if b0 & 0x0f == BINARY then (Err(BinaryFrame), s[4 + length..])
      else if b0 & 0x80 == 0 && b0 & 0x0f < CLOSE then (Err(Fragmented), s[4 + length..])
      else (Ok(Frame(b0 & 0x0f, payload)), s[4 + length..])
  }

  /** All frames read before the first error, and what is left of the stream where it occurred. */
  function ReadAll(s: Wire): (seq<Frame>, WsError, Wire)
    decreases |s|
  {
    var (r, rest) := Parse(s);
    if r.Err? then ([], r.error, rest)
    else
      var (frames, e, left) := ReadAll(rest);
      ([r.value] + frames, e, left)
  }

  // ---------- the connection ----------

  class Conn {
    var inp: Wire
    var out: Wire

    constructor (inp: Wire)
      ensures this.inp == inp && out == []
    {
      this.inp, out := inp, [];
    }

    /** Takes exactly n bytes, or drains what there is. */
    method ReadFull(n: nat) returns (r: Option<Wire>)
      modifies this`inp
      ensures n <= |old(inp)| ==> r == Some(old(inp)[..n]) && inp == old(inp)[n..]
      ensures n > |old(inp)| ==> r == None && inp == []
    {
      if n > |inp| {
        inp := [];
        return None;
      }
      r := Some(inp[..n]);
      inp := inp[n..];
    }

    method ReadFrame() returns (r: Result<Frame, WsError>)
      modifies this`inp
      ensures (r, inp) == Parse(old(inp))
    {
      var hdr := ReadFull(2);
      if hdr.None? {
        return Err(Eof);
      }
      var b0, b1 := hdr.value[0], hdr.value[1];
      var length := (b1 & 0x7f) as int;
      LowBits(b1);
      if length == 126 {
        var b := ReadFull(2);
        if b.None? {
          return Err(Eof);
        }
        length := BigEndian(b.value);
        TwoBytes(b.value);
        assert b.value == old(inp)[2..4];
      } else if length == 127 {
        var b := ReadFull(8);
        if b.None? {
          return Err(Eof);
        }
        length := Int64(BigEndian(b.value));
        assert b.value == old(inp)[2..10];
      }
      r := ReadBody(b0, b1, length);
    }

    method ReadBody(b0: bv8, b1: bv8, length: int) returns (r: Result<Frame, WsError>)
      modifies this`inp
      ensures (r, inp) == ParseBody(b0, b1, length, old(inp))
    {
      if length > MAX_FRAME {
        return Err(TooLarge);
      }
      if b1 & 0x80 == 0 {
        return Err(NotMasked);
      }
      var key := ReadFull(4);
      if key.None? {
        return Err(Eof);
      }
      if length < 0 {
        return Err(NegativeLength);
      }
      var body := ReadFull(length);
      if body.None? {
        return Err(Eof);
      }
      var payload := new bv8[length](i requires 0 <= i < length => body.value[i]);
      assert payload[..] == body.value == old(inp)[4..4 + length];
      Unmask(payload, key.value);
      assert old(inp)[4..][length..] == old(inp)[4 + length..];
      if b0 & 0x0f == BINARY {
        return Err(BinaryFrame);
      }
      if b0 & 0x80 == 0 && b0 & 0x0f < CLOSE {
        return Err(Fragmented);
      }
      return Ok(Frame(b0 & 0x0f, payload[..]));
    }

    method WriteFrame(opcode: bv8, payload: Wire)
      modifies this`out
      ensures out == old(out) + ServerFrame(Frame(opcode, payload))
    {
      var hdr := BuildHeader(opcode, |payload|);
      out := out + hdr;
      out := out + payload;
    }
  }

  method BuildHeader(opcode: bv8, n: nat) returns (h: Wire)
    ensures h == Header(opcode, n)
  {
    var hdr := new bv8[10](_ => 0);
    hdr[0] := 0x80 | opcode;
    if n < 126 {
      hdr[1] := n as bv8;
      h := hdr[..2];
    } else if n <= 0xffff {
      hdr[1] := 126;
      PutBigEndian(hdr, 2, 4, n);
      h := hdr[..4];
      assert h[2..] == hdr[2..4];
    } else {
      hdr[1] := 127;
      PutBigEndian(hdr, 2, 10, n);
      h := hdr[..10];
      assert h[2..] == hdr[2..10];
    }
  }

  method Unmask(payload: array<bv8>, key: Wire)
    requires |key| == 4
    modifies payload
    ensures payload[..] == Masked(old(payload[..]), key)
  {
    for i := 0 to payload.Length
      invariant forall k :: 0 <= k < i ==> payload[k] == old(payload[k]) ^ key[k % 4]
      invariant forall k :: i <= k < payload.Length ==> payload[k] == old(payload[k])
    {
      payload[i] := payload[i] ^ key[i % 4];
    }
  }

  /** Writes n into a[lo..hi], most significant byte first. */
  method PutBigEndian(a: array<bv8>, lo: nat, hi: nat, n: nat)
    requires lo <= hi <= a.Length
    modifies a
    ensures a[lo..hi] == ToBigEndian(n, hi - lo)
    ensures forall k :: 0 <= k < a.Length && !(lo <= k < hi) ==> a[k] == old(a[k])
  {
    var i, m := hi, n;
    while i > lo
      invariant lo <= i <= hi
      invariant ToBigEndian(n, hi - lo) == ToBigEndian(m, i - lo) + a[i..hi]
      invariant forall k :: 0 <= k < a.Length && !(lo <= k < hi) ==> a[k] == old(a[k])
    {
      ghost var tail := a[i..hi];
      i := i - 1;
      a[i] := (m % 256) as bv8;
      assert a[i..hi] == [a[i]] + tail;
      m := m / 256;
    }
  }

  lemma LowBits(b: bv8)
    ensures (b & 0x7f == 126) == ((b & 0x7f) as int == 126)
    ensures (b & 0x7f == 127) == ((b & 0x7f) as int == 127)
  {
  }

  lemma TwoBytes(b: Wire)
    requires |b| == 2
    ensures BigEndian(b) < 65536 && Int64(BigEndian(b)) == BigEndian(b)
  {
    assert BigEndian(b[..1]) == BigEndian(b[..1][..0]) * 256 + b[0] as int;
  }

  // ---------- the codec ----------

  /** The opcodes that reading accepts in a final frame: text, close, ping, pong, and any other but binary. */
  predicate Accepted(f: Frame) {
    f.opcode < 16 && f.opcode != BINARY && |f.payload| <= MAX_FRAME
  }

  lemma OpcodeBits(op: bv8)
    requires op < 16
    ensures (0x80 | op) & 0x0f == op && (0x80 | op) & 0x80 != 0
  {
  }

  function MarkMasked(h: Wire): Wire
    requires |h| >= 2
  {
    h[1 := h[1] | 0x80]
  }

  lemma ParseShort(b0: bv8, b1: bv8, rest: Wire)
    requires ExtendedBytes(b1) == 0
    ensures Parse([b0, b1] + rest) == ParseBody(b0, b1, (b1 & 0x7f) as int, rest)
  {
    assert ([b0, b1] + rest)[2..] == rest;
  }

  lemma ParseExtended(b0: bv8, b1: bv8, len: Wire, rest: Wire)
    requires ExtendedBytes(b1) == |len| > 0
    ensures Parse([b0, b1] + len + rest) == ParseBody(b0, b1, Int64(BigEndian(len)), rest)
  {
    var s := [b0, b1] + len + rest;
    assert s[2..2 + |len|] == len && s[2 + |len|..] == rest;
  }

  lemma MaskBits(b1: bv8, mask: bool)
    requires b1 < 128
    ensures var m := Second(b1, mask);
            m & 0x7f == b1 && (m & 0x80 != 0) == mask
  {
  }

  function Second(b: bv8, mask: bool): bv8 {
    if mask then b | 0x80 else b
  }

  lemma ShortHeader(b0: bv8, n: nat, mask: bool, rest: Wire)
    requires n < 126
    ensures var b1 := Second(n as bv8, mask);
            Parse([b0, b1] + rest) == ParseBody(b0, b1, n, rest) && (b1 & 0x80 != 0) == mask
  {
    SmallByte(n);
    MaskBits(n as bv8, mask);
    ParseShort(b0, Second(n as bv8, mask), rest);
  }

  lemma LongHeader(b0: bv8, n: nat, width: nat, mask: bool, rest: Wire)
    requires n <= MAX_FRAME && (width == 8 || (width == 2 && n <= 0xffff))
    ensures var b1 := Second(if width == 2 then 126 else 127, mask);
            && Parse([b0, b1] + ToBigEndian(n, width) + rest) == ParseBody(b0, b1, n, rest)
            && (b1 & 0x80 != 0) == mask
  {
    var b: bv8 := if width == 2 then 126 else 127;
    Powers();
    BigEndianRoundTrip(n, width);
    MaskBits(b, mask);
    ParseExtended(b0, Second(b, mask), ToBigEndian(n, width), rest);
  }

  /** What the length fields of a header say, with or without the mask bit. */
  lemma HeaderLength(op: bv8, n: nat, mask: bool, rest: Wire)
    requires n <= MAX_FRAME
    ensures var h := if mask then MarkMasked(Header(op, n)) else Header(op, n);
            && Parse(h + rest) == ParseBody(0x80 | op, h[1], n, rest)
            && (h[1] & 0x80 != 0) == mask
  {
    HeaderBytes(op, n, mask);
    if n < 126 {
      ShortHeader(0x80 | op, n, mask, rest);
    } else {
      LongHeader(0x80 | op, n, if n <= 0xffff then 2 else 8, mask, rest);
    }
  }

  lemma HeaderBytes(op: bv8, n: nat, mask: bool)
    requires n <= MAX_FRAME
    ensures (if mask then MarkMasked(Header(op, n)) else Header(op, n)) ==
            if n < 126 then [0x80 | op, Second(n as bv8, mask)]
            else if n <= 0xffff then [0x80 | op, Second(126, mask)] + ToBigEndian(n, 2)
            else [0x80 | op, Second(127, mask)] + ToBigEndian(n, 8)
  {
  }

  lemma SmallByte(n: nat)
    ensures n < 126 ==> (n as bv8) as int == n && (n as bv8) < 126
  {
  }

  lemma Powers()
    ensures Pow256(2) == 65536 && Pow256(8) == TWO_64
  {
    assert Pow256(4) == 0x1_0000_0000;
  }

  lemma MaskedBody(b1: bv8, f: Frame, key: Wire, rest: Wire)
    requires |key| == 4 && Accepted(f) && b1 & 0x80 != 0
    ensures ParseBody(0x80 | f.opcode, b1, |f.payload|, key + Masked(f.payload, key) + rest) == (Ok(f), rest)
  {
    var s := key + Masked(f.payload, key) + rest;
    var n := |f.payload|;
    OpcodeBits(f.opcode);
    MaskTwice(f.payload, key);
    assert s[..4] == key && s[4..4 + n] == Masked(f.payload, key) && s[4 + n..] == rest;
  }

  lemma Regroup(a: Wire, b: Wire, c: Wire, d: Wire)
    ensures a + b + c + d == a + (b + c + d)
  {
  }

  lemma ClientFrameIsRead(f: Frame, key: Wire, rest: Wire)
    requires |key| == 4 && Accepted(f)
    ensures Parse(ClientFrame(f, key) + rest) == (Ok(f), rest)
  {
    var h := MarkMasked(Header(f.opcode, |f.payload|));
    Regroup(h, key, Masked(f.payload, key), rest);
    HeaderLength(f.opcode, |f.payload|, true, key + Masked(f.payload, key) + rest);
    MaskedBody(h[1], f, key, rest);
  }

  /** Reading panics exactly on a masked header whose eight-byte length has its sign bit set. */
  lemma NegativeLengthIff(s: Wire)
    ensures Parse(s).0 == Err(NegativeLength) <==>
            && |s| >= 14 && ExtendedBytes(s[1]) == 8 && s[1] & 0x80 != 0
            && BigEndian(s[2..10]) >= TWO_63
  {
    if |s| >= 4 && ExtendedBytes(s[1]) == 2 {
      TwoBytes(s[2..4]);
    }
    if |s| >= 10 && ExtendedBytes(s[1]) == 8 {
      Powers();
      BigEndianBound(s[2..10]);
    }
  }

  lemma {:induction false} BigEndianBound(bytes: Wire)
    ensures BigEndian(bytes) < Pow256(|bytes|)
  {
    if bytes != [] {
      BigEndianBound(bytes[..|bytes| - 1]);
    }
  }

  /** The node refuses its own frames: they are not masked. */
  lemma ServerFrameIsRefused(f: Frame, rest: Wire)
    requires |f.payload| <= MAX_FRAME
    ensures Parse(ServerFrame(f) + rest).0 == Err(NotMasked)
  {
    HeaderLength(f.opcode, |f.payload|, false, f.payload + rest);
    assert ServerFrame(f) + rest == Header(f.opcode, |f.payload|) + (f.payload + rest);
  }

  function ClientStream(frames: seq<Frame>, keys: seq<Wire>): Wire
    requires |keys| == |frames| && forall i :: 0 <= i < |keys| ==> |keys[i]| == 4
  {
    if frames == [] then [] else ClientFrame(frames[0], keys[0]) + ClientStream(frames[1..], keys[1..])
  }

  /** Reading a masked stream returns exactly the frames that were sent and consumes every byte. */
  lemma {:induction false} StreamRoundTrip(frames: seq<Frame>, keys: seq<Wire>)
    requires |keys| == |frames| && forall i :: 0 <= i < |keys| ==> |keys[i]| == 4
    requires forall i :: 0 <= i < |frames| ==> Accepted(frames[i])
    ensures ReadAll(ClientStream(frames, keys)) == (frames, Eof, [])
  {
    if frames == [] {
      assert Parse([]) == (Err(Eof), []);
    } else {
      StreamRoundTrip(frames[1..], keys[1..]);
      ClientFrameIsRead(frames[0], keys[0], ClientStream(frames[1..], keys[1..]));
      assert [frames[0]] + frames[1..] == frames;
    }
  }

  // ---------- every first byte, every length, every cut ----------

  /** A masked frame whose first byte, with final bit and opcode, is any at all. */
  function RawFrame(b0: bv8, payload: Wire, key: Wire): Wire
    requires |key| == 4
  {
    ClientFrame(Frame(0, payload), key)[0 := b0]
  }

  lemma RawHeader(b0: bv8, n: nat, rest: Wire)
    requires n <= MAX_FRAME
    ensures var h := MarkMasked(Header(0, n))[0 := b0];
            Parse(h + rest) == ParseBody(b0, h[1], n, rest) && h[1] & 0x80 != 0
  {
    HeaderBytes(0, n, true);
    if n < 126 {
      ShortHeader(b0, n, true, rest);
      assert [0x80 | 0, Second(n as bv8, true)][0 := b0] == [b0, Second(n as bv8, true)];
    } else {
      var width := if n <= 0xffff then 2 else 8;
      var b1 := Second(if width == 2 then 126 else 127, true);
      LongHeader(b0, n, width, true, rest);
      assert ([0x80 | 0, b1] + ToBigEndian(n, width))[0 := b0] == [b0, b1] + ToBigEndian(n, width);
    }
  }

  /** A masked frame is refused exactly when it is binary, or neither final nor a control frame; else it is read. */
  lemma RawFrameIsJudged(b0: bv8, payload: Wire, key: Wire, rest: Wire)
    requires |key| == 4 && |payload| <= MAX_FRAME
    ensures Parse(RawFrame(b0, payload, key) + rest) ==
            (if b0 & 0x0f == 2 then Err(BinaryFrame)
             else if b0 & 0x80 == 0 && b0 & 0x0f < 8 then Err(Fragmented)
             else Ok(Frame(b0 & 0x0f, payload)), rest)
  {
    var h := MarkMasked(Header(0, |payload|));
    var tail := key + Masked(payload, key) + rest;
    RawHeader(b0, |payload|, tail);
    RawBody(b0, h[1], payload, key, rest);
    RawParts(h, b0, key, Masked(payload, key), rest);
  }

  lemma RawParts(h: Wire, b0: bv8, key: Wire, masked: Wire, rest: Wire)
    requires h != []
    ensures (h + key + masked)[0 := b0] + rest == h[0 := b0] + (key + masked + rest)
  {
  }

  lemma RawBody(b0: bv8, b1: bv8, payload: Wire, key: Wire, rest: Wire)
    requires |key| == 4 && |payload| <= MAX_FRAME && b1 & 0x80 != 0
    ensures ParseBody(b0, b1, |payload|, key + Masked(payload, key) + rest) ==
            (if b0 & 0x0f == 2 then Err(BinaryFrame)
             else if b0 & 0x80 == 0 && b0 & 0x0f < 8 then Err(Fragmented)
             else Ok(Frame(b0 & 0x0f, payload)), rest)
  {
    var s, n := key + Masked(payload, key) + rest, |payload|;
    MaskTwice(payload, key);
    assert s[..4] == key && s[4..4 + n] == Masked(payload, key) && s[4 + n..] == rest;
  }

  /** The length a complete header announces. */
  function Announced(s: Wire): int
    requires |s| >= 2 && |s| >= 2 + ExtendedBytes(s[1])
  {
    var b := (s[1] & 0x7f) as int;
    if b < 126 then b else Int64(BigEndian(s[2..2 + ExtendedBytes(s[1])]))
  }

  lemma LengthByte(b: bv8)
    ensures ExtendedBytes(b) == 0 <==> (b & 0x7f) as int < 126
  {
  }

  /** A frame is too large exactly when its complete header announces more than a mebibyte, masked or not. */
  lemma TooLargeIff(s: Wire)
    ensures Parse(s).0 == Err(TooLarge) <==>
            |s| >= 2 && |s| >= 2 + ExtendedBytes(s[1]) && Announced(s) > 1048576
  {
    if |s| >= 2 {
      LengthByte(s[1]);
    }
  }

  /** It is refused as unmasked exactly when its complete header announces no more and has no mask bit. */
  lemma NotMaskedIff(s: Wire)
    ensures Parse(s).0 == Err(NotMasked) <==>
            && |s| >= 2 && |s| >= 2 + ExtendedBytes(s[1]) && Announced(s) <= 1048576 && s[1] & 0x80 == 0
  {
    if |s| >= 2 {
      LengthByte(s[1]);
    }
  }

  /** Reading waits for the whole frame: of a header within the limits that is masked, every byte it announces. */
  lemma EofIff(s: Wire)
    ensures Parse(s).0 == Err(Eof) <==>
            || |s| < 2 || |s| < 2 + ExtendedBytes(s[1])
            || (Announced(s) <= 1048576 && s[1] & 0x80 != 0
                && |s| < 2 + ExtendedBytes(s[1]) + 4 + Max(0, Announced(s)))
  {
    if |s| >= 2 {
      LengthByte(s[1]);
    }
  }

  /** A server's header is final and unmasked, and announces the length in the shortest of the three forms. */
  lemma ShortestForm(opcode: bv8, n: nat)
    requires n < 0x8000_0000_0000_0000
    ensures var h := Header(opcode, n);
            && h[0] == 0x80 | opcode && h[1] & 0x80 == 0
            && |h| == (if n <= 125 then 2 else if n <= 65535 then 4 else 10)
            && |h| == 2 + ExtendedBytes(h[1]) && Announced(h) == n
  {
    var h := Header(opcode, n);
    if n <= 125 {
      SmallByte(n);
      MaskBits(n as bv8, false);
    } else {
      var width := if n <= 65535 then 2 else 8;
      Powers();
      BigEndianRoundTrip(n, width);
      assert h[2..] == ToBigEndian(n, width);
      assert h[2..2 + width] == h[2..];
    }
  }

  /** The most significant byte comes first. */
  lemma HighByteFirst(n: nat)
    requires n < 65536
    ensures ToBigEndian(n, 2) == [(n / 256) as bv8, (n % 256) as bv8]
  {
    assert ToBigEndian(n / 256, 1) == [(n / 256) as bv8];
  }
}
