/** Choosing a coding for one payload, and undoing it. Zstandard is a pair of functions,
    each given the room it may fill; `Lossless` says what is asked of the pair. */
module Compress {
  import opened Bits
  import opened Outcomes
  import opened Wire
  import opened Codec
  import Numeric
  import Transpose

  const MIN_COMPRESS_SIZE: nat := 1024
  const MIN_TRANSFORM_SIZE: nat := 32
  const CAP_ZSTD: nat := 0   // bit of `Capabilities.flags`

  datatype Zstandard = Zstandard(
    zip: (seq<byte>, nat) -> Option<seq<byte>>,
    unzip: (seq<byte>, nat) -> Option<seq<byte>>)

  ghost predicate Unzips(z: Zstandard, s: seq<byte>, c: seq<byte>) {
    forall room: nat :: |s| <= room ==> z.unzip(c, room) == Some(s)
  }

  ghost predicate Fits(r: Option<seq<byte>>, room: nat) {
    r.Some? ==> |r.value| <= room
  }

  /** Neither half overruns its room, and what was compressed comes back wherever it fits. */
  ghost predicate Lossless(z: Zstandard) {
    && (forall s, room: nat :: Fits(z.zip(s, room), room))
    && (forall c, room: nat :: Fits(z.unzip(c, room), room))
    && (forall s, room: nat :: z.zip(s, room).Some? ==> Unzips(z, s, z.zip(s, room).value))
  }

  datatype Capabilities = Capabilities(flags: u8, codecs: u16) {
    predicate AcceptsCompression() { Bit(flags, CAP_ZSTD) }

    predicate Supports(capability: Option<nat>) {
      capability.Some? ==> Bit(codecs, capability.value)
    }
  }

  datatype Shape = Opaque | I16(channels: byte) | I32(channels: byte) | Elements(size: byte) {
    function Transform(): (Transform, byte) {
      match this
      case Opaque => (Plain, 0)
      case I16(channels) => (I16Delta, channels)
      case I32(channels) => (I32Delta, channels)
      case Elements(size) => (ByteTranspose, size)
    }
  }

  /** What the sender's build and its peer allow, and its test for payloads that look
      compressed already. */
  datatype Policy = Policy(zstd: Zstandard, feature: bool, peer: Capabilities, sniff: seq<byte> -> bool) {
    predicate Available() { feature && peer.AcceptsCompression() }

    predicate Usable(data: seq<byte>, t: Transform) {
      && t != Plain && |data| >= MIN_TRANSFORM_SIZE && peer.Supports(t.Capability())
      && !(t == ByteTranspose && !Available())
    }
  }

  /** The transform to send with and its output. */
  function Transformed(p: Policy, data: seq<byte>, shape: Shape): Option<(Transform, byte, seq<byte>)> {
    var (t, param) := shape.Transform();
    if p.Usable(data, t) then
      var applied := Apply(t, data, param);
      if applied.Err? then None else Some((t, param, applied.value))
    else if !p.Available() || |data| < MIN_COMPRESS_SIZE || p.sniff(data) then None
    else Some((Plain, 0, data))
  }

  /** The entropy stage, kept only when it makes the bytes fewer. */
  function Squeezed(p: Policy, s: seq<byte>, room: nat): (Entropy, seq<byte>) {
    if !p.Available() then (Uncoded, s)
    else
      var c := p.zstd.zip(s, room);
      if c.Some? && |c.value| < |s| then (Zstd, c.value) else (Uncoded, s)
  }

  /** The coding of `data`, or `None` to send it as it is. `room` is the length the working
      buffer has on entry. */
  function Encoded(p: Policy, data: seq<byte>, shape: Shape, room: nat): Option<(CodecHeader, seq<byte>)> {
    if |data| > MAX_ORIGINAL_LEN then None
    else
      var transformed := Transformed(p, data, shape);
      if transformed.None? then None
      else
        var (t, param, s) := transformed.value;
        var (e, coded) := Squeezed(p, s, Max(room, |s| + 64));
        if CODEC_HEADER_LEN + |coded| >= |data| then None
        else Some((CodecHeader(t, e, param, |data|), coded))
  }

  /** The transform's output, the entropy stage undone. */
  function Expanded(z: Zstandard, feature: bool, h: CodecHeader, coded: seq<byte>, scratch: nat): Result<seq<byte>> {
    if h.entropy == Uncoded then Ok(coded)
    else if !feature then Err(Decompress)
    else
      var unzipped := z.unzip(coded, Max(scratch, h.originalLen * 2 + 16));
      if unzipped.None? then Err(Decompress) else Ok(unzipped.value)
  }

  /** The payload `plaintext` carries, for a caller with `limit` bytes of room. `scratch` is
      the length the working buffer has on entry. */
  function Decoded(z: Zstandard, feature: bool, plaintext: seq<byte>, scratch: nat, limit: nat): (r: Result<seq<byte>>)
    ensures r.Ok? ==> |r.value| <= limit
  {
    var header := DecodeHeader(plaintext);
    if header.Err? then Err(header.error)
    else
      var h := header.value;
      var coded := plaintext[CODEC_HEADER_LEN..];
      if limit < h.originalLen then Err(PayloadTooLarge)
      else
        var s := Expanded(z, feature, h, coded, scratch);
        if s.Err? then s else Reverse(h.transform, s.value, h.param, h.originalLen)
  }

  lemma TransformedMeans(p: Policy, data: seq<byte>, shape: Shape)
    requires Transformed(p, data, shape).Some?
    ensures var (t, param, s) := Transformed(p, data, shape).value;
            Reverse(t, s, param, |data|) == Ok(data) && |s| <= 2 * |data| && p.peer.Supports(t.Capability())
  {
    var (t, param, s) := Transformed(p, data, shape).value;
    assert Apply(t, data, param) == Ok(s);
    TransformLossless(t, data, param);
  }

  lemma SqueezedMeans(p: Policy, s: seq<byte>, room: nat, scratch: nat)
    requires Lossless(p.zstd) && |s| <= scratch
    ensures var (e, coded) := Squeezed(p, s, room);
            (e == Uncoded ==> coded == s)
            && (e == Zstd ==> p.Available() && p.zstd.unzip(coded, scratch) == Some(s))
  {
    var c := p.zstd.zip(s, room);
    if c.Some? { assert Unzips(p.zstd, s, c.value); }
  }

  /** Coding is lossless and never too large for either side's buffers: for every payload,
      declared shape, peer and working buffer, what is coded is smaller than the original
      with its header counted, and any receiver with room for the original that has
      Zstandard whenever it said so gets the same bytes. */
  lemma CodedIsLossless(p: Policy, data: seq<byte>, shape: Shape, room: nat, feature: bool, scratch: nat, limit: nat)
    requires Lossless(p.zstd) && Encoded(p, data, shape, room).Some?
    requires p.peer.AcceptsCompression() ==> feature
    requires |data| <= limit
    ensures var (h, coded) := Encoded(p, data, shape, room).value;
            && CODEC_HEADER_LEN + |coded| < |data|
            && Decoded(p.zstd, feature, HeaderBytes(h) + coded, scratch, limit) == Ok(data)
  {
    var (t, param, s) := Transformed(p, data, shape).value;
    TransformedMeans(p, data, shape);
    var (h, coded) := Encoded(p, data, shape, room).value;
    SqueezedMeans(p, s, Max(room, |s| + 64), Max(scratch, |data| * 2 + 16));
    HeaderRoundTrip(h, coded);
    assert (HeaderBytes(h) + coded)[CODEC_HEADER_LEN..] == coded;
  }

  /** Coding is used exactly when it pays: of the transform's output and its compressed form,
      where there is one, the shorter is sent, if with the header it beats the original. */
  lemma ShorterIsSent(p: Policy, data: seq<byte>, shape: Shape, room: nat)
    requires |data| <= MAX_ORIGINAL_LEN && Transformed(p, data, shape).Some?
    ensures var s := Transformed(p, data, shape).value.2;
            var zipped := p.zstd.zip(s, Max(room, |s| + 64));
            var best := if p.Available() && zipped.Some? then Min(|zipped.value|, |s|) else |s|;
            && (Encoded(p, data, shape, room).Some? <==> CODEC_HEADER_LEN + best < |data|)
            && (Encoded(p, data, shape, room).Some? ==> |Encoded(p, data, shape, room).value.1| == best)
  {
    var (t, param, s) := Transformed(p, data, shape).value;
    var (e, coded) := Squeezed(p, s, Max(room, |s| + 64));
    assert Encoded(p, data, shape, room).Some? <==> CODEC_HEADER_LEN + |coded| < |data|;
  }

  /** The header of a coding says what the payload was declared to be, and how long it is; one
      sent without a transform is there for its compression. */
  lemma HeaderSaysTheShape(p: Policy, data: seq<byte>, shape: Shape, room: nat)
    requires Encoded(p, data, shape, room).Some?
    ensures var h := Encoded(p, data, shape, room).value.0;
            && h.originalLen == |data|
            && (h.transform == I16Delta ==> shape == I16(h.param))
            && (h.transform == I32Delta ==> shape == I32(h.param))
            && (h.transform == ByteTranspose ==> shape == Elements(h.param))
            && (h.transform == Plain ==> h.param == 0 && h.entropy == Zstd)
  {
  }

  /** What coding makes of `data` once `s` is what its transform gave: used exactly when `s`, or
      its compressed form where there is one, is shorter than `data` by more than the header. */
  ghost predicate CodedAs(p: Policy, data: seq<byte>, room: nat, t: Transform, param: byte, s: seq<byte>,
                          r: Option<(CodecHeader, seq<byte>)>)
    requires |data| <= 65535
  {
    var zipped := p.zstd.zip(s, Max(room, |s| + 64));
    var pays := p.feature && Bit(p.peer.flags, 0) && zipped.Some? && |zipped.value| < |s|;
    var best := if pays then zipped.value else s;
    r == if 4 + |best| < |data| then Some((CodecHeader(t, if pays then Zstd else Uncoded, param, |data|), best)) else None
  }

  /** Samples in whole frames, enough of them, for a peer that takes their transform, are coded
      by it and by nothing else. */
  lemma SamplesAreDeltaCoded(p: Policy, data: seq<byte>, channels: byte, room: nat)
    requires 32 <= |data| <= 65535 && channels > 0
    ensures |data| % (2 * channels) == 0 && Bit(p.peer.codecs, 1) ==>
              var s := Numeric.EncodeSpec(data, channels, 2);
              s.Ok? && CodedAs(p, data, room, I16Delta, channels, s.value, Encoded(p, data, I16(channels), room))
    ensures |data| % (4 * channels) == 0 && Bit(p.peer.codecs, 2) ==>
              var s := Numeric.EncodeSpec(data, channels, 4);
              s.Ok? && CodedAs(p, data, room, I32Delta, channels, s.value, Encoded(p, data, I32(channels), room))
  {
    Numeric.WholeFrames(data, channels, 2);
    Numeric.WholeFrames(data, channels, 4);
  }

  /** Elements are transposed, for a peer that takes both that and compression. */
  lemma ElementsAreTransposed(p: Policy, data: seq<byte>, size: byte, room: nat)
    requires 32 <= |data| <= 65535 && size > 0
    requires Bit(p.peer.codecs, 3) && p.feature && Bit(p.peer.flags, 0)
    ensures CodedAs(p, data, room, ByteTranspose, size, Transpose.Shuffled(data, size), Encoded(p, data, Elements(size), room))
  {
  }

  /** Samples that are not in whole frames are sent as they are. */
  lemma BrokenFramesAreSentPlain(p: Policy, data: seq<byte>, channels: byte, room: nat)
    requires |data| >= 32
    ensures (channels == 0 || |data| % (2 * channels) != 0) && Bit(p.peer.codecs, 1) ==>
              Encoded(p, data, I16(channels), room).None?
    ensures (channels == 0 || |data| % (4 * channels) != 0) && Bit(p.peer.codecs, 2) ==>
              Encoded(p, data, I32(channels), room).None?
  {
    if channels > 0 {
      Numeric.WholeFrames(data, channels, 2);
      Numeric.WholeFrames(data, channels, 4);
    }
  }

  /** Whether the declared shape's transform is out of the question. */
  predicate NoTransform(p: Policy, data: seq<byte>, shape: Shape) {
    match shape
    case Opaque => true
    case I16(_) => |data| < 32 || !Bit(p.peer.codecs, 1)
    case I32(_) => |data| < 32 || !Bit(p.peer.codecs, 2)
    case Elements(_) => |data| < 32 || !Bit(p.peer.codecs, 3) || !p.feature || !Bit(p.peer.flags, 0)
  }

  /** Everything else is compressed, if it is long enough to be worth it, does not look
      compressed already, and the peer takes that. */
  lemma OthersAreCompressed(p: Policy, data: seq<byte>, shape: Shape, room: nat)
    requires NoTransform(p, data, shape)
    ensures if 1024 <= |data| <= 65535 && p.feature && Bit(p.peer.flags, 0) && !p.sniff(data)
            then CodedAs(p, data, room, Plain, 0, data, Encoded(p, data, shape, room))
            else Encoded(p, data, shape, room).None?
  {
  }

  /** Only stages the peer can undo: the transform's bit is in its `codecs` word, and
      Zstandard is used only towards a peer that accepts compression. */
  lemma OnlyWhatThePeerAccepts(p: Policy, data: seq<byte>, shape: Shape, room: nat)
    requires Lossless(p.zstd) && Encoded(p, data, shape, room).Some?
    ensures var h := Encoded(p, data, shape, room).value.0;
            p.peer.Supports(h.transform.Capability()) && (h.entropy == Zstd ==> p.feature && p.peer.AcceptsCompression())
  {
    TransformedMeans(p, data, shape);
  }

  /** Both stages' bits are in the peer's `codecs` word. */
  predicate Advertised(peer: Capabilities, h: CodecHeader) {
    peer.Supports(h.transform.Capability()) && peer.Supports(h.entropy.Capability())
  }

  ghost predicate KeepsToCodecs(p: Policy, data: seq<byte>, shape: Shape, room: nat) {
    Encoded(p, data, shape, room).Some? ==> Advertised(p.peer, Encoded(p, data, shape, room).value.0)
  }

  /** No payload is ever coded for this peer with a stage missing from its `codecs` word. */
  ghost predicate AlwaysAdvertised(peer: Capabilities) {
    forall z, sniff, data, shape, room: nat ::
      Lossless(z) ==> KeepsToCodecs(Policy(z, true, peer, sniff), data, shape, room)
  }

  // A compressor that knows one payload, a kilobyte of zeros.
  function Toy(): Zstandard {
    Zstandard(
      (s: seq<byte>, room: nat) =>
        if s == Zeros(1024) && room >= 1 then Some([0 as byte])
        else if |s| + 1 <= room then Some([1 as byte] + s) else None,
      (c: seq<byte>, room: nat) =>
        if c == [0] && room >= 1024 then Some(Zeros(1024))
        else if |c| > 0 && c[0] == 1 && |c| - 1 <= room then Some(c[1..]) else None)
  }

  lemma ToyUnzips(s: seq<byte>, room: nat, r: nat)
    requires Toy().zip(s, room).Some? && |s| <= r
    ensures Toy().unzip(Toy().zip(s, room).value, r) == Some(s)
  {
    if s == Zeros(1024) && room >= 1 {
      assert Toy().zip(s, room).value == [0];
    } else {
      assert Toy().zip(s, room).value == [1] + s;
      assert ([1] + s)[0] == 1 && ([1] + s)[1..] == s;
    }
  }

  lemma ToyIsLossless()
    ensures Lossless(Toy())
  {
    forall s, room: nat | Toy().zip(s, room).Some? ensures Unzips(Toy(), s, Toy().zip(s, room).value) {
      forall r: nat | |s| <= r ensures Toy().unzip(Toy().zip(s, room).value, r) == Some(s) {
        ToyUnzips(s, room, r);
      }
    }
  }

  /** Zstandard is gated by the peer's flag, not by its `codecs` word: the word is respected
      for every payload exactly when a peer that sets the flag also sets the word's bit. */
  lemma CodecsWordRespected(peer: Capabilities)
    ensures AlwaysAdvertised(peer) <==> (peer.AcceptsCompression() ==> Bit(peer.codecs, CODEC_ZSTD))
  {
    if peer.AcceptsCompression() ==> Bit(peer.codecs, CODEC_ZSTD) {
      forall z, sniff, data, shape, room: nat | Lossless(z)
        ensures KeepsToCodecs(Policy(z, true, peer, sniff), data, shape, room)
      {
        var p := Policy(z, true, peer, sniff);
        if Encoded(p, data, shape, room).Some? { OnlyWhatThePeerAccepts(p, data, shape, room); }
      }
    } else {
      UnadvertisedZstd(peer);
    }
  }

  /** A peer that accepts compression without the bit is sent Zstandard all the same. */
  lemma UnadvertisedZstd(peer: Capabilities)
    requires peer.AcceptsCompression() && !Bit(peer.codecs, CODEC_ZSTD)
    ensures !AlwaysAdvertised(peer)
  {
    ToyIsLossless();
    var p := Policy(Toy(), true, peer, _ => false);
    var data := Zeros(1024);
    assert Transformed(p, data, Opaque) == Some((Plain, 0, data));
    assert Squeezed(p, data, Max(0, |data| + 64)) == (Zstd, [0 as byte]);
    assert Encoded(p, data, Opaque, 0) == Some((CodecHeader(Plain, Zstd, 0, 1024), [0 as byte]));
    assert !KeepsToCodecs(p, data, Opaque, 0);
  }

  /** A buffer kept between messages, which only grows. */
  class Buffer {
    var bytes: array<byte>

    constructor ()
      ensures fresh(bytes) && bytes.Length == 0
    {
      bytes := new byte[0];
    }

    method Ensure(len: nat)
      modifies this
      ensures bytes.Length == Max(old(bytes.Length), len)
      ensures bytes[..old(bytes.Length)] == old(bytes[..])
      ensures bytes == old(bytes) || fresh(bytes)
    {
      if bytes.Length < len {
        var grown := new byte[len](_ => 0);
        CopyInto(grown, 0, bytes[..]);
        bytes := grown;
      }
    }
  }

  /** The transform stage, its output at the front of `primary`. */
  method TransformStage(p: Policy, data: seq<byte>, shape: Shape, primary: Buffer)
    returns (r: Option<(Transform, byte, nat)>)
    modifies primary, primary.bytes
    ensures primary.bytes == old(primary.bytes) || fresh(primary.bytes)
    ensures var spec := Transformed(p, data, shape);
            if spec.None? then r == None
            else && r == Some((spec.value.0, spec.value.1, |spec.value.2|))
                 && |spec.value.2| <= primary.bytes.Length
                 && primary.bytes[..|spec.value.2|] == spec.value.2
  {
    var (t, param) := shape.Transform();
    if p.Usable(data, t) {
      primary.Ensure(|data| * 2 + 16);
      if Apply(t, data, param).Ok? { TransformLossless(t, data, param); }
      var len := ApplyInto(t, data, param, primary.bytes);
      if len.Err? { return None; }
      return Some((t, param, len.value));
    }
    if !p.Available() || |data| < MIN_COMPRESS_SIZE || p.sniff(data) { return None; }
    primary.Ensure(|data|);
    CopyInto(primary.bytes, 0, data);
    return Some((Plain, 0, |data|));
  }

  /** The entropy stage, run through `secondary`. */
  method EntropyStage(p: Policy, len: nat, primary: Buffer, secondary: Buffer) returns (e: Entropy, n: nat)
    requires Lossless(p.zstd) && len <= primary.bytes.Length
    requires primary != secondary && primary.bytes != secondary.bytes
    modifies primary.bytes, secondary, secondary.bytes
    ensures var room := Max(old(secondary.bytes.Length), len + 64);
            var spec := Squeezed(p, old(primary.bytes[..len]), room);
            e == spec.0 && n == |spec.1| <= primary.bytes.Length && primary.bytes[..n] == spec.1
  {
    if !p.Available() { return Uncoded, len; }
    secondary.Ensure(len + 64);
    var c := p.zstd.zip(primary.bytes[..len], secondary.bytes.Length);
    assert Fits(c, secondary.bytes.Length);
    if c.None? || |c.value| >= len { return Uncoded, len; }
    CopyInto(secondary.bytes, 0, c.value);
    CopyInto(primary.bytes, 0, secondary.bytes[..|c.value|]);
    return Zstd, |c.value|;
  }

  method EncodePayload(p: Policy, data: seq<byte>, shape: Shape, primary: Buffer, secondary: Buffer)
    returns (r: Option<(CodecHeader, nat)>)
    requires Lossless(p.zstd) && primary != secondary && primary.bytes != secondary.bytes
    modifies primary, primary.bytes, secondary, secondary.bytes
    ensures var spec := Encoded(p, data, shape, old(secondary.bytes.Length));
            if spec.None? then r == None
            else && r == Some((spec.value.0, |spec.value.1|))
                 && |spec.value.1| <= primary.bytes.Length
                 && primary.bytes[..|spec.value.1|] == spec.value.1
  {
    if |data| > MAX_ORIGINAL_LEN { return None; }
    var staged := TransformStage(p, data, shape, primary);
    if staged.None? { return None; }
    var (t, param, len) := staged.value;
    var e, n := EntropyStage(p, len, primary, secondary);
    if CODEC_HEADER_LEN + n >= |data| { return None; }
    return Some((CodecHeader(t, e, param, |data|), n));
  }

  lemma ShapeFirst(t: Transform, input: seq<byte>, param: byte, len: nat)
    ensures !ShapeOk(t, |input|, param, len) ==> Reverse(t, input, param, len) == Err(BadHeader)
  {
  }

  method Restore(h: CodecHeader, s: seq<byte>, out: array<byte>) returns (r: Result<nat>)
    requires h.originalLen <= out.Length
    modifies out
    ensures var spec := Reverse(h.transform, s, h.param, h.originalLen);
            if spec.Err? then r == Err(spec.error)
            else r == Ok(|spec.value|) && out[..|spec.value|] == spec.value
  {
    ShapeFirst(h.transform, s, h.param, h.originalLen);
    r := ReverseInto(h.transform, s, h.param, h.originalLen, out);
  }

  method Expand(z: Zstandard, feature: bool, h: CodecHeader, coded: seq<byte>, scratch: Buffer)
    returns (r: Result<seq<byte>>)
    requires Lossless(z)
    modifies scratch, scratch.bytes
    ensures scratch.bytes == old(scratch.bytes) || fresh(scratch.bytes)
    ensures r == Expanded(z, feature, h, coded, old(scratch.bytes.Length))
  {
    if h.entropy == Uncoded { return Ok(coded); }
    if !feature { return Err(Decompress); }
    scratch.Ensure(h.originalLen * 2 + 16);
    var unzipped := z.unzip(coded, scratch.bytes.Length);
    if unzipped.None? { return Err(Decompress); }
    assert Fits(unzipped, scratch.bytes.Length);
    CopyInto(scratch.bytes, 0, unzipped.value);
    assert scratch.bytes[..|unzipped.value|] == unzipped.value;
    return Ok(scratch.bytes[..|unzipped.value|]);
  }

  method DecodePayload(z: Zstandard, feature: bool, plaintext: seq<byte>, scratch: Buffer, out: array<byte>)
    returns (r: Result<nat>)
    requires Lossless(z) && scratch.bytes != out
    modifies scratch, scratch.bytes, out
    ensures var spec := Decoded(z, feature, plaintext, old(scratch.bytes.Length), out.Length);
            if spec.Err? then r == Err(spec.error)
            else r == Ok(|spec.value|) && out[..|spec.value|] == spec.value
  {
    var header := DecodeHeader(plaintext);
    if header.Err? { return Err(header.error); }
    var h := header.value;
    if out.Length < h.originalLen { return Err(PayloadTooLarge); }
    var s := Expand(z, feature, h, plaintext[CODEC_HEADER_LEN..], scratch);
    if s.Err? { return Err(s.error); }
    r := Restore(h, s.value, out);
  }
}
