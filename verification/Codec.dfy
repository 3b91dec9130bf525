/** The transforms as one choice, and the header that names the choice. */
module Codec {
  import opened Bits
  import opened Outcomes
  import opened Wire
  import Numeric
  import Transpose

  const CODEC_HEADER_LEN: nat := 4
  const MAX_ORIGINAL_LEN: nat := 0xffff

  // Positions of the capability bits in a peer's `codecs` word.
  const CODEC_ZSTD: nat := 0
  const CODEC_I16_DELTA: nat := 1
  const CODEC_I32_DELTA: nat := 2
  const CODEC_TRANSPOSE: nat := 3

  datatype Transform = Plain | I16Delta | I32Delta | ByteTranspose {
    function ToBits(): (b: nat)
      ensures b < 4
    {
      match this
      case Plain => 0
      case I16Delta => 1
      case I32Delta => 2
      case ByteTranspose => 3
    }

    /** The capability bit without which a peer cannot undo this transform. */
    function Capability(): Option<nat> {
      match this
      case Plain => None
      case I16Delta => Some(CODEC_I16_DELTA)
      case I32Delta => Some(CODEC_I32_DELTA)
      case ByteTranspose => Some(CODEC_TRANSPOSE)
    }
  }

  datatype Entropy = Uncoded | Zstd {
    function ToBits(): (b: nat)
      ensures b < 2
    {
      if Uncoded? then 0 else 1
    }

    function Capability(): Option<nat> {
      if Uncoded? then None else Some(CODEC_ZSTD)
    }
  }

  function TransformOf(bits: nat): Result<Transform> {
    match bits
    case 0 => Ok(Plain)
    case 1 => Ok(I16Delta)
    case 2 => Ok(I32Delta)
    case 3 => Ok(ByteTranspose)
    case _ => Err(BadHeader)
  }

  function EntropyOf(bits: nat): Result<Entropy> {
    match bits
    case 0 => Ok(Uncoded)
    case 1 => Ok(Zstd)
    case _ => Err(BadHeader)
  }

  datatype CodecHeader = CodecHeader(transform: Transform, entropy: Entropy, param: byte, originalLen: u16)

  function HeaderBytes(h: CodecHeader): (r: seq<byte>)
    ensures |r| == CODEC_HEADER_LEN
  {
    [h.transform.ToBits() + 16 * h.entropy.ToBits(), h.param] + Le16(h.originalLen)
  }

  function DecodeHeader(input: seq<byte>): Result<CodecHeader> {
    if |input| < CODEC_HEADER_LEN then Err(MessageTooShort)
    else
      match (TransformOf(input[0] % 16), EntropyOf(input[0] / 16))
      case (Err(e), _) => Err(e)
      case (_, Err(e)) => Err(e)
      case (Ok(t), Ok(e)) => Ok(CodecHeader(t, e, input[1], Read16(input[2..4])))
  }

  lemma HeaderRoundTrip(h: CodecHeader, rest: seq<byte>)
    ensures DecodeHeader(HeaderBytes(h) + rest) == Ok(h)
  {
    var input := HeaderBytes(h) + rest;
    assert input[2..4] == Le16(h.originalLen);
    assert input[1] == h.param;
    assert input[0] == h.transform.ToBits() + 16 * h.entropy.ToBits();
  }

  /** Every header that parses has one spelling. */
  lemma HeaderCanonical(input: seq<byte>)
    requires DecodeHeader(input).Ok?
    ensures HeaderBytes(DecodeHeader(input).value) == input[..CODEC_HEADER_LEN]
  {
    assert input[..4] == [input[0], input[1]] + input[2..4];
  }

  method EncodeHeader(h: CodecHeader, out: array<byte>) returns (r: Result<()>)
    modifies out
    ensures r.Ok? <==> out.Length >= CODEC_HEADER_LEN
    ensures r.Err? ==> r == Err(BufferTooSmall) && out[..] == old(out[..])
    ensures r.Ok? ==> out[..] == HeaderBytes(h) + old(out[CODEC_HEADER_LEN..])
  {
    if out.Length < CODEC_HEADER_LEN { return Err(BufferTooSmall); }
    ghost var was := out[..];
    CopyInto(out, 0, [h.transform.ToBits() + 16 * h.entropy.ToBits(), h.param]);
    ghost var mid := out[..];
    assert mid[4..] == was[4..];
    CopyInto(out, 2, Le16(h.originalLen));
    return Ok(());
  }

  function Apply(t: Transform, input: seq<byte>, param: byte): Result<seq<byte>> {
    match t
    case Plain => Ok(input)
    case I16Delta => Numeric.EncodeSpec(input, param, 2)
    case I32Delta => Numeric.EncodeSpec(input, param, 4)
    case ByteTranspose => if param == 0 then Err(BadHeader) else Ok(Transpose.Shuffled(input, param))
  }

  function Reverse(t: Transform, input: seq<byte>, param: byte, len: nat): (r: Result<seq<byte>>)
    ensures r.Ok? ==> |r.value| == len
  {
    match t
    case Plain => if |input| != len then Err(BadHeader) else Ok(input)
    case I16Delta => Numeric.DecodeSpec(input, param, 2, len)
    case I32Delta => Numeric.DecodeSpec(input, param, 4, len)
    case ByteTranspose =>
      if |input| != len || param == 0 then Err(BadHeader) else Ok(Transpose.Unshuffled(input, param))
  }

  /** Every transform reproduces its input, whatever the input and however wrong the
      declared shape, once it applies at all; and its output is at most twice its input. */
  lemma TransformLossless(t: Transform, input: seq<byte>, param: byte)
    requires Apply(t, input, param).Ok?
    ensures Reverse(t, Apply(t, input, param).value, param, |input|) == Ok(input)
    ensures |Apply(t, input, param).value| <= 2 * |input|
  {
    match t
    case Plain =>
    case I16Delta => Numeric.NumericRoundTrip(input, param, 2); Numeric.NumericBound(input, param, 2);
    case I32Delta => Numeric.NumericRoundTrip(input, param, 4); Numeric.NumericBound(input, param, 4);
    case ByteTranspose => Transpose.ShuffleRoundTrip(input, param);
  }

  /** `Transform::apply`: with twice the input's room only a wrong shape is refused. */
  method ApplyInto(t: Transform, input: seq<byte>, param: byte, out: array<byte>) returns (r: Result<nat>)
    modifies out
    ensures var spec := Apply(t, input, param);
            r == if spec.Err? then Err(spec.error)
                 else if |spec.value| <= out.Length then Ok(|spec.value|)
                 else Err(BufferTooSmall)
    ensures r.Ok? ==> out[..r.value] == Apply(t, input, param).value
  {
    match t
    case Plain =>
      if out.Length < |input| { return Err(BufferTooSmall); }
      CopyInto(out, 0, input);
      return Ok(|input|);
    case I16Delta => r := Numeric.Encode(input, param, 2, out);
    case I32Delta => r := Numeric.Encode(input, param, 4, out);
    case ByteTranspose => r := Transpose.Encode(input, param, out);
  }

  /** Whether the lengths agree with the shape the header names. */
  predicate ShapeOk(t: Transform, coded: nat, param: byte, len: nat) {
    match t
    case Plain => coded == len
    case I16Delta => Numeric.FrameLayout(len, param, 2).Ok?
    case I32Delta => Numeric.FrameLayout(len, param, 4).Ok?
    case ByteTranspose => coded == len && param != 0
  }

  method ReverseInto(t: Transform, input: seq<byte>, param: byte, len: nat, out: array<byte>) returns (r: Result<nat>)
    modifies out
    ensures var spec := Reverse(t, input, param, len);
            if !ShapeOk(t, |input|, param, len) then r == Err(BadHeader)
            else if out.Length < len then r == Err(BufferTooSmall)
            else if spec.Err? then r == Err(spec.error)
            else r == Ok(len) && out[..len] == spec.value
  {
    match t
    case Plain =>
      if |input| != len { return Err(BadHeader); }
      if out.Length < len { return Err(BufferTooSmall); }
      CopyInto(out, 0, input);
      return Ok(len);
    case I16Delta => r := Numeric.Decode(input, param, 2, len, out);
    case I32Delta => r := Numeric.Decode(input, param, 4, len, out);
    case ByteTranspose =>
      if |input| != len { return Err(BadHeader); }
      r := Transpose.Decode(input, param, out);
  }
}
