/** The frame header and the fragment descriptor, with their wire forms. */
module Frames {
  import opened Bits
  import opened Outcomes
  import opened Wire

  const HEADER_LEN: nat := 14
  const VERSION: nat := 1
  const FRAGMENT_LEN: nat := 8
  const MAX_FRAGMENTS: nat := 4096
  const MAX_MESSAGE_LEN: nat := 0x10_0000

  // Positions of the flag bits.
  const COMPRESSED: nat := 0
  const RELIABLE: nat := 1
  const PADDED: nat := 2
  const FRAGMENT: nat := 3
  const KNOWN_FLAGS: nat := 16   // every defined bit lies below this power of two

  datatype FrameType =
    | HandshakeInit | HandshakeResponse | Data | Close | AckFrame
    | ResumeInit | ResumeResponse | PathChallenge | PathResponse

  function TypeBits(t: FrameType): (b: nat)
    ensures 1 <= b <= 9
  {
    match t
    case HandshakeInit => 1
    case HandshakeResponse => 2
    case Data => 3
    case Close => 4
    case AckFrame => 5
    case ResumeInit => 6
    case ResumeResponse => 7
    case PathChallenge => 8
    case PathResponse => 9
  }

  function TypeOf(bits: nat): Result<FrameType> {
    match bits
    case 1 => Ok(HandshakeInit)
    case 2 => Ok(HandshakeResponse)
    case 3 => Ok(Data)
    case 4 => Ok(Close)
    case 5 => Ok(AckFrame)
    case 6 => Ok(ResumeInit)
    case 7 => Ok(ResumeResponse)
    case 8 => Ok(PathChallenge)
    case 9 => Ok(PathResponse)
    case _ => Err(BadHeader)
  }

  datatype Header = Header(frameType: FrameType, flags: byte, sessionId: u32, sequence: u64)

  function HeaderBytes(h: Header): (r: seq<byte>)
    ensures |r| == HEADER_LEN
  {
    [VERSION * 16 + TypeBits(h.frameType), h.flags] + Le32(h.sessionId) + Le64(h.sequence)
  }

  function DecodeHeader(input: seq<byte>): Result<Header> {
    if |input| < HEADER_LEN then Err(MessageTooShort)
    else if input[0] / 16 != VERSION then Err(UnsupportedVersion)
    else
      match TypeOf(input[0] % 16)
      case Err(e) => Err(e)
      case Ok(t) =>
        if input[1] >= KNOWN_FLAGS then Err(BadHeader)
        else Ok(Header(t, input[1], Read32(input[2..6]), Read64(input[6..14])))
  }

  /** The header codec is a bijection between headers with defined flags and the
      14-byte prefixes it accepts. */
  lemma HeaderRoundTrip(h: Header, rest: seq<byte>)
    requires h.flags < KNOWN_FLAGS
    ensures DecodeHeader(HeaderBytes(h) + rest) == Ok(h)
  {
    var bytes := HeaderBytes(h) + rest;
    assert bytes[2..6] == Le32(h.sessionId);
    assert bytes[6..14] == Le64(h.sequence);
  }

  lemma HeaderCanonical(input: seq<byte>)
    requires DecodeHeader(input).Ok?
    ensures input[..HEADER_LEN] == HeaderBytes(DecodeHeader(input).value)
    ensures DecodeHeader(input).value.flags < KNOWN_FLAGS
  {
    var h := DecodeHeader(input).value;
    assert input[0] == VERSION * 16 + TypeBits(h.frameType);
    assert input[..HEADER_LEN] == [input[0], input[1]] + input[2..6] + input[6..14];
  }

  method EncodeHeader(h: Header, out: array<byte>) returns (r: Result<()>)
    modifies out
    ensures r == if out.Length < HEADER_LEN then Err(BufferTooSmall) else Ok(())
    ensures r.Ok? ==> out[..] == HeaderBytes(h) + old(out[HEADER_LEN..])
    ensures r.Err? ==> out[..] == old(out[..])
  {
    if out.Length < HEADER_LEN { return Err(BufferTooSmall); }
    out[0] := VERSION * 16 + TypeBits(h.frameType);
    out[1] := h.flags;
    CopyInto(out, 2, Le32(h.sessionId));
    CopyInto(out, 6, Le64(h.sequence));
    return Ok(());
  }

  datatype Fragment = Fragment(message: u32, index: u16, count: u16) {
    predicate Coherent() {
      0 < count <= MAX_FRAGMENTS && index < count
    }
    predicate IsLast() { index + 1 == count }
  }

  function FragmentBytes(f: Fragment): (r: seq<byte>)
    ensures |r| == FRAGMENT_LEN
  {
    Le32(f.message) + Le16(f.index) + Le16(f.count)
  }

  function DecodeFragment(input: seq<byte>): (r: Result<Fragment>)
    ensures r.Ok? ==> r.value.Coherent()
  {
    if |input| < FRAGMENT_LEN then Err(MessageTooShort)
    else
      var f := Fragment(Read32(input[..4]), Read16(input[4..6]), Read16(input[6..8]));
      if f.Coherent() then Ok(f) else Err(BadHeader)
  }

  /** A descriptor survives the wire exactly when it is coherent. */
  lemma FragmentRoundTrip(f: Fragment)
    ensures DecodeFragment(FragmentBytes(f)) == if f.Coherent() then Ok(f) else Err(BadHeader)
  {
    var bytes := FragmentBytes(f);
    assert bytes[..4] == Le32(f.message);
    assert bytes[4..6] == Le16(f.index);
    assert bytes[6..8] == Le16(f.count);
  }

  /** The fragment count for a payload of `len` bytes; `None` when it cannot be cut. */
  function FragmentsNeeded(len: nat, perFragment: nat): (r: Option<u16>)
    ensures r.Some? ==> perFragment > 0 && 1 <= r.value <= MAX_FRAGMENTS
  {
    if perFragment == 0 || len > MAX_MESSAGE_LEN then None
    else
      var count := (len + perFragment - 1) / perFragment;
      var count := if count < 1 then 1 else count;
      if count >= U16 || count > MAX_FRAGMENTS then None else Some(count)
  }
}
