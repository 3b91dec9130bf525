/** An established session: sealing, opening, the replay window and the chain of
    keys each direction walks.

    The cipher is a parameter. `Rekeyed` is the one-way step of the key chain,
    kept symbolic; an AEAD is any pair of functions, and the lemmas that need it
    to be a correct one say so with `Ideal`. */
module Session {
  import opened Bits
  import opened Outcomes
  import opened Wire
  import opened Frames
  import opened Strides
  import Replay

  const TAGLEN: nat := 16
  const DATA_OVERHEAD: nat := HEADER_LEN + TAGLEN
  const REKEY_INTERVAL: nat := 0x1_0000
  const MAX_REKEY_LOOKAHEAD: nat := 4
  const PATH_TOKEN_LEN: nat := 8
  const PATH_FRAME_LEN: nat := DATA_OVERHEAD + PATH_TOKEN_LEN
  const PAD_BLOCK: nat := 64
  const LEN_PREFIX: nat := 2
  const MIN_PROBE_LEN: nat := PATH_FRAME_LEN + LEN_PREFIX
  const MESSAGE_ID_LEN: nat := 4

  datatype Key = Root(name: nat) | Rekeyed(previous: Key)

  function KeyUp(key: Key, steps: nat): Key {
    if steps == 0 then key else Rekeyed(KeyUp(key, steps - 1))
  }

  lemma {:induction false} KeyUpAdds(key: Key, a: nat, b: nat)
    ensures KeyUp(KeyUp(key, a), b) == KeyUp(key, a + b)
  {
    if b > 0 { KeyUpAdds(key, a, b - 1); }
  }

  datatype Aead = Aead(
    seal: (Key, u64, seq<byte>, seq<byte>) -> seq<byte>,
    open: (Key, u64, seq<byte>, seq<byte>) -> Option<seq<byte>>)

  /** What is sealed opens, under the same key, counter and associated data; sealing
      adds the tag's length and opening takes it off. */
  ghost predicate Ideal(a: Aead) {
    && (forall k: Key, n: u64, ad: seq<byte>, pt: seq<byte> ::
          && |a.seal(k, n, ad, pt)| == |pt| + TAGLEN
          && a.open(k, n, ad, a.seal(k, n, ad, pt)) == Some(pt))
    && (forall k: Key, n: u64, ad: seq<byte>, ct: seq<byte> ::
          a.open(k, n, ad, ct).Some? ==> |a.open(k, n, ad, ct).value| + TAGLEN == |ct|)
  }

  function Generation(sequence: nat): nat { sequence / REKEY_INTERVAL }

  datatype Padding = NoPadding | Block | Exact(len: nat)

  /** One call to `seal_frame_padded`. */
  datatype Outgoing = Outgoing(
    frameType: FrameType,
    payload: seq<byte>,
    messageId: Option<u32>,
    fragment: Option<Fragment>,
    flags: byte,
    padding: Padding)

  datatype State = State(
    send: Key,
    recv: Key,
    recvPrev: Option<Key>,
    sendGeneration: nat,
    recvGeneration: nat,
    sessionId: u32,
    sendSeq: u64,
    replay: Replay.Window)

  function NewState(send: Key, recv: Key, sessionId: u32): State {
    State(send, recv, None, 0, 0, sessionId, 0, Replay.EMPTY)
  }

  // ---- Plaintext layout -------------------------------------------------------

  function IdBytes(id: Option<u32>): seq<byte> {
    match id case None => [] case Some(i) => Le32(i)
  }

  function FragmentPart(f: Option<Fragment>): seq<byte> {
    match f case None => [] case Some(d) => FragmentBytes(d)
  }

  function Inner(o: Outgoing): seq<byte> {
    IdBytes(o.messageId) + FragmentPart(o.fragment) + o.payload
  }

  function RoundUp(n: nat): (r: nat)
    ensures r % PAD_BLOCK == 0 && n <= r < n + PAD_BLOCK
  {
    if n % PAD_BLOCK == 0 then n else n + PAD_BLOCK - n % PAD_BLOCK
  }

  function PlaintextLen(inner: nat, padding: Padding): Result<nat> {
    if padding.NoPadding? then Ok(inner)
    else if inner >= U16 then Err(PayloadTooLarge)
    else
      match padding
      case Block => Ok(RoundUp(LEN_PREFIX + inner))
      case Exact(n) => if n < LEN_PREFIX + inner then Err(PayloadTooLarge) else Ok(n)
  }

  /** `[pad_len]? [message_id]? [fragment]? payload [zeros]?` */
  function Plaintext(o: Outgoing): (r: seq<byte>)
    requires PlaintextLen(|Inner(o)|, o.padding).Ok?
    ensures |r| == PlaintextLen(|Inner(o)|, o.padding).value
  {
    var inner := Inner(o);
    if o.padding.NoPadding? then inner
    else Le16(|inner|) + inner + Zeros(PlaintextLen(|inner|, o.padding).value - LEN_PREFIX - |inner|)
  }

  function Mark(flags: byte, bit: nat, on: bool): (r: byte)
    requires bit < 8
    ensures forall j: nat :: Bit(r, j) <==> Bit(flags, j) || (on && j == bit)
    ensures flags < 16 && bit < 4 ==> r < 16
  {
    if !on then flags
    else
      assert Pow2(8) == 256 && Pow2(4) == 16 by { assert Pow2(2) == 4; assert Pow2(6) == 64; }
      SetBitBound(flags, bit, 8);
      assert flags < 16 && bit < 4 ==> SetBit(flags, bit) < 16 by {
        if flags < 16 && bit < 4 { SetBitBound(flags, bit, 4); }
      }
      assert forall j: nat :: Bit(SetBit(flags, bit), j) <==> j == bit || Bit(flags, j) by {
        forall j: nat ensures Bit(SetBit(flags, bit), j) <==> j == bit || Bit(flags, j) { SetBitBit(flags, bit, j); }
      }
      SetBit(flags, bit)
  }

  function FlagsFor(o: Outgoing): byte {
    Mark(Mark(Mark(o.flags, RELIABLE, o.messageId.Some?), FRAGMENT, o.fragment.Some?), PADDED, !o.padding.NoPadding?)
  }

  // ---- Sealing ----------------------------------------------------------------

  function CaughtUp(s: State): State {
    var generation := Generation(s.sendSeq);
    if s.sendGeneration < generation
    then s.(send := KeyUp(s.send, generation - s.sendGeneration), sendGeneration := generation)
    else s
  }

  function HeaderFor(s: State, o: Outgoing): Header {
    Header(o.frameType, FlagsFor(o), s.sessionId, s.sendSeq)
  }

  /** What sealing into a buffer of `room` bytes does: the session after it, and the
      frame or the refusal. The key catches up even when the call then fails. */
  function SealStep(a: Aead, s: State, o: Outgoing, room: nat): (State, Result<seq<byte>>) {
    if s.sendSeq == U64 - 1 then (s, Err(NonceExhausted))
    else
      var s1 := CaughtUp(s);
      match PlaintextLen(|Inner(o)|, o.padding)
      case Err(e) => (s1, Err(e))
      case Ok(len) =>
        if room < len + DATA_OVERHEAD then (s1, Err(BufferTooSmall))
        else
          var hdr := HeaderBytes(HeaderFor(s, o));
          (s1.(sendSeq := s.sendSeq + 1), Ok(hdr + a.seal(s1.send, s.sendSeq, hdr, Plaintext(o))))
  }

  // ---- Opening ----------------------------------------------------------------

  datatype Opening = Opening(header: Header, messageId: Option<u32>, fragment: Option<Fragment>, payload: seq<byte>)

  function Unpad(flags: byte, pt: seq<byte>): (r: Result<seq<byte>>)
    ensures r.Ok? ==> |r.value| <= |pt|
  {
    if !Bit(flags, PADDED) then Ok(pt)
    else if |pt| < LEN_PREFIX then Err(BadHeader)
    else
      var inner := Read16(pt[..LEN_PREFIX]);
      if LEN_PREFIX + inner > |pt| then Err(BadHeader) else Ok(pt[LEN_PREFIX..LEN_PREFIX + inner])
  }

  /** Undoes the layout of `Plaintext`, part by part. */
  function Peel(h: Header, pt: seq<byte>): Result<Opening> {
    match Unpad(h.flags, pt)
    case Err(e) => Err(e)
    case Ok(rest) =>
      if Bit(h.flags, RELIABLE) && |rest| < MESSAGE_ID_LEN then Err(BadHeader)
      else
        var id := if Bit(h.flags, RELIABLE) then Some(Read32(rest[..MESSAGE_ID_LEN])) else None;
        var rest := if Bit(h.flags, RELIABLE) then rest[MESSAGE_ID_LEN..] else rest;
        if !Bit(h.flags, FRAGMENT) then Ok(Opening(h, id, None, rest))
        else if |rest| < FRAGMENT_LEN then Err(BadHeader)
        else
          match DecodeFragment(rest[..FRAGMENT_LEN])
          case Err(e) => Err(e)
          case Ok(f) => Ok(Opening(h, id, Some(f), rest[FRAGMENT_LEN..]))
  }

  /** A challenge is eight bytes and nothing else, padding excepted; a response is
      not padded either. */
  predicate PathFrameOk(o: Opening) {
    var t := o.header.frameType;
    t.PathChallenge? || t.PathResponse? ==>
      && |o.payload| == PATH_TOKEN_LEN && o.messageId.None? && o.fragment.None?
      && (o.header.flags == 0 || (t.PathChallenge? && o.header.flags == 4))
  }

  function ChooseKey(s: State, generation: nat): Result<Key> {
    if generation > s.recvGeneration + MAX_REKEY_LOOKAHEAD then Err(SequenceTooFarAhead)
    else if generation > s.recvGeneration then Ok(KeyUp(s.recv, generation - s.recvGeneration))
    else if generation == s.recvGeneration then Ok(s.recv)
    else if generation + 1 == s.recvGeneration && s.recvPrev.Some? then Ok(s.recvPrev.value)
    else Err(Error.Decrypt)
  }

  /** Moves to the key that just proved itself, keeping the one before it only when
      that one was held. */
  function Adopted(s: State, generation: nat): State {
    if generation <= s.recvGeneration then s
    else
      s.(recv := KeyUp(s.recv, generation - s.recvGeneration),
         recvPrev := if generation == s.recvGeneration + 1 then Some(s.recv) else None,
         recvGeneration := generation)
  }

  function OpenStep(a: Aead, s: State, frame: seq<byte>): (State, Result<Opening>) {
    match DecodeHeader(frame)
    case Err(e) => (s, Err(e))
    case Ok(h) =>
      if !(h.frameType in {Data, Close, AckFrame, PathChallenge, PathResponse}) then (s, Err(BadHeader))
      else if h.sessionId != s.sessionId then (s, Err(BadHeader))
      else if |frame| < HEADER_LEN + TAGLEN then (s, Err(MessageTooShort))
      else if Replay.Check(s.replay, h.sequence).Err? then (s, Err(Error.Replay))
      else
        match ChooseKey(s, Generation(h.sequence))
        case Err(e) => (s, Err(e))
        case Ok(key) =>
          match a.open(key, h.sequence, frame[..HEADER_LEN], frame[HEADER_LEN..])
          case None => (s, Err(Error.Decrypt))
          case Some(pt) =>
            match Peel(h, pt)
            case Err(e) => (s, Err(e))
            case Ok(o) =>
              if !PathFrameOk(o) then (s, Err(BadHeader))
              else
                var s1 := Adopted(s, Generation(h.sequence));
                (s1.(replay := Replay.CommitStep(s.replay, h.sequence)), Ok(o))
  }

  /** What `open` reports; the payload is left at the front of the frame's body. */
  datatype Opened = Opened(header: Header, len: nat, messageId: Option<u32>, fragment: Option<Fragment>)

  /** The session as its owner holds it. */
  class Session {
    const aead: Aead
    const sessionId: u32
    const replay: Replay.ReplayWindow
    var send: Key
    var recv: Key
    var recvPrev: Option<Key>
    var sendGeneration: nat
    var recvGeneration: nat
    var sendSeq: u64

    function View(): State
      reads this, replay
    {
      State(send, recv, recvPrev, sendGeneration, recvGeneration, sessionId, sendSeq, replay.State())
    }

    constructor (aead: Aead, send: Key, recv: Key, sessionId: u32)
      ensures View() == NewState(send, recv, sessionId) && fresh(replay)
      ensures this.aead == aead
    {
      this.aead, this.sessionId, this.send, this.recv := aead, sessionId, send, recv;
      recvPrev, sendGeneration, recvGeneration, sendSeq := None, 0, 0, 0;
      replay := new Replay.ReplayWindow();
    }

    /** Walks the sending key up to the generation of the next number. */
    method CatchUp()
      modifies this
      ensures View() == CaughtUp(old(View()))
    {
      var generation := Generation(sendSeq);
      ghost var was := View();
      while sendGeneration < generation
        invariant was.sendGeneration <= sendGeneration
        invariant sendGeneration <= generation || sendGeneration == was.sendGeneration
        invariant send == KeyUp(was.send, sendGeneration - was.sendGeneration)
        invariant View() == was.(send := send, sendGeneration := sendGeneration)
      {
        send := Rekeyed(send);
        sendGeneration := sendGeneration + 1;
      }
    }

    /** Builds any outgoing frame in `out`, returning its length. */
    method SealFramePadded(o: Outgoing, out: array<byte>) returns (r: Result<nat>)
      requires Ideal(aead)
      modifies this, out
      ensures var (s, result) := SealStep(aead, old(View()), o, out.Length);
              && View() == s
              && match result
                 case Ok(frame) => r == Ok(|frame|) && |frame| <= out.Length && out[..] == frame + old(out[|frame|..])
                 case Err(e) => r == Err(e) && out[..] == old(out[..])
    {
      if sendSeq == U64 - 1 { return Err(NonceExhausted); }
      CatchUp();
      var innerLen := |IdBytes(o.messageId)| + |FragmentPart(o.fragment)| + |o.payload|;
      var plaintextLen := PlaintextLen(innerLen, o.padding);
      if plaintextLen.Err? { return Err(plaintextLen.error); }
      var total := plaintextLen.value + DATA_OVERHEAD;
      if out.Length < total { return Err(BufferTooSmall); }
      Encrypt(o, innerLen, plaintextLen.value, out);
      sendSeq := sendSeq + 1;
      return Ok(total);
    }

    /** Writes the header and the plaintext, and encrypts the plaintext where it lies. */
    method Encrypt(o: Outgoing, innerLen: nat, plaintextLen: nat, out: array<byte>)
      requires Ideal(aead)
      requires innerLen == |Inner(o)| && PlaintextLen(innerLen, o.padding) == Ok(plaintextLen)
      requires plaintextLen + DATA_OVERHEAD <= out.Length
      modifies out
      ensures var hdr := HeaderBytes(HeaderFor(View(), o));
              out[..] == hdr + aead.seal(send, sendSeq, hdr, Plaintext(o)) + old(out[plaintextLen + DATA_OVERHEAD..])
    {
      ghost var was := out[..];
      var encoded := EncodeHeader(Header(o.frameType, FlagsFor(o), sessionId, sendSeq), out);
      var hdr := out[..HEADER_LEN];
      WriteBody(o, innerLen, plaintextLen, out);
      assert out[..HEADER_LEN] == hdr;
      var plain := out[HEADER_LEN..HEADER_LEN + plaintextLen];
      assert plain == Plaintext(o);
      assert out[plaintextLen + DATA_OVERHEAD..] == was[plaintextLen + DATA_OVERHEAD..];
      CopyInto(out, HEADER_LEN, aead.seal(send, sendSeq, hdr, plain));
    }

    /** Lays the plaintext out behind the header, part by part. */
    static method WriteBody(o: Outgoing, innerLen: nat, plaintextLen: nat, out: array<byte>)
      requires innerLen == |Inner(o)| && PlaintextLen(innerLen, o.padding) == Ok(plaintextLen)
      requires HEADER_LEN + plaintextLen <= out.Length
      modifies out
      ensures out[..] == old(out[..HEADER_LEN]) + Plaintext(o) + old(out[HEADER_LEN + plaintextLen..])
    {
      var prefix := if o.padding.NoPadding? then [] else Le16(innerLen);
      var zeros := Zeros(plaintextLen - |prefix| - innerLen);
      FiveParts(prefix, IdBytes(o.messageId), FragmentPart(o.fragment), o.payload, zeros);
      WriteParts(out, [prefix, IdBytes(o.messageId), FragmentPart(o.fragment), o.payload, zeros]);
    }

    static method WriteParts(out: array<byte>, parts: seq<seq<byte>>)
      requires HEADER_LEN + |Joined(parts)| <= out.Length
      modifies out
      ensures out[..] == old(out[..HEADER_LEN]) + Joined(parts) + old(out[HEADER_LEN + |Joined(parts)|..])
    {
      ghost var was := out[..];
      var at := HEADER_LEN;
      for i := 0 to |parts|
        invariant at == HEADER_LEN + |Joined(parts[..i])| <= out.Length
        invariant out[..] == was[..HEADER_LEN] + Joined(parts[..i]) + was[at..]
      {
        ghost var head := was[..HEADER_LEN] + Joined(parts[..i]);
        assert parts[..i + 1][..i] == parts[..i];
        JoinedPrefix(parts, i + 1);
        at := Place(out, at, parts[i], head, was);
        assert head + parts[i] == was[..HEADER_LEN] + Joined(parts[..i + 1]);
      }
      assert parts[..|parts|] == parts;
    }

    /** Writes one part of a plaintext where the parts before it end. */
    static method Place(out: array<byte>, at: nat, data: seq<byte>, ghost head: seq<byte>, ghost was: seq<byte>)
      returns (next: nat)
      requires |was| == out.Length && |head| == at && at + |data| <= out.Length
      requires out[..] == head + was[at..]
      modifies out
      ensures next == at + |data| && out[..] == head + data + was[next..]
    {
      CopyInto(out, at, data);
      next := at + |data|;
    }

    /** Authenticates and decrypts a frame in place. */
    method Open(frame: array<byte>) returns (r: Result<Opened>)
      requires Ideal(aead)
      modifies this, replay, frame
      ensures var (s, result) := OpenStep(aead, old(View()), old(frame[..]));
              && View() == s
              && match result
                 case Ok(o) =>
                   && r == Ok(Opened(o.header, |o.payload|, o.messageId, o.fragment))
                   && HEADER_LEN + |o.payload| <= frame.Length
                   && frame[HEADER_LEN..HEADER_LEN + |o.payload|] == o.payload
                 case Err(e) => r == Err(e)
    {
      var decoded := DecodeHeader(frame[..]);
      if decoded.Err? { return Err(decoded.error); }
      var h := decoded.value;
      if !(h.frameType in {Data, Close, AckFrame, PathChallenge, PathResponse}) { return Err(BadHeader); }
      if h.sessionId != sessionId { return Err(BadHeader); }
      if frame.Length < HEADER_LEN + TAGLEN { return Err(MessageTooShort); }
      var checked := Replay.Check(replay.State(), h.sequence);
      if checked.Err? { return Err(Error.Replay); }

      var generation := Generation(h.sequence);
      var chosen := ChooseKey(View(), generation);
      if chosen.Err? { return Err(chosen.error); }
      var plain := aead.open(chosen.value, h.sequence, frame[..HEADER_LEN], frame[HEADER_LEN..]);
      if plain.None? { return Err(Error.Decrypt); }

      var peeled := Peel(h, plain.value);
      if peeled.Err? { return Err(peeled.error); }
      var o := peeled.value;
      if !PathFrameOk(o) { return Err(BadHeader); }
      PayloadFits(h, plain.value);
      CopyInto(frame, HEADER_LEN, o.payload);

      // Nothing above this point changed the session.
      if generation > recvGeneration {
        recvPrev := if generation == recvGeneration + 1 then Some(recv) else None;
        recv := KeyUp(recv, generation - recvGeneration);
        recvGeneration := generation;
      }
      replay.Commit(h.sequence);
      return Ok(Opened(h, |o.payload|, o.messageId, o.fragment));
    }
  }

  lemma {:induction false} JoinedPrefix(parts: seq<seq<byte>>, n: nat)
    requires n <= |parts|
    ensures |Joined(parts[..n])| <= |Joined(parts)|
    decreases |parts|
  {
    if n < |parts| {
      JoinedPrefix(parts[..|parts| - 1], n);
      assert parts[..|parts| - 1][..n] == parts[..n];
    } else {
      assert parts[..n] == parts;
    }
  }

  lemma FiveParts(a: seq<byte>, b: seq<byte>, c: seq<byte>, d: seq<byte>, e: seq<byte>)
    ensures Joined([a, b, c, d, e]) == a + (b + c + d) + e
  {
    assert [a, b, c, d, e][..4] == [a, b, c, d];
    assert [a, b, c, d][..3] == [a, b, c];
    assert [a, b, c][..2] == [a, b];
    assert [a, b][..1] == [a];
    assert Joined([a]) == a;
    assert Joined([a, b, c]) == a + b + c;
    assert a + b + c + d + e == a + (b + c + d) + e;
  }

  lemma PayloadFits(h: Header, pt: seq<byte>)
    requires Peel(h, pt).Ok?
    ensures |Peel(h, pt).value.payload| <= |pt|
  {
  }
}
