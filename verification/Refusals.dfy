/** What is refused, and with which error: the other half of the round trips. */
module Refusals {
  import opened Bits
  import opened Outcomes
  import opened Wire
  import opened Frames
  import opened Session
  import opened SessionRuns
  import opened Compress
  import Codec
  import Numeric
  import Replay
  import Sealing
  import Strides
  import Varint

  // ---- Frames ----------------------------------------------------------------------------------

  /** More than four generations past every number accepted. */
  predicate TooFarAhead(accepted: set<nat>, n: nat) {
    if accepted == {} then n / 65536 > 4 else forall a <- accepted :: n / 65536 > a / 65536 + 4
  }

  /** Why a frame is refused before it is decrypted, if it is, read off its bytes and the numbers
      accepted before it. */
  function Refusal(accepted: set<nat>, sessionId: u32, frame: seq<byte>): Option<Error> {
    if |frame| < 14 then Some(MessageTooShort)
    else if frame[0] / 16 != 1 then Some(UnsupportedVersion)
    else if frame[0] % 16 !in {3, 4, 5, 8, 9} || frame[1] >= 16 || FromLe(frame[2..6]) != sessionId then Some(BadHeader)
    else if |frame| < 30 then Some(MessageTooShort)
    else if !Replay.Acceptable(accepted, FromLe(frame[6..14])) then Some(Error.Replay)
    else if TooFarAhead(accepted, FromLe(frame[6..14])) then Some(SequenceTooFarAhead)
    else if !Opens(accepted, FromLe(frame[6..14])) then Some(Error.Decrypt)
    else None
  }

  /** The header of a frame that may be opened, said of its bytes. */
  lemma HeaderRefusal(frame: seq<byte>)
    ensures DecodeHeader(frame).Err? ==>
              DecodeHeader(frame).error ==
              if |frame| < 14 then MessageTooShort else if frame[0] / 16 != 1 then UnsupportedVersion else BadHeader
    ensures DecodeHeader(frame).Ok? <==> |frame| >= 14 && frame[0] / 16 == 1 && 1 <= frame[0] % 16 <= 9 && frame[1] < 16
    ensures DecodeHeader(frame).Ok? ==>
              var h := DecodeHeader(frame).value;
              && h.sessionId == FromLe(frame[2..6]) && h.sequence == FromLe(frame[6..14]) && h.flags == frame[1]
              && (h.frameType in {Data, Close, AckFrame, PathChallenge, PathResponse} <==> frame[0] % 16 in {3, 4, 5, 8, 9})
              && (h.frameType == PathChallenge <==> frame[0] % 16 == 8)
              && (h.frameType == PathResponse <==> frame[0] % 16 == 9)
  {
  }

  lemma KeyRefusal(s: State, root: Key, accepted: set<nat>, n: u64)
    requires Receiving(s, root, accepted) && Replay.Acceptable(accepted, n)
    ensures ChooseKey(s, Generation(n)) ==
            if TooFarAhead(accepted, n) then Err(SequenceTooFarAhead)
            else if !Opens(accepted, n) then Err(Error.Decrypt)
            else Ok(KeyUp(root, n / 65536))
  {
    Replay.CheckExact(s.replay, accepted, n);
    KeyForSequence(s, root, accepted, n);
    forall a | a in accepted ensures Generation(a) <= s.recvGeneration {
      GenerationMonotone(a, s.replay.highest);
    }
  }

  /** Whatever bytes arrive, a frame is refused before decryption exactly as `Refusal` says, and
      otherwise opens only under the key its number names and only as what was sealed there. */
  lemma OpenAnswer(a: Aead, s: State, root: Key, accepted: set<nat>, frame: seq<byte>)
    requires Receiving(s, root, accepted)
    ensures var r, refusal := OpenStep(a, s, frame).1, Refusal(accepted, s.sessionId, frame);
            if refusal.Some? then r == Err(refusal.value)
            else
              var n := FromLe(frame[6..14]);
              n < U64 &&
              var pt := a.open(KeyUp(root, n / 65536), n, frame[..14], frame[14..]);
              && (pt.None? ==> r == Err(Error.Decrypt))
              && (pt.Some? && r.Err? ==> r == Err(BadHeader))
              && (r.Ok? ==> pt.Some? && Carries(frame, pt.value, r.value))
  {
    HeaderRefusal(frame);
    if DecodeHeader(frame).Ok? {
      var h := DecodeHeader(frame).value;
      Replay.CheckExact(s.replay, accepted, h.sequence);
      if Replay.Acceptable(accepted, h.sequence) { KeyRefusal(s, root, accepted, h.sequence); }
      if OpenStep(a, s, frame).1.Ok? {
        var pt := a.open(KeyUp(root, h.sequence / 65536), h.sequence, frame[..14], frame[14..]).value;
        PeelCarries(h, pt);
      }
    }
  }

  /** A plaintext with its length prefix and its padding gone. */
  function Unwrapped(pt: seq<byte>, padded: bool): seq<byte> {
    if padded && |pt| >= 2 && 2 + FromLe(pt[..2]) <= |pt| then pt[2..2 + FromLe(pt[..2])] else pt
  }

  /** `o` is what the frame's flags and its plaintext say; a path frame is a bare token, only a
      challenge padded. */
  predicate Carries(frame: seq<byte>, pt: seq<byte>, o: Opening)
    requires |frame| >= 2
  {
    && Holds(frame[1], pt, o)
    && (frame[0] % 16 == 8 || frame[0] % 16 == 9 ==>
          && |o.payload| == 8 && o.messageId.None? && o.fragment.None?
          && (frame[1] == 0 || (frame[0] % 16 == 8 && frame[1] == 4)))
  }

  predicate Holds(flags: byte, pt: seq<byte>, o: Opening) {
    && (o.messageId.Some? <==> Bit(flags, 1)) && (o.fragment.Some? <==> Bit(flags, 3))
    && (o.fragment.Some? ==> o.fragment.value.Coherent())
    && Unwrapped(pt, Bit(flags, 2)) == IdBytes(o.messageId) + FragmentPart(o.fragment) + o.payload
  }

  lemma PeelCarries(h: Header, pt: seq<byte>)
    requires Peel(h, pt).Ok?
    ensures Holds(h.flags, pt, Peel(h, pt).value) && Peel(h, pt).value.header == h
  {
    var o := Peel(h, pt).value;
    var inner := Unwrapped(pt, Bit(h.flags, 2));
    assert Unpad(h.flags, pt) == Ok(inner);
    var id, piece := if o.messageId.Some? then 4 else 0, if o.fragment.Some? then 8 else 0;
    assert o.messageId.Some? ==> IdBytes(o.messageId) == inner[..4];
    if o.fragment.Some? { DescriptorRead(inner[id..][..8]); }
    assert inner == inner[..id] + inner[id..][..piece] + inner[id..][piece..];
  }

  lemma DescriptorRead(b: seq<byte>)
    requires |b| == 8 && DecodeFragment(b).Ok?
    ensures FragmentBytes(DecodeFragment(b).value) == b
  {
    assert b == b[..4] + b[4..6] + b[6..8];
  }

  /** A frame is refused for want of numbers, of space in the length prefix, of the exact length
      asked for, or of room, in that order; it uses no number, and the key is up to date all the
      same unless the numbers have run out. */
  lemma SealAnswer(a: Aead, s: State, root: Key, o: Outgoing, room: nat)
    requires Sending(s, root)
    ensures var (t, r) := SealStep(a, s, o, room);
            var inner := |Inner(o)|;
            && (s.sendSeq == U64 - 1 ==> r == Err(NonceExhausted) && t == s)
            && (s.sendSeq < U64 - 1 ==>
                  && t.send == KeyUp(root, s.sendSeq / 65536)
                  && ((!o.padding.NoPadding? && inner > 65535) || (o.padding.Exact? && o.padding.len < 2 + inner)
                      <==> r == Err(PayloadTooLarge))
                  && (r.Err? ==> r.error in {PayloadTooLarge, BufferTooSmall} && t.sendSeq == s.sendSeq)
                  && (r == Err(BufferTooSmall) ==> room < |Plaintext(o)| + 30))
  {
    if s.sendGeneration < Generation(s.sendSeq) {
      KeyUpAdds(root, s.sendGeneration, Generation(s.sendSeq) - s.sendGeneration);
    }
  }

  // ---- Payloads ------------------------------------------------------------------------------------

  lemma {:induction false} VarintRefusal(input: seq<byte>, n: nat)
    ensures var r := Varint.DecodeFrom(input, n); r.Err? ==> r.error == BadHeader
    decreases |input|
  {
    if input != [] { VarintRefusal(input[1..], n + 1); }
  }

  lemma {:induction false} StreamRefusal(input: seq<byte>, us: seq<u32>, total: nat)
    requires |us| <= total
    ensures var r := Numeric.ReadStream(input, us, total); r.Err? ==> r.error == BadHeader
    decreases total - |us|
  {
    if |us| < total {
      VarintRefusal(input, 0);
      var word := Varint.DecodeSpec(input);
      if word.Ok? {
        Varint.VarintCanonical(input);
        StreamRefusal(input[word.value.1..], us + [word.value.0], total);
      }
    }
  }

  /** A transform that cannot be undone is a bad header, whatever is wrong with it. */
  lemma ReverseRefusal(t: Codec.Transform, input: seq<byte>, param: byte, len: nat)
    ensures var r := Codec.Reverse(t, input, param, len); r.Err? ==> r.error == BadHeader
  {
    if t.I16Delta? || t.I32Delta? {
      var layout := Numeric.FrameLayout(len, param, if t.I16Delta? then 2 else 4);
      if layout.Ok? { StreamRefusal(input, [], Strides.Offset(param, layout.value)); }
    }
  }

  /** A coded payload is refused for its header, for a caller without room for what it says it
      is, and for compression that cannot be undone, in that order; otherwise it comes out at the
      length its header says, or does not fit its shape. */
  lemma DecodeAnswer(z: Zstandard, feature: bool, pt: seq<byte>, scratch: nat, limit: nat)
    ensures var r := Decoded(z, feature, pt, scratch, limit);
            if |pt| < 4 then r == Err(MessageTooShort)
            else if pt[0] % 16 > 3 || pt[0] / 16 > 1 then r == Err(BadHeader)
            else if limit < FromLe(pt[2..4]) then r == Err(PayloadTooLarge)
            else if pt[0] / 16 == 1 && !feature then r == Err(Decompress)
            else r == Err(Decompress) || r == Err(BadHeader) || (r.Ok? && |r.value| == FromLe(pt[2..4]))
  {
    var header := Codec.DecodeHeader(pt);
    if header.Ok? {
      var h := header.value;
      var s := Expanded(z, feature, h, pt[4..], scratch);
      if s.Ok? { ReverseRefusal(h.transform, s.value, h.param, h.originalLen); }
    }
  }

  /** A payload sent as it is is delivered exactly when there is room for it, and a buffer of the
      capacity read off the body is never too small. */
  lemma DeliverAnswer(z: Zstandard, feature: bool, body: seq<byte>, compressed: bool, scratch: nat, out: nat)
    ensures !compressed ==>
              Sealing.Deliver(z, feature, body, false, scratch, out) == if |body| <= out then Ok(body) else Err(PayloadTooLarge)
    ensures Sealing.Deliver(z, feature, body, compressed, scratch, Sealing.DecodedCapacity(body, compressed)) != Err(PayloadTooLarge)
  {
    DecodeAnswer(z, feature, body, scratch, Sealing.DecodedCapacity(body, compressed));
  }
}
