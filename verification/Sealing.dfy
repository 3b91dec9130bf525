/** From a caller's bytes to a frame and back: how much room a frame leaves, whether the
    payload goes out coded, and what the far end delivers. */
module Sealing {
  import opened Bits
  import opened Outcomes
  import opened Wire
  import opened Frames
  import opened Compress
  import Codec
  import Session
  import SessionRuns

  type Descriptor = f: Fragment | f.Coherent() witness Fragment(0, 0, 1)

  /** `Peer::max_payload`: the smaller of what the peer takes and what the path carries. */
  function MaxPayload(peerMax: nat, limit: nat): nat {
    Min(SaturatingSub(peerMax, Session.DATA_OVERHEAD), SaturatingSub(limit, Session.DATA_OVERHEAD))
  }

  function PayloadRoom(peerMax: nat, limit: nat, reliable: bool, fragmented: bool): nat {
    var room := MaxPayload(peerMax, limit);
    var room := if reliable then SaturatingSub(room, Session.MESSAGE_ID_LEN) else room;
    if fragmented then SaturatingSub(room, FRAGMENT_LEN) else room
  }

  /** Bytes of a frame that are not payload. */
  function Overhead(reliable: bool, fragmented: bool): nat {
    Session.DATA_OVERHEAD + (if reliable then Session.MESSAGE_ID_LEN else 0) + (if fragmented then FRAGMENT_LEN else 0)
  }

  /** One message as `Peer::seal` is asked to send it. `attempt` is the coding heuristic's
      answer, `scratch` the working buffer's length; neither may matter to the receiver. */
  datatype Sending = Sending(
    data: seq<byte>, shape: Shape, id: Option<u32>, fragment: Option<Descriptor>, limit: nat,
    attempt: bool, scratch: nat, padding: Session.Padding)
  {
    predicate Ok() {
      (fragment.Some? ==> id.Some?) && !padding.Exact?
    }
  }

  /** What goes into the frame: the coded bytes with their header when they fit, the bytes
      themselves when those fit, or a refusal. */
  function Chosen(p: Policy, peerMax: nat, m: Sending): Result<(seq<byte>, bool)> {
    var room := PayloadRoom(peerMax, m.limit, m.id.Some?, m.fragment.Some?);
    var coded := if m.attempt || |m.data| > room then Encoded(p, m.data, m.shape, m.scratch) else None;
    if coded.Some? && Codec.CODEC_HEADER_LEN + |coded.value.1| <= room then
      Ok((Codec.HeaderBytes(coded.value.0) + coded.value.1, true))
    else if |m.data| > room then Err(PayloadTooLarge)
    else Ok((m.data, false))
  }

  function Framed(m: Sending, body: seq<byte>, compressed: bool): Session.Outgoing {
    Session.Outgoing(Data, body, m.id, m.fragment, if compressed then 1 else 0, m.padding)
  }

  /** `Peer::seal` into a buffer of `tx` bytes. */
  function Seal(a: Session.Aead, s: Session.State, p: Policy, peerMax: nat, m: Sending, tx: nat)
    : (Session.State, Result<seq<byte>>)
  {
    var chosen := Chosen(p, peerMax, m);
    if chosen.Err? then (s, Err(chosen.error))
    else Session.SealStep(a, s, Framed(m, chosen.value.0, chosen.value.1), tx)
  }

  lemma InnerLength(m: Sending, body: seq<byte>, compressed: bool)
    ensures Session.DATA_OVERHEAD + |Session.Inner(Framed(m, body, compressed))|
            == Overhead(m.id.Some?, m.fragment.Some?) + |body|
  {
  }

  lemma ChosenFits(p: Policy, peerMax: nat, m: Sending)
    requires Chosen(p, peerMax, m).Ok?
    ensures |Chosen(p, peerMax, m).value.0| <= PayloadRoom(peerMax, m.limit, m.id.Some?, m.fragment.Some?)
  {
  }

  /** Whether the coder would bring the payload, header included, within its room. */
  predicate CodesWithin(p: Policy, m: Sending, room: nat) {
    var coded := Encoded(p, m.data, m.shape, m.scratch);
    coded.Some? && Codec.CODEC_HEADER_LEN + |coded.value.1| <= room
  }

  /** A payload is refused exactly when neither its bytes nor their coding fit; one too large
      raw is always tried coded, whatever the heuristic says, and one that is tried and
      fits coded goes out coded. */
  lemma RefusedOnlyIfNeitherFits(p: Policy, peerMax: nat, m: Sending)
    ensures var room := PayloadRoom(peerMax, m.limit, m.id.Some?, m.fragment.Some?);
            && (Chosen(p, peerMax, m).Ok? <==> |m.data| <= room || CodesWithin(p, m, room))
            && (Chosen(p, peerMax, m).Ok? ==>
                  (Chosen(p, peerMax, m).value.1 <==> (m.attempt || |m.data| > room) && CodesWithin(p, m, room)))
  {
  }

  lemma RoomMeans(peerMax: nat, limit: nat, reliable: bool, fragmented: bool, len: nat)
    requires fragmented ==> reliable
    requires len <= PayloadRoom(peerMax, limit, reliable, fragmented)
    ensures Overhead(reliable, fragmented) + len <= limit <==> Overhead(reliable, fragmented) <= limit
    ensures Overhead(reliable, fragmented) + len <= peerMax <==> Overhead(reliable, fragmented) <= peerMax
  {
  }

  /** With padding off, every frame sealed is within the datagram limit and the peer's own
      limit, exactly when the limit leaves room for the parts around the payload: 42 bytes
      for a fragment, fewer for the rest. */
  lemma FrameFitsTheLimit(a: Session.Aead, s: Session.State, p: Policy, peerMax: nat, m: Sending, tx: nat)
    requires Session.Ideal(a) && m.Ok() && m.padding.NoPadding?
    requires Seal(a, s, p, peerMax, m, tx).1.Ok?
    ensures var frame := Seal(a, s, p, peerMax, m, tx).1.value;
            && (|frame| <= m.limit <==> Overhead(m.id.Some?, m.fragment.Some?) <= m.limit)
            && (|frame| <= peerMax <==> Overhead(m.id.Some?, m.fragment.Some?) <= peerMax)
  {
    var (body, compressed) := Chosen(p, peerMax, m).value;
    ChosenFits(p, peerMax, m);
    InnerLength(m, body, compressed);
    RoomMeans(peerMax, m.limit, m.id.Some?, m.fragment.Some?, |body|);
  }

  /** A payload within its room always seals, whatever the coder does; resending changes
      neither the payload nor its limit, so a resend seals too. */
  lemma WithinRoomAlwaysSeals(a: Session.Aead, s: Session.State, p: Policy, peerMax: nat, m: Sending, tx: nat)
    requires m.Ok() && m.padding.NoPadding? && s.sendSeq < U64 - 1
    requires |m.data| <= PayloadRoom(peerMax, m.limit, m.id.Some?, m.fragment.Some?)
    requires Overhead(m.id.Some?, m.fragment.Some?) <= m.limit <= tx
    ensures Seal(a, s, p, peerMax, m, tx).1.Ok?
  {
    var (body, compressed) := Chosen(p, peerMax, m).value;
    ChosenFits(p, peerMax, m);
    InnerLength(m, body, compressed);
    RoomMeans(peerMax, m.limit, m.id.Some?, m.fragment.Some?, |body|);
  }

  /** The room is all there is: a payload that is not coded is sealed exactly when the frame it
      makes, its own bytes and the parts around them, is within both limits. */
  lemma SealedExactlyWhenItFits(a: Session.Aead, s: Session.State, p: Policy, peerMax: nat, m: Sending, tx: nat)
    requires Session.Ideal(a) && m.Ok() && m.padding.NoPadding? && s.sendSeq < U64 - 1
    requires Encoded(p, m.data, m.shape, m.scratch).None?
    requires var around := 30 + (if m.id.Some? then 4 else 0) + (if m.fragment.Some? then 8 else 0);
             around <= peerMax && around <= m.limit <= tx
    ensures var whole := 30 + (if m.id.Some? then 4 else 0) + (if m.fragment.Some? then 8 else 0) + |m.data|;
            var r := Seal(a, s, p, peerMax, m, tx).1;
            && (r.Ok? <==> whole <= peerMax && whole <= m.limit)
            && (r.Ok? ==> |r.value| == whole)
  {
    if Chosen(p, peerMax, m).Ok? {
      WithinRoomAlwaysSeals(a, s, p, peerMax, m, tx);
      InnerLength(m, m.data, false);
    }
  }

  /** How large a buffer `deliver` is given for a fragment. */
  function DecodedCapacity(body: seq<byte>, compressed: bool): nat {
    if !compressed then |body|
    else
      match Codec.DecodeHeader(body)
      case Ok(h) => h.originalLen
      case Err(_) => |body|
  }

  function Deliver(z: Zstandard, feature: bool, body: seq<byte>, compressed: bool, scratch: nat, out: nat)
    : Result<seq<byte>>
  {
    if compressed then Decoded(z, feature, body, scratch, out)
    else if out < |body| then Err(PayloadTooLarge)
    else Ok(body)
  }

  /** What was chosen is delivered as what was given, into a buffer of the capacity the
      receiver works out from the body alone. */
  lemma ChosenDelivers(p: Policy, peerMax: nat, m: Sending, feature: bool, scratch: nat)
    requires Lossless(p.zstd) && Chosen(p, peerMax, m).Ok?
    requires p.peer.AcceptsCompression() ==> feature
    ensures var (body, compressed) := Chosen(p, peerMax, m).value;
            && DecodedCapacity(body, compressed) == |m.data|
            && Deliver(p.zstd, feature, body, compressed, scratch, |m.data|) == Ok(m.data)
  {
    var (body, compressed) := Chosen(p, peerMax, m).value;
    if compressed {
      var (h, coded) := Encoded(p, m.data, m.shape, m.scratch).value;
      CodedIsLossless(p, m.data, m.shape, m.scratch, feature, scratch, |m.data|);
      Codec.HeaderRoundTrip(h, coded);
    }
  }

  /** End to end: a sealed message opens exactly when the session says it may, carries the
      identifier and descriptor it was sealed with, and delivers the caller's bytes,
      whether or not it was coded and however it was padded. */
  lemma SealedMessageIsDelivered(a: Session.Aead, tx: Session.State, rx: Session.State, root: Session.Key,
                                 accepted: set<nat>, p: Policy, peerMax: nat, m: Sending, room: nat,
                                 feature: bool, scratch: nat)
    requires Session.Ideal(a) && Lossless(p.zstd) && m.Ok()
    requires SessionRuns.Sending(tx, root) && SessionRuns.Receiving(rx, root, accepted)
    requires tx.sessionId == rx.sessionId
    requires Seal(a, tx, p, peerMax, m, room).1.Ok?
    requires p.peer.AcceptsCompression() ==> feature
    ensures var r := Session.OpenStep(a, rx, Seal(a, tx, p, peerMax, m, room).1.value).1;
            && (r.Ok? <==> SessionRuns.Opens(accepted, tx.sendSeq))
            && (r.Ok? ==>
                  && r.value.messageId == m.id && r.value.fragment == m.fragment
                  && var compressed := Bit(r.value.header.flags, COMPRESSED);
                     Deliver(p.zstd, feature, r.value.payload, compressed, scratch,
                             DecodedCapacity(r.value.payload, compressed)) == Ok(m.data))
  {
    var (body, compressed) := Chosen(p, peerMax, m).value;
    var o := Framed(m, body, compressed);
    SessionRuns.FrameRoundTrip(a, tx, rx, root, accepted, o, room);
    SessionRuns.FlagBits(o);
    ChosenDelivers(p, peerMax, m, feature, scratch);
  }
}
