/** What goes on the wire, byte by byte. */
module WireForms {
  import opened Bits
  import opened Outcomes
  import opened Strides
  import opened Wire
  import opened Frames
  import Session
  import Codec
  import Control

  // ---- Frames ----------------------------------------------------------------------------------

  const TYPES: seq<FrameType> := [
    HandshakeInit, HandshakeResponse, Data, Close, AckFrame, ResumeInit, ResumeResponse, PathChallenge, PathResponse]

  /** Version one and the type, the flags, the session and the sequence number. */
  lemma HeaderIs(h: Header)
    ensures var b := HeaderBytes(h);
            && |b| == 14 && 17 <= b[0] <= 25 && TYPES[b[0] - 17] == h.frameType && b[1] == h.flags
            && FromLe(b[2..6]) == h.sessionId && FromLe(b[6..14]) == h.sequence
  {
    var b := HeaderBytes(h);
    assert b[2..6] == Le32(h.sessionId) && b[6..14] == Le64(h.sequence);
  }

  /** The message, which piece of it this is, and how many there are. */
  lemma DescriptorIs(f: Fragment)
    ensures var b := FragmentBytes(f);
            && |b| == 8 && FromLe(b[..4]) == f.message && FromLe(b[4..6]) == f.index && FromLe(b[6..]) == f.count
  {
    var b := FragmentBytes(f);
    assert b[..4] == Le32(f.message) && b[4..6] == Le16(f.index) && b[6..] == Le16(f.count);
  }

  /** The parts a plaintext may begin with, each there when its flag says so, then the payload;
      padded, all of that has its length before it and zeros after, up to whole blocks of 64
      bytes or to the length asked for. */
  lemma PlaintextIs(o: Session.Outgoing)
    requires Session.PlaintextLen(|Session.Inner(o)|, o.padding).Ok?
    ensures var inner, b := Session.Inner(o), Session.Plaintext(o);
            var id, piece := if o.messageId.Some? then 4 else 0, if o.fragment.Some? then 8 else 0;
            && |inner| == id + piece + |o.payload| && inner[id + piece..] == o.payload
            && (o.messageId.Some? ==> FromLe(inner[..4]) == o.messageId.value)
            && (o.fragment.Some? ==> inner[id..id + 8] == FragmentBytes(o.fragment.value))
            && (if o.padding.NoPadding? then b == inner
                else |b| >= 2 + |inner| && FromLe(b[..2]) == |inner| && b[2..2 + |inner|] == inner
                     && (forall i :: 2 + |inner| <= i < |b| ==> b[i] == 0)
                     && (if o.padding.Block? then |b| % 64 == 0 && |b| < 2 + |inner| + 64 else |b| == o.padding.len))
  {
    var inner, b := Session.Inner(o), Session.Plaintext(o);
    var id, piece := if o.messageId.Some? then 4 else 0, if o.fragment.Some? then 8 else 0;
    assert inner[..id] == Session.IdBytes(o.messageId);
    assert inner[id..id + piece] == Session.FragmentPart(o.fragment);
    if !o.padding.NoPadding? {
      assert b[..2] == Le16(|inner|);
      assert b[2..2 + |inner|] == inner;
    }
  }

  /** How many pieces a payload is cut into: as few as hold it, one at the least, and none of it
      at all past a mebibyte or 4096 pieces. */
  lemma PieceCountIs(len: nat, per: nat)
    ensures var r := FragmentsNeeded(len, per);
            && (r.Some? <==> per > 0 && len <= 1_048_576 && len <= 4096 * per)
            && (r.Some? ==> len <= r.value * per && (r.value == 1 || (r.value - 1) * per < len))
  {
    if per > 0 {
      var x := len + per - 1;
      var c := x / per;
      assert x == per * c + x % per;
      CountBound(len, per, c);
    }
  }

  lemma CountBound(len: nat, per: nat, c: nat)
    requires per > 0 && len <= c * per < len + per
    ensures c <= 4096 <==> len <= 4096 * per
    ensures c >= 1 ==> (c - 1) * per < len
  {
    if c <= 4096 { MulMono(per, c, 4096); }
    if c >= 4097 { MulMono(per, 4097, c); }
    if c >= 1 { assert (c - 1) * per == c * per - per; }
  }

  // ---- Codings --------------------------------------------------------------------------------------

  lemma CodingHeaderIs(h: Codec.CodecHeader)
    ensures var b := Codec.HeaderBytes(h);
            && |b| == 4 && b[1] == h.param && FromLe(b[2..]) == h.originalLen
            && b[0] % 16 == (match h.transform case Plain => 0 case I16Delta => 1 case I32Delta => 2 case ByteTranspose => 3)
            && b[0] / 16 == (if h.entropy.Zstd? then 1 else 0)
  {
    var b := Codec.HeaderBytes(h);
    assert b[2..] == Le16(h.originalLen);
  }

  // ---- The rendezvous ---------------------------------------------------------------------------------

  lemma AddressIs(a: Control.Address)
    ensures var b := Control.AddressBytes(a);
            if a.V4? then |b| == 7 && b[0] == 4 && b[1..5] == a.ip4 && FromLe(b[5..]) == a.port
            else |b| == 19 && b[0] == 6 && b[1..17] == a.ip6 && FromLe(b[17..]) == a.port
  {
    var b := Control.AddressBytes(a);
    assert b[if a.V4? then 5 else 17..] == Le16(a.port);
  }

  predicate RowAt(b: seq<byte>, i: nat, m: Control.Member) {
    17 + 48 * i + 48 <= |b| && b[17 + 48 * i..17 + 48 * i + 48] == m.key + m.mac
  }

  lemma MembersAre(tag: Control.Tag, members: seq<Control.Member>)
    ensures var b := Control.Encode(Control.Members(tag, members));
            && |b| == 17 + 48 * |members| && b[..17] == [0x85] + tag
            && forall i :: 0 <= i < |members| ==> RowAt(b, i, members[i])
  {
    var b, pieces := Control.Encode(Control.Members(tag, members)), Control.MemberPieces(members);
    JoinedLength(pieces, 48);
    OffsetIsProduct(|members|, 48);
    assert b == ([0x85] + tag) + Joined(pieces);
    forall i | 0 <= i < |members| ensures RowAt(b, i, members[i]) {
      OffsetIsProduct(i, 48);
      PieceOfJoined(pieces, 48, i);
    }
  }

  /** One byte for the kind, those of the rendezvous from 0x81 up, then the parts in order. */
  lemma MessageIs(m: Control.Message)
    ensures var b := Control.Encode(m);
            match m
            case Register => b == [1]
            case Introduce(key) => b == [2] + key
            case Relay(key) => b == [3] + key
            case Join(tag, mac) => b == [4] + tag + mac
            case Leave(tag) => b == [5] + tag
            case Observed(addr) => b == [0x81] + Control.AddressBytes(addr)
            case Introduction(key, addr) => b == [0x82] + key + Control.AddressBytes(addr)
            case Unavailable(key, reason) => b == [0x83] + key + [reason]
            case RelayOffer(key, addr, token) => b == [0x84] + key + Control.AddressBytes(addr) + token
            case Members(tag, members) =>
              && |b| == 17 + 48 * |members| && b[..17] == [0x85] + tag
              && forall i :: 0 <= i < |members| ==> RowAt(b, i, members[i])
  {
    if m.Members? { MembersAre(m.tag, m.members); }
  }
}
