/** What clients and the rendezvous say to each other, and its wire form. */
module Control {
  import opened Bits
  import opened Outcomes
  import opened Strides
  import opened Wire

  const MAX_GROUP_MEMBERS: nat := 64
  const MEMBER_LEN: nat := 48

  type Key = s: seq<byte> | |s| == 32 witness Zeros(32)
  type Tag = s: seq<byte> | |s| == 16 witness Zeros(16)
  type Octets4 = s: seq<byte> | |s| == 4 witness Zeros(4)

  datatype Address = V4(ip4: Octets4, port: u16) | V6(ip6: Tag, port: u16)

  datatype Member = Member(key: Key, mac: Tag)

  datatype Message =
    | Register
    | Introduce(key: Key)
    | Relay(key: Key)
    | Observed(addr: Address)
    | Introduction(key: Key, addr: Address)
    | Unavailable(key: Key, reason: byte)
    | RelayOffer(key: Key, addr: Address, token: Tag)
    | Join(tag: Tag, mac: Tag)
    | Leave(tag: Tag)
    | Members(tag: Tag, members: seq<Member>)
  {
    /** No more members than a group may have. */
    predicate Valid() { Members? ==> |members| <= MAX_GROUP_MEMBERS }
  }

  function AddressBytes(a: Address): (r: seq<byte>)
    ensures |r| == if a.V4? then 7 else 19
  {
    match a
    case V4(ip, port) => [4] + ip + Le16(port)
    case V6(ip, port) => [6] + ip + Le16(port)
  }

  /** Reads an address; the second part is the rest of `body`. */
  function TakeAddress(body: seq<byte>): (r: Option<(Address, seq<byte>)>) {
    if |body| == 0 then None
    else if body[0] == 4 then
      if |body| < 7 then None else Some((V4(body[1..5], Read16(body[5..7])), body[7..]))
    else if body[0] == 6 then
      if |body| < 19 then None else Some((V6(body[1..17], Read16(body[17..19])), body[19..]))
    else None
  }

  function TakeKey(body: seq<byte>): Option<(Key, seq<byte>)> {
    if |body| < 32 then None else Some((body[..32], body[32..]))
  }

  function MemberBytes(m: Member): (r: seq<byte>)
    ensures |r| == MEMBER_LEN
  {
    m.key + m.mac
  }

  function MemberOf(b: seq<byte>): Member
    requires |b| == MEMBER_LEN
  {
    Member(b[..32], b[32..])
  }

  function MemberPieces(ms: seq<Member>): (r: seq<seq<byte>>)
    ensures |r| == |ms| && Uniform(r, MEMBER_LEN)
  {
    seq(|ms|, i requires 0 <= i < |ms| => MemberBytes(ms[i]))
  }

  function Kind(m: Message): byte {
    match m
    case Register => 0x01
    case Introduce(_) => 0x02
    case Relay(_) => 0x03
    case Join(_, _) => 0x04
    case Leave(_) => 0x05
    case Observed(_) => 0x81
    case Introduction(_, _) => 0x82
    case Unavailable(_, _) => 0x83
    case RelayOffer(_, _, _) => 0x84
    case Members(_, _) => 0x85
  }

  function Body(m: Message): seq<byte> {
    match m
    case Register => []
    case Introduce(key) => key
    case Relay(key) => key
    case Join(tag, mac) => tag + mac
    case Leave(tag) => tag
    case Observed(addr) => AddressBytes(addr)
    case Introduction(key, addr) => key + AddressBytes(addr)
    case Unavailable(key, reason) => key + [reason]
    case RelayOffer(key, addr, token) => key + (AddressBytes(addr) + token)
    case Members(tag, members) => tag + Joined(MemberPieces(members))
  }

  function Encode(m: Message): (r: seq<byte>)
    ensures r != []
  {
    [Kind(m)] + Body(m)
  }

  function DecodeMembers(body: seq<byte>): Option<Message> {
    if |body| < 16 || (|body| - 16) % MEMBER_LEN != 0 then None
    else
      var n := (|body| - 16) / MEMBER_LEN;
      if n > MAX_GROUP_MEMBERS then None
      else
        OffsetIsProduct(n, MEMBER_LEN);
        var pieces := Pieces(body[16..], n, MEMBER_LEN);
        Some(Members(body[..16], seq(n, i requires 0 <= i < n => MemberOf(pieces[i]))))
  }

  function DecodeIntroduction(body: seq<byte>): Option<Message> {
    var key := TakeKey(body);
    if key.None? then None
    else
      var addr := TakeAddress(key.value.1);
      if addr.None? || addr.value.1 != [] then None else Some(Introduction(key.value.0, addr.value.0))
  }

  function DecodeOffer(body: seq<byte>): Option<Message> {
    var key := TakeKey(body);
    if key.None? then None
    else
      var addr := TakeAddress(key.value.1);
      if addr.None? || |addr.value.1| != 16 then None
      else Some(RelayOffer(key.value.0, addr.value.0, addr.value.1))
  }

  function DecodeObserved(body: seq<byte>): Option<Message> {
    var addr := TakeAddress(body);
    if addr.None? || addr.value.1 != [] then None else Some(Observed(addr.value.0))
  }

  function DecodeBody(kind: byte, body: seq<byte>): Option<Message> {
    match kind
    case 0x01 => if body == [] then Some(Register) else None
    case 0x02 => if |body| == 32 then Some(Introduce(body)) else None
    case 0x03 => if |body| == 32 then Some(Relay(body)) else None
    case 0x04 => if |body| == 32 then Some(Join(body[..16], body[16..])) else None
    case 0x05 => if |body| == 16 then Some(Leave(body)) else None
    case 0x81 => DecodeObserved(body)
    case 0x82 => DecodeIntroduction(body)
    case 0x83 => if |body| == 33 then Some(Unavailable(body[..32], body[32])) else None
    case 0x84 => DecodeOffer(body)
    case 0x85 => DecodeMembers(body)
    case _ => None
  }

  /** The message `input` spells; `None` when the kind is not known or the length does not suit it. */
  function Decode(input: seq<byte>): Option<Message> {
    if input == [] then None else DecodeBody(input[0], input[1..])
  }

  lemma AddressRoundTrip(a: Address, rest: seq<byte>)
    ensures TakeAddress(AddressBytes(a) + rest) == Some((a, rest))
  {
    var b := AddressBytes(a) + rest;
    match a
    case V4(ip, port) =>
      assert b[1..5] == ip && b[5..7] == Le16(port) && b[7..] == rest;
    case V6(ip, port) =>
      assert b[1..17] == ip && b[17..19] == Le16(port) && b[19..] == rest;
  }

  lemma AddressCanonical(b: seq<byte>)
    requires TakeAddress(b).Some?
    ensures AddressBytes(TakeAddress(b).value.0) + TakeAddress(b).value.1 == b
  {
    if b[0] == 4 {
      assert [b[0]] + b[1..5] + b[5..7] + b[7..] == b;
    } else {
      assert [b[0]] + b[1..17] + b[17..19] + b[19..] == b;
    }
  }

  lemma KeyRoundTrip(key: Key, rest: seq<byte>)
    ensures TakeKey(key + rest) == Some((key, rest))
  {
    assert (key + rest)[..32] == key && (key + rest)[32..] == rest;
  }

  lemma MembersRoundTrip(tag: Tag, ms: seq<Member>)
    requires |ms| <= MAX_GROUP_MEMBERS
    ensures DecodeMembers(tag + Joined(MemberPieces(ms))) == Some(Members(tag, ms))
  {
    var pieces := MemberPieces(ms);
    PiecesOfJoined(pieces, MEMBER_LEN);
    OffsetIsProduct(|ms|, MEMBER_LEN);
    var body := tag + Joined(pieces);
    assert body[..16] == tag && body[16..] == Joined(pieces);
    assert |body| - 16 == |ms| * MEMBER_LEN;
    forall i | 0 <= i < |ms| ensures MemberOf(pieces[i]) == ms[i] {
      assert pieces[i] == ms[i].key + ms[i].mac;
    }
    assert Pieces(body[16..], |ms|, MEMBER_LEN) == pieces;
    assert DecodeMembers(body).value.members == ms;
  }

  lemma MembersCanonical(body: seq<byte>)
    requires DecodeMembers(body).Some?
    ensures var m := DecodeMembers(body).value;
            m.Members? && |m.members| <= MAX_GROUP_MEMBERS && m.tag + Joined(MemberPieces(m.members)) == body
  {
    var n := (|body| - 16) / MEMBER_LEN;
    OffsetIsProduct(n, MEMBER_LEN);
    var pieces := Pieces(body[16..], n, MEMBER_LEN);
    var m := DecodeMembers(body).value;
    forall i | 0 <= i < n ensures MemberPieces(m.members)[i] == pieces[i] {
      assert pieces[i] == pieces[i][..32] + pieces[i][32..];
    }
    assert MemberPieces(m.members) == pieces;
    JoinedPieces(body[16..], n, MEMBER_LEN);
    assert body == body[..16] + body[16..];
  }

  lemma TooManyMembers(tag: Tag, ms: seq<Member>)
    requires |ms| > MAX_GROUP_MEMBERS
    ensures DecodeMembers(tag + Joined(MemberPieces(ms))) == None
  {
    JoinedLength(MemberPieces(ms), MEMBER_LEN);
    OffsetIsProduct(|ms|, MEMBER_LEN);
  }

  lemma ObservedRoundTrip(addr: Address)
    ensures DecodeObserved(AddressBytes(addr)) == Some(Observed(addr))
  {
    AddressRoundTrip(addr, []);
    assert AddressBytes(addr) + [] == AddressBytes(addr);
  }

  lemma IntroductionRoundTrip(key: Key, addr: Address)
    ensures DecodeIntroduction(key + AddressBytes(addr)) == Some(Introduction(key, addr))
  {
    KeyRoundTrip(key, AddressBytes(addr));
    AddressRoundTrip(addr, []);
    assert AddressBytes(addr) + [] == AddressBytes(addr);
  }

  lemma OfferRoundTrip(key: Key, addr: Address, token: Tag)
    ensures DecodeOffer(key + (AddressBytes(addr) + token)) == Some(RelayOffer(key, addr, token))
  {
    KeyRoundTrip(key, AddressBytes(addr) + token);
    AddressRoundTrip(addr, token);
  }

  lemma PlainRoundTrip(m: Message)
    requires m.Register? || m.Introduce? || m.Relay? || m.Join? || m.Leave? || m.Unavailable?
    ensures DecodeBody(Kind(m), Body(m)) == Some(m)
  {
    match m
    case Join(tag, mac) => assert (tag + mac)[..16] == tag && (tag + mac)[16..] == mac;
    case Unavailable(key, reason) => assert (key + [reason])[..32] == key;
    case _ =>
  }

  lemma AddressedRoundTrip(m: Message)
    requires m.Observed? || m.Introduction? || m.RelayOffer?
    ensures DecodeBody(Kind(m), Body(m)) == Some(m)
  {
    match m
    case Observed(addr) => ObservedRoundTrip(addr);
    case Introduction(key, addr) => IntroductionRoundTrip(key, addr);
    case RelayOffer(key, addr, token) => OfferRoundTrip(key, addr, token);
  }

  lemma ListRoundTrip(m: Message)
    requires m.Members?
    ensures DecodeBody(Kind(m), Body(m)) == if m.Valid() then Some(m) else None
  {
    if m.Valid() { MembersRoundTrip(m.tag, m.members); } else { TooManyMembers(m.tag, m.members); }
  }

  lemma Parts(m: Message)
    ensures Decode(Encode(m)) == DecodeBody(Kind(m), Body(m))
  {
    assert Encode(m)[1..] == Body(m);
  }

  /** Whatever is encoded decodes to itself; a list of members, as long as it is no longer
      than a group may be, and exactly then. */
  lemma MessageRoundTrip(m: Message)
    ensures Decode(Encode(m)) == if m.Valid() then Some(m) else None
  {
    Parts(m);
    if m.Members? { ListRoundTrip(m); }
    else if m.Observed? || m.Introduction? || m.RelayOffer? { AddressedRoundTrip(m); }
    else { PlainRoundTrip(m); }
  }

  lemma PlainCanonical(kind: byte, body: seq<byte>)
    requires kind < 0x80 || kind == 0x83
    requires DecodeBody(kind, body).Some?
    ensures var m := DecodeBody(kind, body).value;
            m.Valid() && Kind(m) == kind && Body(m) == body
  {
    if kind == 0x04 { assert body == body[..16] + body[16..]; }
    if kind == 0x83 { assert body == body[..32] + [body[32]]; }
  }

  lemma AnswerCanonical(kind: byte, body: seq<byte>)
    requires kind >= 0x80 && kind != 0x83
    requires DecodeBody(kind, body).Some?
    ensures var m := DecodeBody(kind, body).value;
            m.Valid() && Kind(m) == kind && Body(m) == body
  {
    if kind == 0x85 { MembersCanonical(body); } else { AddressedCanonical(body); }
  }

  lemma AddressedCanonical(body: seq<byte>)
    ensures DecodeObserved(body).Some? ==> Body(DecodeObserved(body).value) == body
    ensures DecodeIntroduction(body).Some? ==> Body(DecodeIntroduction(body).value) == body
    ensures DecodeOffer(body).Some? ==> Body(DecodeOffer(body).value) == body
  {
    if TakeAddress(body).Some? { AddressCanonical(body); }
    if TakeKey(body).Some? {
      var rest := TakeKey(body).value.1;
      assert body == TakeKey(body).value.0 + rest;
      if TakeAddress(rest).Some? { AddressCanonical(rest); }
    }
  }

  /** Whatever decodes is spelled the one way encoding spells it. */
  lemma MessageCanonical(input: seq<byte>)
    requires Decode(input).Some?
    ensures Decode(input).value.Valid() && Encode(Decode(input).value) == input
  {
    if input[0] < 0x80 || input[0] == 0x83 { PlainCanonical(input[0], input[1..]); }
    else { AnswerCanonical(input[0], input[1..]); }
    assert input == [input[0]] + input[1..];
  }
}
