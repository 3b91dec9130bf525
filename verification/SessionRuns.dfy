/** What a session guarantees over every run: which frames open, under which keys,
    and that nothing rejected leaves a trace. */
module SessionRuns {
  import opened Bits
  import opened Outcomes
  import opened Wire
  import opened Frames
  import opened Session
  import Replay

  /** Whether an authentic frame opens, said only about the sequence numbers
      accepted so far: it is unseen and less than 64 below the highest, at most
      four generations ahead, and not from a generation that was jumped over. */
  predicate Opens(accepted: set<nat>, sequence: nat) {
    && Replay.Acceptable(accepted, sequence)
    && (if accepted == {} then sequence / 65536 <= 4 else exists a <- accepted :: sequence / 65536 <= a / 65536 + 4)
    && ((forall a <- accepted :: a / 65536 <= sequence / 65536)
        || sequence / 65536 == 0
        || exists a <- accepted :: a / 65536 == sequence / 65536)
  }

  /** Receiving state after exactly `accepted` has been opened: the generation is
      that of the highest number, `recv` is its key, and the key before it is held
      unless its generation was jumped over. */
  ghost predicate Receiving(s: State, root: Key, accepted: set<nat>) {
    && Replay.Tracks(s.replay, accepted)
    && s.recvGeneration == (if accepted == {} then 0 else Generation(s.replay.highest))
    && s.recv == KeyUp(root, s.recvGeneration)
    && (s.recvPrev.Some? ==> s.recvGeneration > 0 && s.recvPrev.value == KeyUp(root, s.recvGeneration - 1))
    && (s.recvPrev.Some? <==>
          s.recvGeneration == 1 ||
          (s.recvGeneration > 1 && exists a <- accepted :: Generation(a) == s.recvGeneration - 1))
  }

  lemma GenerationMonotone(a: nat, b: nat)
    requires a <= b
    ensures Generation(a) <= Generation(b)
    ensures b < a + Replay.REPLAY_WINDOW ==> Generation(b) <= Generation(a) + 1
  {
  }

  /** A number that passes the replay check is never more than one generation
      behind, so the refusal of anything older is unreachable. */
  lemma NeverTwoGenerationsBehind(s: State, root: Key, accepted: set<nat>, sequence: u64)
    requires Receiving(s, root, accepted)
    requires Replay.Check(s.replay, sequence).Ok?
    ensures s.recvGeneration <= Generation(sequence) + 1
  {
    Replay.CheckExact(s.replay, accepted, sequence);
    if accepted != {} {
      if sequence <= s.replay.highest { GenerationMonotone(sequence, s.replay.highest); }
      else { GenerationMonotone(s.replay.highest, sequence); }
    }
  }

  /** The key tried is always the one the sequence number names, and a key is found
      exactly for the numbers `Opens` describes. */
  lemma KeyForSequence(s: State, root: Key, accepted: set<nat>, sequence: u64)
    requires Receiving(s, root, accepted)
    ensures Replay.Check(s.replay, sequence).Ok? && ChooseKey(s, Generation(sequence)).Ok? <==> Opens(accepted, sequence)
    ensures Replay.Check(s.replay, sequence).Ok? && ChooseKey(s, Generation(sequence)).Ok? ==>
              ChooseKey(s, Generation(sequence)).value == KeyUp(root, Generation(sequence))
  {
    Replay.CheckExact(s.replay, accepted, sequence);
    var g := Generation(sequence);
    if Replay.Acceptable(accepted, sequence) {
      NeverTwoGenerationsBehind(s, root, accepted, sequence);
      if g > s.recvGeneration { KeyUpAdds(root, s.recvGeneration, g - s.recvGeneration); }
      forall a | a in accepted ensures Generation(a) <= s.recvGeneration {
        GenerationMonotone(a, s.replay.highest);
      }
    }
  }

  lemma AdoptKeeps(s: State, root: Key, accepted: set<nat>, sequence: u64)
    requires Receiving(s, root, accepted) && Opens(accepted, sequence)
    ensures Receiving(Adopted(s, Generation(sequence)).(replay := Replay.CommitStep(s.replay, sequence)),
                      root, accepted + {sequence})
  {
    var g := Generation(sequence);
    var s' := Adopted(s, g).(replay := Replay.CommitStep(s.replay, sequence));
    var accepted' := accepted + {sequence};
    Replay.CommitTracks(s.replay, accepted, sequence);
    if accepted != {} {
      if sequence <= s.replay.highest { GenerationMonotone(sequence, s.replay.highest); }
      else { GenerationMonotone(s.replay.highest, sequence); }
    }
    if g > s.recvGeneration {
      KeyUpAdds(root, s.recvGeneration, g - s.recvGeneration);
      forall a | a in accepted ensures Generation(a) <= s.recvGeneration {
        GenerationMonotone(a, s.replay.highest);
      }
      if g == s.recvGeneration + 1 && g > 1 {
        assert s.replay.highest in accepted' && Generation(s.replay.highest) == g - 1;
      }
    } else {
      assert s'.recvGeneration == s.recvGeneration;
      if s.recvGeneration > 1 && s.recvPrev.Some? {
        var a :| a in accepted && Generation(a) == s.recvGeneration - 1;
        assert a in accepted';
      }
    }
  }

  /** Whatever bytes arrive, forged ones included: an opened frame adds its number
      to those accepted, and a refused one changes nothing. */
  lemma OpenKeeps(a: Aead, s: State, root: Key, accepted: set<nat>, frame: seq<byte>)
    requires Receiving(s, root, accepted)
    ensures var (s', r) := OpenStep(a, s, frame);
            match r
            case Err(_) => s' == s
            case Ok(o) => Opens(accepted, o.header.sequence) && Receiving(s', root, accepted + {o.header.sequence})
  {
    var (s', r) := OpenStep(a, s, frame);
    if r.Ok? {
      var h := DecodeHeader(frame).value;
      KeyForSequence(s, root, accepted, h.sequence);
      AdoptKeeps(s, root, accepted, h.sequence);
    }
  }

  // ---- Runs of the receiver -----------------------------------------------------

  /** Feeds frames one after another, keeping every result. */
  function OpenAll(a: Aead, s: State, frames: seq<seq<byte>>): (State, seq<Result<Opening>>)
    decreases |frames|
  {
    if frames == [] then (s, [])
    else
      var (s1, r) := OpenStep(a, s, frames[0]);
      var (s2, rs) := OpenAll(a, s1, frames[1..]);
      (s2, [r] + rs)
  }

  /** The frames of a trace that opened. */
  function Kept(a: Aead, s: State, frames: seq<seq<byte>>): seq<seq<byte>>
    decreases |frames|
  {
    if frames == [] then []
    else
      var (s1, r) := OpenStep(a, s, frames[0]);
      var rest := Kept(a, s1, frames[1..]);
      if r.Ok? then [frames[0]] + rest else rest
  }

  function Successes(rs: seq<Result<Opening>>): seq<Result<Opening>> {
    if rs == [] then []
    else if rs[0].Ok? then [rs[0]] + Successes(rs[1..])
    else Successes(rs[1..])
  }

  /** Deleting every refused frame from a trace changes neither the state it ends
      in nor any of the results that remain. */
  lemma {:induction false} RejectedFramesLeaveNoTrace(a: Aead, s: State, frames: seq<seq<byte>>)
    ensures OpenAll(a, s, Kept(a, s, frames)) ==
            (OpenAll(a, s, frames).0, Successes(OpenAll(a, s, frames).1))
    decreases |frames|
  {
    if frames != [] {
      var (s1, r) := OpenStep(a, s, frames[0]);
      var (s2, rs) := OpenAll(a, s1, frames[1..]);
      RejectedFramesLeaveNoTrace(a, s1, frames[1..]);
      assert ([r] + rs)[1..] == rs;
      var kept := Kept(a, s1, frames[1..]);
      if r.Ok? {
        assert ([frames[0]] + kept)[1..] == kept;
      }
    }
  }

  function AcceptedNumbers(rs: seq<Result<Opening>>): set<nat> {
    set i | 0 <= i < |rs| && rs[i].Ok? :: rs[i].value.header.sequence
  }

  /** In every run of arbitrary frames the receiving keys stay on the chain and the
      window records exactly the numbers accepted. */
  lemma {:induction false} ReceiverRun(a: Aead, s: State, root: Key, accepted: set<nat>, frames: seq<seq<byte>>)
    requires Receiving(s, root, accepted)
    ensures Receiving(OpenAll(a, s, frames).0, root, accepted + AcceptedNumbers(OpenAll(a, s, frames).1))
    decreases |frames|
  {
    if frames == [] {
      assert accepted + AcceptedNumbers([]) == accepted;
    } else {
      var (s1, r) := OpenStep(a, s, frames[0]);
      var (s2, rs) := OpenAll(a, s1, frames[1..]);
      OpenKeeps(a, s, root, accepted, frames[0]);
      var accepted1 := if r.Ok? then accepted + {r.value.header.sequence} else accepted;
      ReceiverRun(a, s1, root, accepted1, frames[1..]);
      NumbersOfCons(r, rs);
      assert accepted + AcceptedNumbers([r] + rs) == accepted1 + AcceptedNumbers(rs);
    }
  }

  lemma NumbersOfCons(r: Result<Opening>, rs: seq<Result<Opening>>)
    ensures AcceptedNumbers([r] + rs) ==
            (if r.Ok? then {r.value.header.sequence} else {}) + AcceptedNumbers(rs)
  {
    var all := [r] + rs;
    forall n
      ensures n in AcceptedNumbers(all) <==>
              (r.Ok? && n == r.value.header.sequence) || n in AcceptedNumbers(rs)
    {
      if n in AcceptedNumbers(rs) {
        var i :| 0 <= i < |rs| && rs[i].Ok? && rs[i].value.header.sequence == n;
        assert all[i + 1] == rs[i];
      }
      if r.Ok? && n == r.value.header.sequence { assert all[0] == r; }
    }
  }

  lemma FreshReceiver(send: Key, root: Key, id: u32)
    ensures Receiving(NewState(send, root, id), root, {})
  {
  }

  // ---- Runs of the sender -------------------------------------------------------

  predicate Sending(s: State, root: Key) {
    s.send == KeyUp(root, s.sendGeneration) && s.sendGeneration <= Generation(s.sendSeq)
  }

  datatype SealCall = SealCall(o: Outgoing, room: nat)

  /** What a successful call sealed, and the frame it became. */
  datatype Sealed = Sealed(o: Outgoing, frame: seq<byte>)

  /** A run of seal calls, failed ones included, and the frames it produced. */
  function SealAll(a: Aead, s: State, calls: seq<SealCall>): (State, seq<Sealed>)
    decreases |calls|
  {
    if calls == [] then (s, [])
    else
      var (s1, r) := SealStep(a, s, calls[0].o, calls[0].room);
      var (s2, frames) := SealAll(a, s1, calls[1..]);
      (s2, if r.Ok? then [Sealed(calls[0].o, r.value)] + frames else frames)
  }

  /** The frame is numbered `n` and sealed under key `n / 65536` of the chain, with
      its own header as associated data. */
  predicate SealedAs(a: Aead, root: Key, sessionId: u32, n: nat, f: Sealed) {
    && n < U64
    && PlaintextLen(|Inner(f.o)|, f.o.padding).Ok?
    && var hdr := HeaderBytes(Header(f.o.frameType, FlagsFor(f.o), sessionId, n));
       f.frame == hdr + a.seal(KeyUp(root, n / 65536), n, hdr, Plaintext(f.o))
  }

  /** The frames carry the numbers `n`, `n + 1` and so on, each under its own key. */
  predicate NumberedFrom(a: Aead, root: Key, id: u32, n: nat, frames: seq<Sealed>) {
    forall i :: 0 <= i < |frames| ==> SealedAs(a, root, id, n + i, frames[i])
  }

  lemma SealKeeps(a: Aead, s: State, root: Key, o: Outgoing, room: nat)
    requires Sending(s, root)
    ensures var (s', r) := SealStep(a, s, o, room);
            && Sending(s', root) && s'.sessionId == s.sessionId
            && (r.Err? ==> s'.sendSeq == s.sendSeq)
            && (r.Ok? ==> s'.sendSeq == s.sendSeq + 1 && SealedAs(a, root, s.sessionId, s.sendSeq, Sealed(o, r.value)))
  {
    if s.sendGeneration < Generation(s.sendSeq) {
      KeyUpAdds(root, s.sendGeneration, Generation(s.sendSeq) - s.sendGeneration);
    }
  }

  /** Over every run of seal calls the frames are numbered consecutively, so no
      number is sealed twice, and frame `n` is sealed under key `n / 65536`. */
  lemma {:induction false} SenderRun(a: Aead, s: State, root: Key, calls: seq<SealCall>)
    requires Sending(s, root)
    ensures Sending(SealAll(a, s, calls).0, root)
    ensures SealAll(a, s, calls).0.sendSeq == s.sendSeq + |SealAll(a, s, calls).1|
    ensures NumberedFrom(a, root, s.sessionId, s.sendSeq, SealAll(a, s, calls).1)
    decreases |calls|
  {
    if calls != [] {
      var (s1, r) := SealStep(a, s, calls[0].o, calls[0].room);
      var frames := SealAll(a, s1, calls[1..]).1;
      SealKeeps(a, s, root, calls[0].o, calls[0].room);
      SenderRun(a, s1, root, calls[1..]);
      if r.Ok? { Numbered(a, root, s.sessionId, s.sendSeq, Sealed(calls[0].o, r.value), frames); }
    }
  }

  lemma Numbered(a: Aead, root: Key, id: u32, n: nat, f: Sealed, rest: seq<Sealed>)
    requires SealedAs(a, root, id, n, f) && NumberedFrom(a, root, id, n + 1, rest)
    ensures NumberedFrom(a, root, id, n, [f] + rest)
  {
    var all := [f] + rest;
    forall i | 0 <= i < |all|
      ensures SealedAs(a, root, id, n + i, all[i])
    {
      if i > 0 { assert SealedAs(a, root, id, n + 1 + (i - 1), rest[i - 1]); }
    }
  }

  // ---- The frame round trip -----------------------------------------------------

  /** What the public seal calls produce: caller flags within the compressed bit, a
      coherent descriptor, and path frames carrying a bare token. */
  predicate WellFormed(o: Outgoing) {
    && o.flags <= 1
    && (o.fragment.Some? ==> o.fragment.value.Coherent())
    && o.frameType in {Data, Close, AckFrame, PathChallenge, PathResponse}
    && (o.frameType.PathChallenge? || o.frameType.PathResponse? ==>
          |o.payload| == 8 && o.messageId.None? && o.fragment.None? && o.flags == 0)
    && (o.frameType.PathResponse? ==> o.padding.NoPadding?)
  }

  lemma FlagBits(o: Outgoing)
    requires o.flags <= 1
    ensures FlagsFor(o) < KNOWN_FLAGS
    ensures Bit(FlagsFor(o), RELIABLE) <==> o.messageId.Some?
    ensures Bit(FlagsFor(o), FRAGMENT) <==> o.fragment.Some?
    ensures Bit(FlagsFor(o), PADDED) <==> !o.padding.NoPadding?
    ensures Bit(FlagsFor(o), COMPRESSED) <==> o.flags == 1
    ensures o.flags == 0 && o.messageId.None? && o.fragment.None? ==>
              FlagsFor(o) == if o.padding.NoPadding? then 0 else 4
  {
    assert !Bit(o.flags, 1) && !Bit(o.flags, 2) && !Bit(o.flags, 3) by { ZeroBit(0); ZeroBit(1); ZeroBit(2); }
    assert Pow2(2) == 4;
    ZeroBit(2);
  }

  lemma UnpadPlaintext(o: Outgoing)
    requires o.flags <= 1 && PlaintextLen(|Inner(o)|, o.padding).Ok?
    ensures Unpad(FlagsFor(o), Plaintext(o)) == Ok(Inner(o))
  {
    FlagBits(o);
    if !o.padding.NoPadding? {
      var pt := Plaintext(o);
      assert pt[..LEN_PREFIX] == Le16(|Inner(o)|);
      assert pt[LEN_PREFIX..LEN_PREFIX + |Inner(o)|] == Inner(o);
    }
  }

  /** Peeling returns exactly the parts that were laid out. */
  lemma PeelPlaintext(h: Header, o: Outgoing)
    requires WellFormed(o) && PlaintextLen(|Inner(o)|, o.padding).Ok?
    requires h.flags == FlagsFor(o)
    ensures Peel(h, Plaintext(o)) == Ok(Opening(h, o.messageId, o.fragment, o.payload))
  {
    FlagBits(o);
    UnpadPlaintext(o);
    var inner := Inner(o);
    var rest := FragmentPart(o.fragment) + o.payload;
    if o.messageId.Some? {
      assert inner[..MESSAGE_ID_LEN] == Le32(o.messageId.value);
      assert inner[MESSAGE_ID_LEN..] == rest;
    } else {
      assert inner == rest;
    }
    if o.fragment.Some? {
      assert rest[..FRAGMENT_LEN] == FragmentBytes(o.fragment.value);
      assert rest[FRAGMENT_LEN..] == o.payload;
      FragmentRoundTrip(o.fragment.value);
    } else {
      assert rest == o.payload;
    }
  }

  /** The whole path of a frame, for every padding mode, at whatever moment it
      arrives: a frame the peer sealed opens exactly when `Opens` says, and then
      yields the header, identifier, descriptor and payload that went in. */
  lemma FrameRoundTrip(a: Aead, tx: State, rx: State, root: Key, accepted: set<nat>, o: Outgoing, room: nat)
    requires Ideal(a) && WellFormed(o)
    requires Sending(tx, root) && Receiving(rx, root, accepted) && tx.sessionId == rx.sessionId
    requires SealStep(a, tx, o, room).1.Ok?
    ensures var frame := SealStep(a, tx, o, room).1.value;
            var (rx', r) := OpenStep(a, rx, frame);
            && |frame| == DATA_OVERHEAD + PlaintextLen(|Inner(o)|, o.padding).value <= room
            && (r.Ok? <==> Opens(accepted, tx.sendSeq))
            && (r.Ok? ==>
                  && r.value == Opening(HeaderFor(tx, o), o.messageId, o.fragment, o.payload)
                  && Receiving(rx', root, accepted + {tx.sendSeq}))
  {
    var frame := SealStep(a, tx, o, room).1.value;
    var h := HeaderFor(tx, o);
    var hdr := HeaderBytes(h);
    SealKeeps(a, tx, root, o, room);
    var body := a.seal(KeyUp(root, Generation(tx.sendSeq)), tx.sendSeq, hdr, Plaintext(o));
    FlagBits(o);
    HeaderRoundTrip(h, body);
    assert frame[..HEADER_LEN] == hdr && frame[HEADER_LEN..] == body;
    KeyForSequence(rx, root, accepted, tx.sendSeq);
    PeelPlaintext(h, o);
    OpenKeeps(a, rx, root, accepted, frame);
  }

  /** A block-padded plaintext is a multiple of 64 that depends only on which 64-byte
      bucket its length falls in. */
  lemma BlockPaddingHidesLength(inner: nat, other: nat)
    requires inner < U16 && other < U16
    ensures PlaintextLen(inner, Block).Ok? && PlaintextLen(inner, Block).value % PAD_BLOCK == 0
    ensures (inner + 1) / PAD_BLOCK == (other + 1) / PAD_BLOCK <==>
            PlaintextLen(inner, Block) == PlaintextLen(other, Block)
  {
    assert RoundUp(LEN_PREFIX + inner) == PAD_BLOCK * ((inner + 1) / PAD_BLOCK + 1);
    assert RoundUp(LEN_PREFIX + other) == PAD_BLOCK * ((other + 1) / PAD_BLOCK + 1);
  }

  /** A probe of at least 40 bytes is sealed to exactly the size asked for. */
  lemma ProbeIsExactlyItsSize(a: Aead, s: State, token: seq<byte>, frameLen: nat, room: nat)
    requires Ideal(a) && |token| == 8
    requires 40 <= frameLen <= room && s.sendSeq < U64 - 1
    ensures var o := Outgoing(PathChallenge, token, None, None, 0, Exact(frameLen - DATA_OVERHEAD));
            && WellFormed(o)
            && SealStep(a, s, o, room).1.Ok?
            && |SealStep(a, s, o, room).1.value| == frameLen
  {
    var o := Outgoing(PathChallenge, token, None, None, 0, Exact(frameLen - DATA_OVERHEAD));
    assert |Inner(o)| == PATH_TOKEN_LEN;
  }

  // ---- The assumption can be met --------------------------------------------------

  function Plain(): Aead {
    Aead((k: Key, n: u64, ad: seq<byte>, pt: seq<byte>) => pt + Zeros(TAGLEN),
         (k: Key, n: u64, ad: seq<byte>, ct: seq<byte>) =>
           if |ct| >= TAGLEN then Some(ct[..|ct| - TAGLEN]) else None)
  }

  lemma PlainIsIdeal()
    ensures Ideal(Plain())
  {
    forall k: Key, n: u64, ad: seq<byte>, pt: seq<byte>
      ensures Plain().open(k, n, ad, Plain().seal(k, n, ad, pt)) == Some(pt)
    {
      assert (pt + Zeros(TAGLEN))[..|pt|] == pt;
    }
  }
}
