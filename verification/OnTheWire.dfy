/** What is on the wire: every frame that carries a message is the first sending of it or one of
    its recorded resends, and each of those is a frame. */
module OnTheWire {
  import opened Bits
  import opened Outcomes
  import SR = SenderRuns
  import RT = Retransmit
  import opened LinkRuns
  import opened Pipeline
  import Runs = PipelineRuns
  import Cuts
  import Arq
  import opened EndToEnd

  /** Frames that carry message `g`. */
  function Carrying(frames: seq<Option<nat>>, g: nat): nat {
    if frames == [] then 0
    else Carrying(frames[..|frames| - 1], g) + if frames[|frames| - 1] == Some(g) then 1 else 0
  }

  /** Resends of message `g`. */
  function Times(resent: seq<(nat, Frame)>, g: nat): nat {
    if resent == [] then 0
    else Times(resent[..|resent| - 1], g) + if resent[|resent| - 1].0 == g then 1 else 0
  }

  predicate MatchedAt(frames: seq<Option<nat>>, log: Log, g: nat) {
    Carrying(frames, g) == (if g in log.sent then 1 else 0) + Times(log.resent, g)
  }

  ghost predicate Matched(frames: seq<Option<nat>>, log: Log) {
    forall g: nat :: MatchedAt(frames, log, g)
  }

  lemma OneMoreFrame(frames: seq<Option<nat>>, m: Option<nat>, g: nat)
    ensures Carrying(frames + [m], g) == Carrying(frames, g) + if m == Some(g) then 1 else 0
  {
    assert (frames + [m])[..|frames|] == frames;
  }

  lemma {:induction false} TimesBoth(a: seq<(nat, Frame)>, b: seq<(nat, Frame)>, g: nat)
    ensures Times(a + b, g) == Times(a, g) + Times(b, g)
  {
    if b == [] {
      assert a + b == a;
    } else {
      TimesBoth(a, b[..|b| - 1], g);
      assert (a + b)[..|a + b| - 1] == a + b[..|b| - 1];
    }
  }

  /** A first sending: one more frame, and one more message sent. */
  lemma LaunchMatched(frames: seq<Option<nat>>, log: Log, id: nat, frame: Frame)
    requires Matched(frames, log) && id !in log.sent
    ensures Matched(frames + [Some(id)], log.(sent := log.sent[id := frame]))
  {
    var after := log.(sent := log.sent[id := frame]);
    forall g: nat ensures MatchedAt(frames + [Some(id)], after, g) {
      assert MatchedAt(frames, log, g);
      OneMoreFrame(frames, Some(id), g);
    }
  }

  lemma SameMatched(frames: seq<Option<nat>>, log: Log, after: Log)
    requires Matched(frames, log) && after.sent == log.sent && after.resent == log.resent
    ensures Matched(frames, after)
  {
    forall g: nat ensures MatchedAt(frames, after, g) { assert MatchedAt(frames, log, g); }
  }

  lemma OtherMatched(frames: seq<Option<nat>>, log: Log)
    requires Matched(frames, log)
    ensures Matched(frames + [None], log)
  {
    forall g: nat ensures MatchedAt(frames + [None], log, g) {
      assert MatchedAt(frames, log, g);
      OneMoreFrame(frames, None, g);
    }
  }

  // ---- Sending -----------------------------------------------------------------------------

  /** A registration below: a frame exactly when the message is registered and goes out. */
  lemma SendFrames(y: Arq.System, now: u64, went: bool)
    ensures var z := Arq.Step(y, if went then Arq.Send(now) else Arq.Lost(now));
            z.frames == if went && RT.RegisterStep(y.sender.q, now).Ok? then y.frames + [Some(y.sender.next)] else y.frames
  {
  }

  lemma LaunchedMatched(frames: seq<Option<nat>>, s: State, frame: Frame, went: bool)
    requires Matched(frames, s.log) && Runs.Recorded(s)
    ensures Matched(if went then frames + [Some(s.link.next)] else frames, Launched(s, frame, went).log)
  {
    if went {
      LaunchMatched(frames, s.log, s.link.next, frame);
    } else {
      SameMatched(frames, s.log, Launched(s, frame, false).log);
    }
  }

  lemma FedMatched(frames: seq<Option<nat>>, s: State, went: bool)
    requires Matched(frames, s.log) && Runs.Recorded(s)
    requires s.queue != [] && s.queue[0].Ok() && s.queue[0].next < s.queue[0].m.Count()
    ensures Matched(if went then frames + [Some(s.link.next)] else frames, Fed(s, went).log)
  {
    var after := Launched(s, s.queue[0].FrameAt(s.queue[0].next), went);
    LaunchedMatched(frames, s, s.queue[0].FrameAt(s.queue[0].next), went);
    SameMatched(if went then frames + [Some(s.link.next)] else frames, after.log, Fed(s, went).log);
  }

  ghost predicate FeedsMatched(below: seq<Arq.Event>, s: State, now: u64, open: nat -> bool, sent: nat -> bool, k: nat)
    requires s.queue != [] && s.queue[0].Ok()
  {
    Matched(Arq.Run(below + Feeding(s, now, open, sent, k)).frames, Feed(s, open, sent, k).0.log)
  }

  lemma FeedNone(below: seq<Arq.Event>, s: State, now: u64, open: nat -> bool, sent: nat -> bool, k: nat)
    requires s.queue != [] && s.queue[0].Ok() && Matched(Arq.Run(below).frames, s.log)
    requires s.queue[0].lost || s.queue[0].next >= s.queue[0].m.Count() || !open(k)
    ensures FeedsMatched(below, s, now, open, sent, k)
  {
    assert below + [] == below;
  }

  lemma FeedLast(below: seq<Arq.Event>, s: State, now: u64, open: nat -> bool, sent: nat -> bool, k: nat)
    requires s.queue != [] && s.queue[0].Ok()
    requires !s.queue[0].lost && s.queue[0].next < s.queue[0].m.Count() && open(k) && !sent(k)
    requires Matched(Arq.Run(below + [Arq.Lost(now)]).frames, Fed(s, false).log)
    ensures FeedsMatched(below, s, now, open, sent, k)
  {
  }

  lemma FeedMore(below: seq<Arq.Event>, s: State, now: u64, open: nat -> bool, sent: nat -> bool, k: nat)
    requires s.queue != [] && s.queue[0].Ok()
    requires !s.queue[0].lost && s.queue[0].next < s.queue[0].m.Count() && open(k) && sent(k)
    requires FeedsMatched(below + [Arq.Send(now)], Fed(s, true), now, open, sent, k + 1)
    ensures FeedsMatched(below, s, now, open, sent, k)
  {
    var rest := Feeding(Fed(s, true), now, open, sent, k + 1);
    assert Feeding(s, now, open, sent, k) == [Arq.Send(now)] + rest;
    assert below + ([Arq.Send(now)] + rest) == below + [Arq.Send(now)] + rest;
  }

  /** One fragment fed: the frame below and the record above. */
  lemma OneFed(below: seq<Arq.Event>, from: SR.Sender, s: State, now: u64, k: nat, went: bool)
    requires Runs.Mid(s) && s.queue != [] && s.queue[0].next < s.queue[0].m.Count()
    requires Matched(Arq.Run(below).frames, s.log) && OpenAt(from, now)(k)
    requires Arq.Run(below).sender == After(from, now, k) && LinkOf(After(from, now, k)) == s.link
    ensures Matched(Arq.Run(below + [if went then Arq.Send(now) else Arq.Lost(now)]).frames, Fed(s, went).log)
  {
    SendFrames(Arq.Run(below), now, went);
    RunBelow(below, if went then Arq.Send(now) else Arq.Lost(now));
    FedMatched(Arq.Run(below).frames, s, went);
  }

  /** What holds of a pass part of the way through. */
  ghost predicate Underway(below: seq<Arq.Event>, from: SR.Sender, s: State, now: u64, k: nat) {
    && Runs.Mid(s) && s.queue != [] && s.queue[0].Ok() && Matched(Arq.Run(below).frames, s.log)
    && Arq.Run(below).sender == After(from, now, k) && LinkOf(After(from, now, k)) == s.link
  }

  lemma FedOn(below: seq<Arq.Event>, from: SR.Sender, s: State, now: u64, k: nat)
    requires Underway(below, from, s, now, k) && s.queue[0].next < s.queue[0].m.Count() && OpenAt(from, now)(k)
    ensures Underway(below + [Arq.Send(now)], from, Fed(s, true), now, k + 1)
    ensures Fed(s, true).queue[0] == Advanced(s.queue[0], s.link.next)
  {
    OneFed(below, from, s, now, k, true);
    FedInStep(below, from, s, now, k, true);
    Runs.FedKeeps(s, true);
  }

  lemma FeedEnds(below: seq<Arq.Event>, from: SR.Sender, s: State, now: u64, sent: nat -> bool, k: nat)
    requires Underway(below, from, s, now, k) && s.queue[0].next < s.queue[0].m.Count() && !s.queue[0].lost
    requires OpenAt(from, now)(k) && !sent(k)
    ensures FeedsMatched(below, s, now, OpenAt(from, now), sent, k)
  {
    OneFed(below, from, s, now, k, false);
    FeedLast(below, s, now, OpenAt(from, now), sent, k);
  }

  lemma {:induction false} FeedMatched(below: seq<Arq.Event>, from: SR.Sender, s: State, now: u64, sent: nat -> bool, k: nat)
    requires Underway(below, from, s, now, k)
    ensures FeedsMatched(below, s, now, OpenAt(from, now), sent, k)
    decreases s.queue[0].m.Count() - s.queue[0].next
  {
    var job, open := s.queue[0], OpenAt(from, now);
    if job.lost || job.next >= job.m.Count() || !open(k) {
      FeedNone(below, s, now, open, sent, k);
    } else if sent(k) {
      FedOn(below, from, s, now, k);
      FeedMatched(below + [Arq.Send(now)], from, Fed(s, true), now, sent, k + 1);
      FeedMore(below, s, now, open, sent, k);
    } else {
      FeedEnds(below, from, s, now, sent, k);
    }
  }

  lemma DriveMatched(below: seq<Arq.Event>, s: State, now: u64, sent: nat -> bool)
    requires Runs.Inv(s) && Matched(Arq.Run(below).frames, s.log) && LinkOf(Arq.Run(below).sender) == s.link
    ensures var open := OpenAt(Arq.Run(below).sender, now);
            Matched(Arq.Run(below + Driving(s, now, open, sent)).frames, DriveQueue(s, open, sent).0.log)
  {
    var from := Arq.Run(below).sender;
    var open := OpenAt(from, now);
    if s.queue == [] {
      assert below + [] == below;
    } else {
      var taken := TakeLost(s);
      Runs.TakeLostKeeps(s);
      FeedMatched(below, from, taken, now, sent, 0);
      SettledMatched(Arq.Run(below + Driving(s, now, open, sent)).frames, s, open, sent);
    }
  }

  lemma SettledMatched(frames: seq<Option<nat>>, s: State, open: nat -> bool, sent: nat -> bool)
    requires s.queue != [] && s.queue[0].Ok() && Matched(frames, Feed(TakeLost(s), open, sent, 0).0.log)
    ensures Matched(frames, DriveQueue(s, open, sent).0.log)
  {
    FeedShape(TakeLost(s), open, sent, 0);
    SameMatched(frames, Feed(TakeLost(s), open, sent, 0).0.log, DriveQueue(s, open, sent).0.log);
  }

  // ---- Resending ----------------------------------------------------------------------------

  lemma {:induction false} ResealFrames(below: seq<Arq.Event>, resent: seq<(nat, Frame)>, g: nat)
    requires forall k :: 0 <= k < |resent| ==> resent[k].0 in SR.Flying(Arq.Run(below).sender)
    ensures Carrying(Arq.Run(below + Resealing(resent)).frames, g) == Carrying(Arq.Run(below).frames, g) + Times(resent, g)
  {
    if resent == [] {
      assert below + [] == below;
    } else {
      var front, id := resent[..|resent| - 1], resent[|resent| - 1].0;
      ResealFrames(below, front, g);
      ResealingSeals(below, front);
      ResealingLast(below, resent);
      OneResealed(below + Resealing(front), id, g);
    }
  }

  lemma OneResealed(below: seq<Arq.Event>, id: nat, g: nat)
    requires id in SR.Flying(Arq.Run(below).sender)
    ensures Carrying(Arq.Run(below + [Arq.Reseal(id)]).frames, g) == Carrying(Arq.Run(below).frames, g) + if id == g then 1 else 0
  {
    RunBelow(below, Arq.Reseal(id));
    OneMoreFrame(Arq.Run(below).frames, Some(id), g);
  }

  /** What a pass resends is still in flight once the poll is done. */
  lemma ResendsFly(s: State, due: seq<Due>, sent: nat -> bool)
    requires Runs.DueOk(s.link, due)
    ensures var t := DriveRetransmits(s, due, sent).0;
            && t.log.resent == s.log.resent + ResentSince(s, t) && t.log.sent == s.log.sent
            && forall k :: 0 <= k < |ResentSince(s, t)| ==>
                 ResentSince(s, t)[k].0 in s.link.GivenUp(GaveUpIds(due)).flying
  {
    var idx := Runs.PassResends(s, due, sent);
    Cuts.WorkPieces(s.(link := s.link.GivenUp(GaveUpIds(due))), due, sent, 0);
    var t := DriveRetransmits(s, due, sent).0;
    forall k | 0 <= k < |ResentSince(s, t)| ensures ResentSince(s, t)[k].0 in s.link.GivenUp(GaveUpIds(due)).flying {
      assert ResentSince(s, t)[k] == t.log.resent[|s.log.resent| + k];
      assert idx[k] in idx && Runs.GoesOut(s.pending.Keys, due, sent, 0, idx[k]);
    }
  }

  lemma PassMatched(below: seq<Arq.Event>, s: State, t: State)
    requires Matched(Arq.Run(below).frames, s.log)
    requires t.log.resent == s.log.resent + ResentSince(s, t) && t.log.sent == s.log.sent
    requires forall k :: 0 <= k < |ResentSince(s, t)| ==> ResentSince(s, t)[k].0 in SR.Flying(Arq.Run(below).sender)
    ensures Matched(Arq.Run(below + Resealing(ResentSince(s, t))).frames, t.log)
  {
    var resent := ResentSince(s, t);
    forall g: nat ensures MatchedAt(Arq.Run(below + Resealing(resent)).frames, t.log, g) {
      assert MatchedAt(Arq.Run(below).frames, s.log, g);
      ResealFrames(below, resent, g);
      TimesBoth(s.log.resent, resent, g);
    }
  }

  // ---- Every run --------------------------------------------------------------------------------

  lemma TickMatched(below: seq<Arq.Event>, above: seq<Runs.Event>, now: u64, room: nat, sent: nat -> bool)
    requires InStep(below, above) && Matched(Arq.Run(below).frames, Runs.Run(above).log)
    ensures var y, s := Arq.Run(below), Runs.Run(above);
            Matched(Arq.Run(below + ([Arq.Poll(now, room)] + Retransmitting(y, s, now, room, sent))).frames,
                    DriveRetransmits(s, Items(y.sender, now, room), sent).0.log)
  {
    FlyingBelow(below, Runs.Run(above), now, room, sent);
    TickFrames(below, Runs.Run(above), DriveRetransmits(Runs.Run(above), Items(Arq.Run(below).sender, now, room), sent).0, now, room);
  }

  lemma TickFrames(below: seq<Arq.Event>, s: State, t: State, now: u64, room: nat)
    requires Matched(Arq.Run(below).frames, s.log)
    requires t.log.resent == s.log.resent + ResentSince(s, t) && t.log.sent == s.log.sent
    requires forall k :: 0 <= k < |ResentSince(s, t)| ==>
               ResentSince(s, t)[k].0 in SR.Flying(Arq.Run(below + [Arq.Poll(now, room)]).sender)
    ensures Matched(Arq.Run(below + ([Arq.Poll(now, room)] + Resealing(ResentSince(s, t)))).frames, t.log)
  {
    PollFrames(below, now, room);
    PassMatched(below + [Arq.Poll(now, room)], s, t);
    Regroup(below, Arq.Poll(now, room), Resealing(ResentSince(s, t)));
  }

  lemma PollFrames(below: seq<Arq.Event>, now: u64, room: nat)
    ensures Arq.Run(below + [Arq.Poll(now, room)]).frames == Arq.Run(below).frames
  {
    RunBelow(below, Arq.Poll(now, room));
  }

  lemma FlyingBelow(below: seq<Arq.Event>, s: State, now: u64, room: nat, sent: nat -> bool)
    requires LinkOf(Arq.Run(below).sender) == s.link
    ensures var t := DriveRetransmits(s, Items(Arq.Run(below).sender, now, room), sent).0;
            && t.log.resent == s.log.resent + ResentSince(s, t) && t.log.sent == s.log.sent
            && forall k :: 0 <= k < |ResentSince(s, t)| ==>
                 ResentSince(s, t)[k].0 in SR.Flying(Arq.Run(below + [Arq.Poll(now, room)]).sender)
  {
    PolledBelow(below, now, room);
    ResendsFly(s, Items(Arq.Run(below).sender, now, room), sent);
  }

  lemma SendMatched(below: seq<Arq.Event>, above: seq<Runs.Event>, frame: Frame, now: u64, went: bool)
    requires InStep(below, above) && Matched(Arq.Run(below).frames, Runs.Run(above).log)
    ensures var room := RT.RegisterStep(Arq.Run(below).sender.q, now).Ok?;
            Matched(Arq.Run(below + [if went then Arq.Send(now) else Arq.Lost(now)]).frames,
                    Pipeline.SendOne(Runs.Run(above), true, frame, room, went).0.log)
  {
    RunBelow(below, if went then Arq.Send(now) else Arq.Lost(now));
    SendFrames(Arq.Run(below), now, went);
    LaunchedMatched(Arq.Run(below).frames, Runs.Run(above), frame, went);
  }

  lemma QuietFrames(y: Arq.System, e: Arq.Event)
    requires Quiet(e) || e.AckArrives?
    ensures Arq.Step(y, e).frames == if e.SealOther? then y.frames + [None] else y.frames
  {
  }

  lemma OneBelow(below: seq<Arq.Event>, e: Arq.Event, log: Log)
    requires (Quiet(e) || e.AckArrives?) && Matched(Arq.Run(below).frames, log)
    ensures Matched(Arq.Run(below + [e]).frames, log)
  {
    RunBelow(below, e);
    QuietFrames(Arq.Run(below), e);
    OtherMatched(Arq.Run(below).frames, log);
  }

  /** An event above that sends nothing. */
  lemma SilentAbove(above: seq<Runs.Event>, e: Runs.Event)
    requires Runs.RunOk(above) && (e.Queue? || e.ClearCount? || e.Ack?)
    ensures Runs.RunOk(above + [e])
    ensures Runs.Run(above + [e]).log == Runs.Run(above).log
  {
    Runs.RunExtended(above, e);
  }

  lemma LogAfter(above: seq<Runs.Event>, e: Runs.Event)
    requires Runs.RunOk(above) && Runs.EventOk(Runs.Run(above), e)
    ensures Runs.RunOk(above + [e]) && Runs.Run(above + [e]).log == Runs.Step(Runs.Run(above), e).log
  {
    Runs.RunExtended(above, e);
  }

  ghost predicate PlayMatched(p: Play)
    requires Good(p)
  {
    Matched(Arq.Run(p.below).frames, Runs.Run(p.above).log)
  }

  lemma SendNext(p: Play, h: Happening)
    requires Good(p) && Good(Next(p, h)) && PlayMatched(p) && h.SendOne?
    ensures PlayMatched(Next(p, h))
  {
    var frame, room := Whole(h.data, h.shape, h.limit), RT.RegisterStep(Arq.Run(p.below).sender.q, h.now).Ok?;
    SendMatched(p.below, p.above, frame, h.now, h.went);
    LogAfter(p.above, Runs.Send(true, frame, room, h.went));
  }

  lemma DriveNext(p: Play, h: Happening)
    requires Good(p) && Good(Next(p, h)) && PlayMatched(p) && h.Drive?
    ensures PlayMatched(Next(p, h))
  {
    DriveMatched(p.below, Runs.Run(p.above), h.now, h.sent);
    LogAfter(p.above, Runs.Drive(OpenAt(Arq.Run(p.below).sender, h.now), h.sent));
  }

  lemma TickNext(p: Play, h: Happening)
    requires Good(p) && Good(Next(p, h)) && PlayMatched(p) && h.Tick?
    ensures PlayMatched(Next(p, h))
  {
    TickMatched(p.below, p.above, h.now, h.room, h.sent);
    RetransmitLog(p.below, p.above, h.now, h.room, h.sent);
    NextTick(p, h);
  }

  lemma RetransmitLog(below: seq<Arq.Event>, above: seq<Runs.Event>, now: u64, room: nat, sent: nat -> bool)
    requires InStep(below, above)
    ensures var due := Items(Arq.Run(below).sender, now, room);
            && Runs.RunOk(above + [Runs.Retransmit(due, sent)])
            && Runs.Run(above + [Runs.Retransmit(due, sent)]).log == DriveRetransmits(Runs.Run(above), due, sent).0.log
  {
    PolledBelow(below, now, room);
    DriveLog(above, Items(Arq.Run(below).sender, now, room), sent);
  }

  lemma DriveLog(above: seq<Runs.Event>, due: seq<Due>, sent: nat -> bool)
    requires Runs.RunOk(above) && Runs.DueOk(Runs.Run(above).link, due)
    ensures Runs.RunOk(above + [Runs.Retransmit(due, sent)])
    ensures Runs.Run(above + [Runs.Retransmit(due, sent)]).log == DriveRetransmits(Runs.Run(above), due, sent).0.log
  {
    LogAfter(above, Runs.Retransmit(due, sent));
  }

  lemma NextTick(p: Play, h: Happening)
    requires Good(p) && h.Tick?
    ensures var y := Arq.Run(p.below);
            Next(p, h) == Play(p.below + ([Arq.Poll(h.now, h.room)] + Retransmitting(y, Runs.Run(p.above), h.now, h.room, h.sent)),
                               p.above + [Runs.Retransmit(Items(y.sender, h.now, h.room), h.sent)])
  {
  }

  lemma AckNext(p: Play, h: Happening)
    requires Good(p) && Good(Next(p, h)) && PlayMatched(p) && h.AckArrives?
    ensures PlayMatched(Next(p, h))
  {
    var y := Arq.Run(p.below);
    OneBelow(p.below, Arq.AckArrives(h.k, h.now), Runs.Run(p.above).log);
    if h.k < |y.reports| {
      SilentAbove(p.above, Runs.Ack(Covered(y.sender, y.reports[h.k].ack)));
    } else {
      assert p.above + [] == p.above;
    }
  }

  lemma ElsewhereNext(p: Play, h: Happening)
    requires Good(p) && Good(Next(p, h)) && PlayMatched(p) && h.Elsewhere?
    ensures PlayMatched(Next(p, h))
  {
    assert p.below + [] == p.below && p.above + [] == p.above;
    if Quiet(h.e) { OneBelow(p.below, h.e, Runs.Run(p.above).log); }
  }

  lemma SilentNext(p: Play, h: Happening)
    requires Good(p) && Good(Next(p, h)) && PlayMatched(p) && (h.Queue? || h.ClearCount?)
    ensures PlayMatched(Next(p, h))
  {
    if h.Queue? { QueueNext(p, h); } else { ClearNext(p, h); }
  }

  lemma QueueNext(p: Play, h: Happening)
    requires Good(p) && Good(Next(p, h)) && PlayMatched(p) && h.Queue?
    ensures PlayMatched(Next(p, h))
  {
    assert p.below + [] == p.below;
    SilentAbove(p.above, Runs.Queue(h.reliable, h.peerMax, h.data, h.shape, h.limit));
  }

  lemma ClearNext(p: Play, h: Happening)
    requires Good(p) && Good(Next(p, h)) && PlayMatched(p) && h.ClearCount?
    ensures PlayMatched(Next(p, h))
  {
    assert p.below + [] == p.below;
    SilentAbove(p.above, Runs.ClearCount);
  }

  lemma NextMatched(p: Play, h: Happening)
    requires Good(p) && Good(Next(p, h)) && PlayMatched(p)
    ensures PlayMatched(Next(p, h))
  {
    if h.SendOne? { SendNext(p, h); }
    else if h.Drive? { DriveNext(p, h); }
    else if h.Tick? { TickNext(p, h); }
    else if h.AckArrives? { AckNext(p, h); }
    else if h.Elsewhere? { ElsewhereNext(p, h); }
    else { SilentNext(p, h); }
  }

  /** Over every run, the frames that carry a message are its first sending, if it went out, and
      its resends: no frame that nothing accounts for, and no resend without one. */
  lemma {:induction false} EveryFrameIsAccountedFor(hs: seq<Happening>)
    ensures Matched(System(hs).frames, Side(hs).log)
  {
    if hs != [] {
      var front, h := hs[..|hs| - 1], hs[|hs| - 1];
      EveryFrameIsAccountedFor(front);
      NextInStep(Played(front), h);
      NextMatched(Played(front), h);
    }
  }
}
