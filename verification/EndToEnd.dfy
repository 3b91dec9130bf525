/** The sending side over the reliability layer, the network and the receiver: what `Pipeline`
    takes its queue to do is what the queue of `Arq` does, whatever happens, so that a report
    of delivery speaks of what the receiver was handed. */
module EndToEnd {
  import opened Bits
  import opened Outcomes
  import Wire
  import Compress
  import RT = Retransmit
  import SR = SenderRuns
  import opened LinkRuns
  import opened Pipeline
  import Runs = PipelineRuns
  import Arq

  datatype Happening =
    | Queue(reliable: bool, peerMax: nat, data: seq<Wire.byte>, shape: Compress.Shape, limit: nat)
    | SendOne(data: seq<Wire.byte>, shape: Compress.Shape, limit: nat, now: u64, went: bool)
    | Drive(now: u64, sent: nat -> bool)
    | AckArrives(k: nat, now: u64)
    | Tick(now: u64, room: nat, sent: nat -> bool)
    | ClearCount
    | Elsewhere(e: Arq.Event)   // other frames, arrivals, a new path or retry limit

  predicate Quiet(e: Arq.Event) {
    e.SealOther? || e.ForgetPath? || e.SetMaxRetries? || e.Arrive?
  }

  /** A message that goes out whole. */
  function Whole(data: seq<Wire.byte>, shape: Compress.Shape, limit: nat): Frame {
    Frame(data, shape, None, limit)
  }

  /** The queue after `k` more registrations. */
  function After(s: SR.Sender, now: u64, k: nat): SR.Sender {
    if k == 0 then s else SR.Step(After(s, now, k - 1), SR.Register(now))
  }

  /** Whether the `k`-th registration of a pass finds the window open. */
  function OpenAt(s: SR.Sender, now: u64): nat -> bool {
    (k: nat) => RT.RegisterStep(After(s, now, k).q, now).Ok?
  }

  /** What a pass over the queue asks of the reliability layer. */
  function Feeding(s: State, now: u64, open: nat -> bool, sent: nat -> bool, k: nat): seq<Arq.Event>
    requires s.queue != [] && s.queue[0].Ok()
    decreases s.queue[0].m.Count() - s.queue[0].next
  {
    var job := s.queue[0];
    if job.lost || job.next >= job.m.Count() || !open(k) then []
    else if !sent(k) then [Arq.Lost(now)]
    else [Arq.Send(now)] + Feeding(Fed(s, true), now, open, sent, k + 1)
  }

  function Driving(s: State, now: u64, open: nat -> bool, sent: nat -> bool): seq<Arq.Event>
    requires s.queue != [] ==> s.queue[0].Ok()
  {
    if s.queue == [] then [] else Feeding(TakeLost(s), now, open, sent, 0)
  }

  /** The resends of `t` that `s` had not made. */
  function ResentSince(s: State, t: State): seq<(nat, Frame)> {
    if |s.log.resent| <= |t.log.resent| then t.log.resent[|s.log.resent|..] else []
  }

  /** Each is sealed afresh under its own identifier. */
  function Resealing(resent: seq<(nat, Frame)>): (es: seq<Arq.Event>)
    ensures forall i :: 0 <= i < |es| ==> es[i].Reseal?
  {
    if resent == [] then [] else Resealing(resent[..|resent| - 1]) + [Arq.Reseal(resent[|resent| - 1].0)]
  }

  function Retransmitting(y: Arq.System, s: State, now: u64, room: nat, sent: nat -> bool): seq<Arq.Event> {
    Resealing(ResentSince(s, DriveRetransmits(s, Items(y.sender, now, room), sent).0))
  }

  /** What happens below. */
  function Below(y: Arq.System, s: State, h: Happening): seq<Arq.Event>
    requires s.queue != [] ==> s.queue[0].Ok()
  {
    match h
    case Queue(_, _, _, _, _) => []
    case SendOne(_, _, _, now, went) => [if went then Arq.Send(now) else Arq.Lost(now)]
    case Drive(now, sent) => Driving(s, now, OpenAt(y.sender, now), sent)
    case AckArrives(k, now) => [Arq.AckArrives(k, now)]
    case Tick(now, room, sent) => [Arq.Poll(now, room)] + Retransmitting(y, s, now, room, sent)
    case ClearCount => []
    case Elsewhere(e) => if Quiet(e) then [e] else []
  }

  /** What happens above. */
  function Above(y: Arq.System, h: Happening): seq<Runs.Event> {
    match h
    case Queue(reliable, peerMax, data, shape, limit) => [Runs.Queue(reliable, peerMax, data, shape, limit)]
    case SendOne(data, shape, limit, now, went) =>
      [Runs.Send(true, Whole(data, shape, limit), RT.RegisterStep(y.sender.q, now).Ok?, went)]
    case Drive(now, sent) => [Runs.Drive(OpenAt(y.sender, now), sent)]
    case AckArrives(k, _) => if k < |y.reports| then [Runs.Ack(Covered(y.sender, y.reports[k].ack))] else []
    case Tick(now, room, sent) => [Runs.Retransmit(Items(y.sender, now, room), sent)]
    case ClearCount => [Runs.ClearCount]
    case Elsewhere(_) => []
  }

  // ---- The two in step ------------------------------------------------------------------

  ghost predicate InStep(below: seq<Arq.Event>, above: seq<Runs.Event>) {
    Runs.RunOk(above) && LinkOf(Arq.Run(below).sender) == Runs.Run(above).link
  }

  lemma SenderOk(below: seq<Arq.Event>)
    ensures SR.Inv(Arq.Run(below).sender)
  {
    var calls := Arq.SenderIsARun(below);
    SR.RunInv(calls);
  }

  lemma RunBelow(below: seq<Arq.Event>, e: Arq.Event)
    ensures Arq.Run(below + [e]) == Arq.Step(Arq.Run(below), e)
  {
    assert (below + [e])[..|below|] == below;
  }

  /** A message registered below, its first frame sealed or not, is registered above. */
  lemma RegisteredBelow(below: seq<Arq.Event>, now: u64, went: bool)
    ensures var s := Arq.Run(below).sender;
            var t := Arq.Run(below + [if went then Arq.Send(now) else Arq.Lost(now)]).sender;
            && t == SR.Step(s, SR.Register(now))
            && LinkOf(t) == if RT.RegisterStep(s.q, now).Ok? then LinkOf(s).Registered() else LinkOf(s)
  {
    SenderOk(below);
    RunBelow(below, if went then Arq.Send(now) else Arq.Lost(now));
    RegisterIsRegistered(Arq.Run(below).sender, now);
  }

  lemma FedInStep(below: seq<Arq.Event>, from: SR.Sender, s: State, now: u64, k: nat, went: bool)
    requires s.queue != [] && s.queue[0].Ok() && s.queue[0].next < s.queue[0].m.Count()
    requires Arq.Run(below).sender == After(from, now, k) && LinkOf(After(from, now, k)) == s.link
    requires OpenAt(from, now)(k)
    ensures var t := Arq.Run(below + [if went then Arq.Send(now) else Arq.Lost(now)]).sender;
            t == After(from, now, k + 1) && LinkOf(t) == Fed(s, went).link
    ensures Fed(s, true).queue != [] && Fed(s, true).queue[0] == Advanced(s.queue[0], s.link.next)
  {
    RegisteredBelow(below, now, went);
  }

  ghost predicate FeedsInStep(below: seq<Arq.Event>, s: State, now: u64, open: nat -> bool, sent: nat -> bool, k: nat)
    requires s.queue != [] && s.queue[0].Ok()
  {
    LinkOf(Arq.Run(below + Feeding(s, now, open, sent, k)).sender) == Feed(s, open, sent, k).0.link
  }

  lemma FeedStops(below: seq<Arq.Event>, s: State, now: u64, open: nat -> bool, sent: nat -> bool, k: nat)
    requires s.queue != [] && s.queue[0].Ok() && LinkOf(Arq.Run(below).sender) == s.link
    requires s.queue[0].lost || s.queue[0].next >= s.queue[0].m.Count() || !open(k)
    ensures FeedsInStep(below, s, now, open, sent, k)
  {
    assert below + [] == below;
  }

  lemma FeedFails(below: seq<Arq.Event>, s: State, now: u64, open: nat -> bool, sent: nat -> bool, k: nat)
    requires s.queue != [] && s.queue[0].Ok()
    requires !s.queue[0].lost && s.queue[0].next < s.queue[0].m.Count() && open(k) && !sent(k)
    requires LinkOf(Arq.Run(below + [Arq.Lost(now)]).sender) == Fed(s, false).link
    ensures FeedsInStep(below, s, now, open, sent, k)
  {
  }

  lemma FeedGoesOn(below: seq<Arq.Event>, s: State, now: u64, open: nat -> bool, sent: nat -> bool, k: nat)
    requires s.queue != [] && s.queue[0].Ok()
    requires !s.queue[0].lost && s.queue[0].next < s.queue[0].m.Count() && open(k) && sent(k)
    requires FeedsInStep(below + [Arq.Send(now)], Fed(s, true), now, open, sent, k + 1)
    ensures FeedsInStep(below, s, now, open, sent, k)
  {
    var rest := Feeding(Fed(s, true), now, open, sent, k + 1);
    assert Feeding(s, now, open, sent, k) == [Arq.Send(now)] + rest;
    assert below + ([Arq.Send(now)] + rest) == below + [Arq.Send(now)] + rest;
  }

  lemma {:induction false} FeedInStep(below: seq<Arq.Event>, from: SR.Sender, s: State, now: u64, sent: nat -> bool, k: nat)
    requires s.queue != [] && s.queue[0].Ok()
    requires Arq.Run(below).sender == After(from, now, k) && LinkOf(After(from, now, k)) == s.link
    ensures FeedsInStep(below, s, now, OpenAt(from, now), sent, k)
    decreases s.queue[0].m.Count() - s.queue[0].next
  {
    var job, open := s.queue[0], OpenAt(from, now);
    if job.lost || job.next >= job.m.Count() || !open(k) {
      FeedStops(below, s, now, open, sent, k);
    } else {
      FedInStep(below, from, s, now, k, sent(k));
      if sent(k) {
        FeedInStep(below + [Arq.Send(now)], from, Fed(s, true), now, sent, k + 1);
        FeedGoesOn(below, s, now, open, sent, k);
      } else {
        FeedFails(below, s, now, open, sent, k);
      }
    }
  }

  // ---- One happening --------------------------------------------------------------------

  /** What came of everything so far, below and above. */
  datatype Play = Play(below: seq<Arq.Event>, above: seq<Runs.Event>)

  ghost predicate Good(p: Play) {
    InStep(p.below, p.above)
  }

  ghost function Next(p: Play, h: Happening): Play
    requires Good(p)
  {
    var y := Arq.Run(p.below);
    Play(p.below + Below(y, Runs.Run(p.above), h), p.above + Above(y, h))
  }

  lemma OneAbove(above: seq<Runs.Event>, e: Runs.Event, below: seq<Arq.Event>)
    requires Runs.RunOk(above) && Runs.EventOk(Runs.Run(above), e)
    requires LinkOf(Arq.Run(below).sender) == Runs.Step(Runs.Run(above), e).link
    ensures InStep(below, above + [e])
  {
    Runs.RunExtended(above, e);
  }

  lemma SendInStep(below: seq<Arq.Event>, above: seq<Runs.Event>, frame: Frame, now: u64, went: bool)
    requires InStep(below, above)
    ensures var room := RT.RegisterStep(Arq.Run(below).sender.q, now).Ok?;
            InStep(below + [if went then Arq.Send(now) else Arq.Lost(now)], above + [Runs.Send(true, frame, room, went)])
  {
    RegisteredBelow(below, now, went);
    var room := RT.RegisterStep(Arq.Run(below).sender.q, now).Ok?;
    OneAbove(above, Runs.Send(true, frame, room, went), below + [if went then Arq.Send(now) else Arq.Lost(now)]);
  }

  lemma DriveLink(s: State, open: nat -> bool, sent: nat -> bool)
    requires s.queue != [] ==> s.queue[0].Ok()
    ensures DriveQueue(s, open, sent).0.link ==
            if s.queue == [] then s.link else Feed(TakeLost(s), open, sent, 0).0.link
  {
  }

  lemma DrivenBelow(below: seq<Arq.Event>, s: State, now: u64, sent: nat -> bool)
    requires (s.queue != [] ==> s.queue[0].Ok()) && LinkOf(Arq.Run(below).sender) == s.link
    ensures var open := OpenAt(Arq.Run(below).sender, now);
            LinkOf(Arq.Run(below + Driving(s, now, open, sent)).sender) == DriveQueue(s, open, sent).0.link
  {
    var from := Arq.Run(below).sender;
    DriveLink(s, OpenAt(from, now), sent);
    if s.queue == [] {
      assert below + [] == below;
    } else {
      FeedInStep(below, from, TakeLost(s), now, sent, 0);
    }
  }

  lemma DriveAbove(above: seq<Runs.Event>, open: nat -> bool, sent: nat -> bool, below: seq<Arq.Event>)
    requires Runs.RunOk(above)
    requires LinkOf(Arq.Run(below).sender) == DriveQueue(Runs.Run(above), open, sent).0.link
    ensures InStep(below, above + [Runs.Drive(open, sent)])
  {
    OneAbove(above, Runs.Drive(open, sent), below);
  }

  lemma DriveInStep(below: seq<Arq.Event>, above: seq<Runs.Event>, now: u64, sent: nat -> bool)
    requires InStep(below, above)
    ensures var open := OpenAt(Arq.Run(below).sender, now);
            InStep(below + Driving(Runs.Run(above), now, open, sent), above + [Runs.Drive(open, sent)])
  {
    var open := OpenAt(Arq.Run(below).sender, now);
    DrivenBelow(below, Runs.Run(above), now, sent);
    DriveAbove(above, open, sent, below + Driving(Runs.Run(above), now, open, sent));
  }

  lemma AckedBelow(below: seq<Arq.Event>, k: nat, now: u64)
    ensures var y, z := Arq.Run(below), Arq.Run(below + [Arq.AckArrives(k, now)]);
            if k < |y.reports| then
              var hit := Covered(y.sender, y.reports[k].ack);
              LinkOf(z.sender) == LinkOf(y.sender).Acked(hit) && hit * SR.Flying(y.sender) == hit
            else z == y
  {
    var y := Arq.Run(below);
    SenderOk(below);
    RunBelow(below, Arq.AckArrives(k, now));
    if k < |y.reports| {
      AckIsAcked(y.sender, y.reports[k].ack, now);
    }
  }

  lemma AckAbove(above: seq<Runs.Event>, ids: set<nat>, below: seq<Arq.Event>)
    requires Runs.RunOk(above) && ids * Runs.Run(above).link.flying == ids
    requires LinkOf(Arq.Run(below).sender) == Runs.Run(above).link.Acked(ids)
    ensures InStep(below, above + [Runs.Ack(ids)])
  {
    OneAbove(above, Runs.Ack(ids), below);
  }

  lemma AckInStep(below: seq<Arq.Event>, above: seq<Runs.Event>, k: nat, now: u64)
    requires InStep(below, above)
    ensures var y := Arq.Run(below);
            InStep(below + [Arq.AckArrives(k, now)],
                   if k < |y.reports| then above + [Runs.Ack(Covered(y.sender, y.reports[k].ack))] else above)
  {
    var y := Arq.Run(below);
    AckedBelow(below, k, now);
    if k < |y.reports| {
      AckAbove(above, Covered(y.sender, y.reports[k].ack), below + [Arq.AckArrives(k, now)]);
    }
  }

  lemma {:induction false} WorkLink(s: State, due: seq<Due>, sent: nat -> bool, i: nat)
    requires i <= |due|
    ensures Work(s, due, sent, i).0.link == s.link
    decreases |due| - i
  {
    if i < |due| {
      match due[i]
      case GaveUp(id) => WorkLink(GiveUp(s, id), due, sent, i + 1);
      case Resend(id) =>
        if id !in s.pending { WorkLink(s, due, sent, i + 1); }
        else if sent(i) { WorkLink(Resent(s, id), due, sent, i + 1); }
    }
  }

  lemma RetransmitLink(s: State, due: seq<Due>, sent: nat -> bool)
    ensures DriveRetransmits(s, due, sent).0.link == s.link.GivenUp(GaveUpIds(due))
  {
    WorkLink(s.(link := s.link.GivenUp(GaveUpIds(due))), due, sent, 0);
  }

  lemma PolledBelow(below: seq<Arq.Event>, now: u64, room: nat)
    ensures var s := Arq.Run(below).sender;
            && Runs.DueOk(LinkOf(s), Items(s, now, room))
            && LinkOf(Arq.Run(below + [Arq.Poll(now, room)]).sender) == LinkOf(s).GivenUp(GaveUpIds(Items(s, now, room)))
  {
    SenderOk(below);
    RunBelow(below, Arq.Poll(now, room));
    PollIsGivenUp(Arq.Run(below).sender, now, room);
  }

  lemma RetransmitAbove(above: seq<Runs.Event>, due: seq<Due>, sent: nat -> bool, below: seq<Arq.Event>)
    requires Runs.RunOk(above) && Runs.DueOk(Runs.Run(above).link, due)
    requires LinkOf(Arq.Run(below).sender) == Runs.Run(above).link.GivenUp(GaveUpIds(due))
    ensures InStep(below, above + [Runs.Retransmit(due, sent)])
  {
    RetransmitLink(Runs.Run(above), due, sent);
    OneAbove(above, Runs.Retransmit(due, sent), below);
  }

  /** Resealing touches neither the queue nor the receiver. */
  ghost predicate OnlySealed(y: Arq.System, z: Arq.System) {
    && z.sender == y.sender && z.accepted == y.accepted && z.window == y.window && z.seen == y.seen
    && z.high == y.high && z.delivered == y.delivered && z.reports == y.reports && y.frames <= z.frames
  }

  lemma ResealSeals(y: Arq.System, g: nat)
    ensures OnlySealed(y, Arq.Step(y, Arq.Reseal(g)))
  {
  }

  lemma SealedTwice(x: Arq.System, y: Arq.System, z: Arq.System)
    requires OnlySealed(x, y) && OnlySealed(y, z)
    ensures OnlySealed(x, z)
  {
  }

  lemma {:induction false} ResealingSeals(below: seq<Arq.Event>, resent: seq<(nat, Frame)>)
    ensures OnlySealed(Arq.Run(below), Arq.Run(below + Resealing(resent)))
  {
    if resent == [] {
      assert below + [] == below;
    } else {
      var front, g := resent[..|resent| - 1], resent[|resent| - 1].0;
      ResealingSeals(below, front);
      ResealingLast(below, resent);
      RunBelow(below + Resealing(front), Arq.Reseal(g));
      ResealSeals(Arq.Run(below + Resealing(front)), g);
      SealedTwice(Arq.Run(below), Arq.Run(below + Resealing(front)), Arq.Run(below + Resealing(resent)));
    }
  }

  lemma ResealingLast(below: seq<Arq.Event>, resent: seq<(nat, Frame)>)
    requires resent != []
    ensures below + Resealing(resent) == below + Resealing(resent[..|resent| - 1]) + [Arq.Reseal(resent[|resent| - 1].0)]
  {
  }

  lemma SealsAfter(below: seq<Arq.Event>, e: Arq.Event, resent: seq<(nat, Frame)>)
    ensures OnlySealed(Arq.Run(below + [e]), Arq.Run(below + ([e] + Resealing(resent))))
  {
    Regroup(below, e, Resealing(resent));
    ResealingSeals(below + [e], resent);
  }

  lemma Regroup(below: seq<Arq.Event>, e: Arq.Event, more: seq<Arq.Event>)
    ensures below + ([e] + more) == below + [e] + more
  {
  }

  lemma TickSeals(below: seq<Arq.Event>, s: State, now: u64, room: nat, sent: nat -> bool)
    ensures OnlySealed(Arq.Run(below + [Arq.Poll(now, room)]),
                       Arq.Run(below + ([Arq.Poll(now, room)] + Retransmitting(Arq.Run(below), s, now, room, sent))))
  {
    SealsAfter(below, Arq.Poll(now, room), ResentSince(s, DriveRetransmits(s, Items(Arq.Run(below).sender, now, room), sent).0));
  }

  lemma TickInStep(below: seq<Arq.Event>, above: seq<Runs.Event>, now: u64, room: nat, sent: nat -> bool)
    requires InStep(below, above)
    ensures var y := Arq.Run(below);
            InStep(below + ([Arq.Poll(now, room)] + Retransmitting(y, Runs.Run(above), now, room, sent)),
                   above + [Runs.Retransmit(Items(y.sender, now, room), sent)])
  {
    var y := Arq.Run(below);
    PolledBelow(below, now, room);
    TickSeals(below, Runs.Run(above), now, room, sent);
    RetransmitAbove(above, Items(y.sender, now, room), sent,
                    below + ([Arq.Poll(now, room)] + Retransmitting(y, Runs.Run(above), now, room, sent)));
  }

  lemma QuietBelow(y: Arq.System, e: Arq.Event)
    requires Quiet(e)
    ensures LinkOf(Arq.Step(y, e).sender) == LinkOf(y.sender)
  {
    QuietCalls(y.sender, if e.SetMaxRetries? then e.attempts else 0);
  }

  lemma ElsewhereInStep(below: seq<Arq.Event>, above: seq<Runs.Event>, e: Arq.Event)
    requires InStep(below, above)
    ensures InStep(if Quiet(e) then below + [e] else below, above)
  {
    if Quiet(e) {
      RunBelow(below, e);
      QuietBelow(Arq.Run(below), e);
    }
  }

  lemma AboveInStep(below: seq<Arq.Event>, above: seq<Runs.Event>, e: Runs.Event)
    requires InStep(below, above) && (e.Queue? || e.ClearCount?)
    ensures InStep(below, above + [e])
  {
    OneAbove(above, e, below);
  }

  lemma NextInStep(p: Play, h: Happening)
    requires Good(p)
    ensures Good(Next(p, h))
  {
    assert p.above + [] == p.above && p.below + [] == p.below;
    match h
    case SendOne(data, shape, limit, now, went) =>
      SendInStep(p.below, p.above, Whole(data, shape, limit), now, went);
    case Drive(now, sent) => DriveInStep(p.below, p.above, now, sent);
    case AckArrives(k, now) => AckInStep(p.below, p.above, k, now);
    case Tick(now, room, sent) => TickInStep(p.below, p.above, now, room, sent);
    case Elsewhere(e) => ElsewhereInStep(p.below, p.above, e);
    case Queue(reliable, peerMax, data, shape, limit) =>
      AboveInStep(p.below, p.above, Runs.Queue(reliable, peerMax, data, shape, limit));
    case ClearCount => AboveInStep(p.below, p.above, Runs.ClearCount);
  }

  lemma StartInStep()
    ensures Good(Play([], []))
  {
  }

  // ---- Every run ---------------------------------------------------------------------------

  /** Anything, in any order, played below and above at once. */
  ghost function Played(hs: seq<Happening>): (p: Play)
    ensures Good(p)
  {
    if hs == [] then StartInStep(); Play([], [])
    else
      var before := Played(hs[..|hs| - 1]);
      NextInStep(before, hs[|hs| - 1]);
      Next(before, hs[|hs| - 1])
  }

  /** The queue, the network and the receiver at the end of it. */
  ghost function System(hs: seq<Happening>): Arq.System {
    Arq.Run(Played(hs).below)
  }

  /** The sending side at the end of it. */
  ghost function Side(hs: seq<Happening>): State {
    Runs.Run(Played(hs).above)
  }

  ghost predicate Continues(p: Play, q: Play) {
    p.below <= q.below && p.above <= q.above
  }

  lemma PlayedOneMore(hs: seq<Happening>, n: nat)
    requires n < |hs|
    ensures Continues(Played(hs[..n]), Played(hs[..n + 1]))
  {
    assert hs[..n + 1][..n] == hs[..n];
  }

  lemma ContinuesOn(p: Play, q: Play, r: Play)
    requires Continues(p, q) && Continues(q, r)
    ensures Continues(p, r)
  {
  }

  lemma {:induction false} PlayGrows(hs: seq<Happening>, n: nat)
    requires n <= |hs|
    ensures Continues(Played(hs[..n]), Played(hs))
    decreases |hs| - n
  {
    if n == |hs| {
      assert hs[..n] == hs;
    } else {
      PlayedOneMore(hs, n);
      PlayGrows(hs, n + 1);
      ContinuesOn(Played(hs[..n]), Played(hs[..n + 1]), Played(hs));
    }
  }

  /** The simulation: at every point of every run, the reliability queue has gone through a
      run of its own, the sending side through one of its own, and the messages in flight,
      acknowledged and given up are the same for both. */
  lemma SameThroughout(hs: seq<Happening>, n: nat) returns (calls: seq<SR.Call>)
    requires n <= |hs|
    ensures var now, end := Played(hs[..n]), Played(hs);
            && Continues(now, end)
            && Runs.RunOk(now.above) && Arq.Run(now.below).sender == SR.Run(calls)
            && LinkOf(SR.Run(calls)) == Runs.Run(now.above).link
  {
    PlayGrows(hs, n);
    assert Good(Played(hs[..n]));
    calls := Arq.SenderIsARun(Played(hs[..n]).below);
  }

  /** A message reported delivered was received: the receiver was handed every fragment of
      it, each once, and what it was handed is what the message was cut into. */
  lemma DeliveredWasReceived(hs: seq<Happening>, d: Done)
    requires Arq.TimelyRun(Played(hs).below) && d in Side(hs).log.finished && d.delivered
    ensures var y, s := System(hs), Side(hs);
            && Arq.Unique(y.delivered) && d.job.m.Sendable() && |d.ids| == d.job.m.Count()
            && forall i :: 0 <= i < |d.ids| ==> d.ids[i] in y.delivered && Runs.WentOut(s, d.job, d.ids[i], i)
  {
    var p := Played(hs);
    assert InStep(p.below, p.above);
    Runs.ReportedDeliveryIsSound(p.above, d);
    Arq.ExactlyWhatWasSent(p.below);
    forall i | 0 <= i < |d.ids| ensures d.ids[i] in Arq.Run(p.below).delivered {
      assert d.ids[i] in d.ids;
    }
  }
}
