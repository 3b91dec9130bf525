/** Runs played out end to end, call by call, what comes due in them being what the queue's own
    clock brings due: three in which the sending side does what its documentation says it does
    not, and one in which all goes well. */
module Exhibits {
  import opened Bits
  import opened Outcomes
  import Wire
  import Compress
  import Dedup
  import RT = Retransmit
  import opened TwoSlots
  import LinkRuns
  import opened Pipeline
  import RR = ReassemblyRuns
  import Runs = PipelineRuns
  import Arq
  import Sealing
  import opened EndToEnd
  import Delivery
  import Flush

  const ALWAYS: nat -> bool := _ => true
  const NEVER: nat -> bool := _ => false

  // ---- A run at some point --------------------------------------------------------------------

  ghost predicate QueueAt(y: Arq.System, a: RT.Slot, b: RT.Slot, next: nat) {
    next < 100 && At(y.sender.q, a, b, next) && y.sender.next == next
  }

  ghost predicate SideAt(s: State, link: Link, kept: set<nat>, queue: seq<Job>) {
    && s.link == link && s.pending.Keys == kept && s.queue == queue
    && s.abandoned == {} && s.abandonedCount == 0 && s.log.finished == []
  }

  /** Nothing has reached the receiver. */
  ghost predicate Unheard(y: Arq.System) {
    y.accepted == {} && y.window == Dedup.EMPTY && y.seen == {} && y.reports == []
  }

  /** The receiver has acknowledged message 0 and no other. */
  ghost predicate Heard(y: Arq.System) {
    |y.reports| == 1 && y.reports[0].ack == Dedup.Ack(0, 0) && y.reports[0].high == 0
  }

  ghost predicate FirstOut(y: Arq.System) {
    |y.frames| > 0 && y.frames[0] == Some(0)
  }

  /** The receiver's end is as it was, and so is what was sent first. */
  ghost predicate SameElsewhere(y: Arq.System, z: Arq.System) {
    && z.accepted == y.accepted && z.window == y.window && z.seen == y.seen && z.reports == y.reports
    && z.high == y.high && y.frames <= z.frames
  }

  lemma PlayedNext(hs: seq<Happening>, h: Happening)
    ensures Played(hs + [h]) == Next(Played(hs), h)
  {
    assert (hs + [h])[..|hs|] == hs;
  }

  // ---- One happening at a time ------------------------------------------------------------------

  lemma SendPlays(p: Play, data: seq<Wire.byte>, shape: Compress.Shape, limit: nat, now: u64)
    requires Good(p) && RT.RegisterStep(Arq.Run(p.below).sender.q, now).Ok?
    ensures var q := Next(p, SendOne(data, shape, limit, now, true));
            && Good(q) && Arq.Run(q.below) == Arq.Step(Arq.Run(p.below), Arq.Send(now))
            && Runs.Run(q.above) == Launched(Runs.Run(p.above), Whole(data, shape, limit), true)
  {
    NextInStep(p, SendOne(data, shape, limit, now, true));
    RunBelow(p.below, Arq.Send(now));
    Runs.RunExtended(p.above, Runs.Send(true, Whole(data, shape, limit), true, true));
  }

  lemma ElsewherePlays(p: Play, e: Arq.Event)
    requires Good(p) && Quiet(e)
    ensures var q := Next(p, Elsewhere(e));
            Good(q) && Arq.Run(q.below) == Arq.Step(Arq.Run(p.below), e) && Runs.Run(q.above) == Runs.Run(p.above)
  {
    NextElsewhere(p, e);
    RunBelow(p.below, e);
    ElsewhereInStep(p.below, p.above, e);
  }

  lemma NextElsewhere(p: Play, e: Arq.Event)
    requires Good(p) && Quiet(e)
    ensures Next(p, Elsewhere(e)) == Play(p.below + [e], p.above)
  {
    assert p.above + [] == p.above;
  }

  lemma TickPlays(p: Play, now: u64, room: nat, sent: nat -> bool)
    requires Good(p)
    ensures var q, due := Next(p, Tick(now, room, sent)), LinkRuns.Items(Arq.Run(p.below).sender, now, room);
            && Good(q) && OnlySealed(Arq.Step(Arq.Run(p.below), Arq.Poll(now, room)), Arq.Run(q.below))
            && Runs.DueOk(Runs.Run(p.above).link, due)
            && Runs.Run(q.above) == DriveRetransmits(Runs.Run(p.above), due, sent).0
  {
    var due := LinkRuns.Items(Arq.Run(p.below).sender, now, room);
    RunBelow(p.below, Arq.Poll(now, room));
    PolledBelow(p.below, now, room);
    TickSeals(p.below, Runs.Run(p.above), now, room, sent);
    NextInStep(p, Tick(now, room, sent));
    RetransmitRuns(p.above, due, sent);
  }

  lemma RetransmitRuns(above: seq<Runs.Event>, due: seq<Due>, sent: nat -> bool)
    requires Runs.RunOk(above) && Runs.DueOk(Runs.Run(above).link, due)
    ensures Runs.RunOk(above + [Runs.Retransmit(due, sent)])
    ensures Runs.Run(above + [Runs.Retransmit(due, sent)]) == DriveRetransmits(Runs.Run(above), due, sent).0
  {
    Runs.RunExtended(above, Runs.Retransmit(due, sent));
  }

  lemma AckPlays(p: Play, now: u64)
    requires Good(p) && |Arq.Run(p.below).reports| == 1
    ensures var y, q := Arq.Run(p.below), Next(p, AckArrives(0, now));
            && Good(q) && Arq.Run(q.below) == Arq.Step(y, Arq.AckArrives(0, now))
            && Runs.Run(q.above) == ApplyAck(Runs.Run(p.above), LinkRuns.Covered(y.sender, y.reports[0].ack))
  {
    var y := Arq.Run(p.below);
    NextInStep(p, AckArrives(0, now));
    RunBelow(p.below, Arq.AckArrives(0, now));
    Runs.RunExtended(p.above, Runs.Ack(LinkRuns.Covered(y.sender, y.reports[0].ack)));
  }

  lemma QueuePlays(p: Play, data: seq<Wire.byte>, shape: Compress.Shape)
    requires Good(p)
    ensures var q, r := Next(p, Queue(true, 1200, data, shape, 1200)), QueueMessage(Runs.Run(p.above), true, 1200, data, shape, 1200);
            && Good(q) && Arq.Run(q.below) == Arq.Run(p.below)
            && Runs.Run(q.above) == if r.Ok? then r.value else Runs.Run(p.above)
  {
    NextInStep(p, Queue(true, 1200, data, shape, 1200));
    assert p.below + [] == p.below;
    Runs.RunExtended(p.above, Runs.Queue(true, 1200, data, shape, 1200));
  }

  lemma DrivePlays(p: Play, now: u64, sent: nat -> bool)
    requires Good(p)
    ensures var y, s, q := Arq.Run(p.below), Runs.Run(p.above), Next(p, Drive(now, sent));
            var open := OpenAt(y.sender, now);
            && Good(q) && Arq.Run(q.below) == Arq.Run(p.below + Driving(s, now, open, sent))
            && Runs.Run(q.above) == DriveQueue(s, open, sent).0
  {
    NextInStep(p, Drive(now, sent));
    Runs.RunExtended(p.above, Runs.Drive(OpenAt(Arq.Run(p.below).sender, now), sent));
  }

  // ---- What each does to the queue and the receiver ---------------------------------------------

  lemma SendState(y: Arq.System, a: RT.Slot, b: RT.Slot, next: nat, now: u64)
    requires QueueAt(y, a, b, next) && Recent(a, next) && Recent(b, next) && (a.None? || b.None?) && next + 1 < 100
    ensures RT.RegisterStep(y.sender.q, now).Ok?
    ensures var z, e := Arq.Step(y, Arq.Send(now)), Some(Entry(next, now));
            && (if a.None? then QueueAt(z, e, b, next + 1) else QueueAt(z, a, e, next + 1))
            && SameElsewhere(y, z) && z.frames == y.frames + [Some(next)]
  {
    RegisterAt(y.sender.q, a, b, next, now);
  }

  function Named(slot: RT.Slot, now: u64): seq<Due> {
    if !Ripe(slot, now) then []
    else if slot.value.retries >= 1 then [GaveUp(slot.value.id)] else [Resend(slot.value.id)]
  }

  predicate Sent(slot: RT.Slot, next: nat) {
    slot.Some? ==> slot.value.id < next
  }

  lemma NamedIs(y: Arq.System, next: nat, d: RT.Due)
    requires y.sender.next == next < 100 && d.id < next
    ensures LinkRuns.Unwrapped(y.sender, d) == if d.Resend? then Resend(d.id) else GaveUp(d.id)
  {
  }

  lemma ItemsAre(y: Arq.System, a: RT.Slot, b: RT.Slot, next: nat, now: u64)
    requires QueueAt(y, a, b, next) && Sent(a, next) && Sent(b, next)
    ensures LinkRuns.Items(y.sender, now, 32) == Named(a, now) + Named(b, now)
  {
    SaidTwo(y.sender.q, a, b, next, now, 32);
    if Ripe(a, now) { NamedIs(y, next, RT.Verdict(a.value, 1)); }
    if Ripe(b, now) { NamedIs(y, next, RT.Verdict(b.value, 1)); }
  }

  lemma PollState(y: Arq.System, a: RT.Slot, b: RT.Slot, next: nat, now: u64)
    requires QueueAt(y, a, b, next) && Sent(a, next) && Sent(b, next)
    ensures var z := Arq.Step(y, Arq.Poll(now, 32));
            && QueueAt(z, Polled(a, now), Polled(b, now), next) && SameElsewhere(y, z)
            && LinkRuns.Items(y.sender, now, 32) == Named(a, now) + Named(b, now)
  {
    PollAt(y.sender.q, a, b, next, now, 32);
    ItemsAre(y, a, b, next, now);
  }

  lemma ArriveState(y: Arq.System)
    requires Unheard(y) && FirstOut(y)
    ensures var z := Arq.Step(y, Arq.Arrive(0)); Heard(z) && z.sender == y.sender && z.delivered == y.delivered + [0]
  {
  }

  lemma OnlyFirst(slot: RT.Slot, next: nat)
    requires Sent(slot, next) && next < 100
    ensures RT.Hit(slot, Dedup.Ack(0, 0)) <==> slot.Some? && slot.value.id == 0
  {
  }

  /** The acknowledgement of message 0 arrives, after it was resent. */
  lemma AckState(y: Arq.System, a: RT.Slot, b: RT.Slot, next: nat, now: u64)
    requires QueueAt(y, a, b, next) && Sent(a, next) && Sent(b, next) && Heard(y)
    requires a.Some? && a.value.id == 0 && a.value.retries == 1 && (b.Some? ==> b.value.id != 0)
    ensures QueueAt(Arq.Step(y, Arq.AckArrives(0, now)), None, b, next)
    ensures 0 in LinkRuns.LinkOf(y.sender).flying ==> LinkRuns.Covered(y.sender, y.reports[0].ack) == {0}
  {
    OnlyFirst(a, next);
    OnlyFirst(b, next);
    AckAt(y.sender.q, a, b, next, Dedup.Ack(0, 0), now);
    var ids := RT.AckedIds(y.sender.q.slots, Dedup.Ack(0, 0), |y.sender.q.slots|);
    assert ids == [0];
    forall g: nat | g in LinkRuns.LinkOf(y.sender).flying ensures g % U32 in ids <==> g == 0 {}
  }

  // ---- And to the sending side ------------------------------------------------------------------

  lemma LaunchSide(s: State, link: Link, kept: set<nat>, queue: seq<Job>, frame: Frame)
    requires SideAt(s, link, kept, queue)
    ensures SideAt(Launched(s, frame, true), link.Registered(), kept + {link.next}, queue)
  {
  }

  lemma {:induction false} AllResent(s: State, due: seq<Due>, i: nat)
    requires i <= |due| && forall j :: 0 <= j < |due| ==> due[j].Resend?
    ensures var t := Work(s, due, ALWAYS, i);
            && t.1.None? && t.0.link == s.link && t.0.pending == s.pending && t.0.queue == s.queue
            && t.0.abandoned == s.abandoned && t.0.abandonedCount == s.abandonedCount && t.0.log.finished == s.log.finished
    decreases |due| - i
  {
    if i < |due| { AllResent(if due[i].id in s.pending then Resent(s, due[i].id) else s, due, i + 1); }
  }

  lemma ResendSide(s: State, link: Link, kept: set<nat>, queue: seq<Job>, due: seq<Due>)
    requires SideAt(s, link, kept, queue) && forall j :: 0 <= j < |due| ==> due[j].Resend?
    ensures SideAt(DriveRetransmits(s, due, ALWAYS).0, link, kept, queue)
  {
    assert GaveUpIds(due) == {};
    assert link.GivenUp({}) == link;
    AllResent(s.(link := link.GivenUp({})), due, 0);
  }

  /** The pass ends at its first item, and never comes to the second. */
  lemma StopSide(s: State, link: Link, kept: set<nat>, queue: seq<Job>, x: nat, y: nat)
    requires SideAt(s, link, kept, queue) && x in kept
    ensures SideAt(DriveRetransmits(s, [Resend(x), GaveUp(y)], NEVER).0, link.GivenUp({y}), kept, queue)
  {
    var due := [Resend(x), GaveUp(y)];
    assert GaveUpIds(due) == {y} by { assert due[1] == GaveUp(y); }
    var polled := s.(link := link.GivenUp({y}));
    assert Work(polled, due, NEVER, 0) == (polled, Some(0));
  }

  lemma AckSide(s: State, link: Link, kept: set<nat>, queue: seq<Job>)
    requires SideAt(s, link, kept, queue) && 0 in link.flying
    ensures SideAt(ApplyAck(s, {0}), link.Acked({0}), kept - {0}, queue)
  {
    assert {0} * link.flying == {0};
  }

  /** The only fragment of the front message is given up. */
  lemma GiveUpSide(s: State, link: Link, kept: set<nat>, job: Job)
    requires SideAt(s, link, kept, [job]) && job.outstanding == {0}
    ensures var t := DriveRetransmits(s, [GaveUp(0)], ALWAYS).0;
            t.queue == [job] && t.link == link.GivenUp({0}) && Runs.Doomed(t)
  {
    var due := [GaveUp(0)];
    assert GaveUpIds(due) == {0} by { assert due[0] == GaveUp(0); }
    var polled := s.(link := link.GivenUp({0}));
    assert Work(GiveUp(polled, 0), due, ALWAYS, 1) == (GiveUp(polled, 0), None);
    assert Work(polled, due, ALWAYS, 0) == (GiveUp(polled, 0), None);
    assert 0 in job.outstanding * GiveUp(polled, 0).abandoned;
  }

  // ---- Stages -------------------------------------------------------------------------------------

  ghost predicate Stage(hs: seq<Happening>, a: RT.Slot, b: RT.Slot, next: nat, link: Link, kept: set<nat>, queue: seq<Job>) {
    QueueAt(System(hs), a, b, next) && SideAt(Side(hs), link, kept, queue)
  }

  const LIMIT_ONE: Happening := Elsewhere(Arq.SetMaxRetries(1))

  lemma Begins()
    ensures Stage([LIMIT_ONE], None, None, 0, START.link, {}, []) && Unheard(System([LIMIT_ONE]))
    ensures System([LIMIT_ONE]).frames == [] && Side([LIMIT_ONE]).nextMessage == 0
  {
    PlayedNext([], LIMIT_ONE);
    assert [] + [LIMIT_ONE] == [LIMIT_ONE];
    ElsewherePlays(Played([]), Arq.SetMaxRetries(1));
  }

  lemma StageSend(hs: seq<Happening>, a: RT.Slot, b: RT.Slot, next: nat, link: Link, kept: set<nat>, queue: seq<Job>,
                  data: seq<Wire.byte>, shape: Compress.Shape, limit: nat, now: u64)
    requires Stage(hs, a, b, next, link, kept, queue)
    requires Recent(a, next) && Recent(b, next) && (a.None? || b.None?) && next + 1 < 100
    ensures var gs, e := hs + [SendOne(data, shape, limit, now, true)], Some(Entry(next, now));
            && Stage(gs, if a.None? then e else a, if a.None? then b else e, next + 1, link.Registered(), kept + {link.next}, queue)
            && Side(gs).nextMessage == Side(hs).nextMessage
            && SameElsewhere(System(hs), System(gs)) && System(gs).frames == System(hs).frames + [Some(next)]
  {
    var h := SendOne(data, shape, limit, now, true);
    PlayedNext(hs, h);
    SendState(System(hs), a, b, next, now);
    SendPlays(Played(hs), data, shape, limit, now);
    LaunchSide(Side(hs), link, kept, queue, Whole(data, shape, limit));
  }

  lemma TickStage(hs: seq<Happening>, a: RT.Slot, b: RT.Slot, next: nat, now: u64, sent: nat -> bool)
    requires QueueAt(System(hs), a, b, next) && Sent(a, next) && Sent(b, next)
    ensures var gs := hs + [Tick(now, 32, sent)];
            && QueueAt(System(gs), Polled(a, now), Polled(b, now), next) && SameElsewhere(System(hs), System(gs))
            && Side(gs) == DriveRetransmits(Side(hs), Named(a, now) + Named(b, now), sent).0
  {
    PlayedNext(hs, Tick(now, 32, sent));
    PollState(System(hs), a, b, next, now);
    TickPlays(Played(hs), now, 32, sent);
  }

  lemma StageArrive(hs: seq<Happening>, a: RT.Slot, b: RT.Slot, next: nat, link: Link, kept: set<nat>, queue: seq<Job>)
    requires Stage(hs, a, b, next, link, kept, queue) && Unheard(System(hs)) && FirstOut(System(hs))
    ensures var gs := hs + [Elsewhere(Arq.Arrive(0))];
            Stage(gs, a, b, next, link, kept, queue) && Heard(System(gs))
  {
    PlayedNext(hs, Elsewhere(Arq.Arrive(0)));
    ElsewherePlays(Played(hs), Arq.Arrive(0));
    ArriveState(System(hs));
  }

  lemma StageAck(hs: seq<Happening>, a: RT.Slot, b: RT.Slot, next: nat, link: Link, kept: set<nat>, queue: seq<Job>, now: u64)
    requires Stage(hs, a, b, next, link, kept, queue) && Heard(System(hs)) && Sent(a, next) && Sent(b, next)
    requires a.Some? && a.value.id == 0 && a.value.retries == 1 && (b.Some? ==> b.value.id != 0) && 0 in link.flying
    ensures Stage(hs + [AckArrives(0, now)], None, b, next, link.Acked({0}), kept - {0}, queue)
  {
    PlayedNext(hs, AckArrives(0, now));
    assert Good(Played(hs));
    AckState(System(hs), a, b, next, now);
    AckPlays(Played(hs), now);
    AckSide(Side(hs), link, kept, queue);
  }

  // ---- One byte, queued and sent as the only fragment of its message ------------------------------

  const QUEUE_BYTE: Happening := Queue(true, 1200, [7], Compress.Opaque, 1200)
  const BYTE: Job := Job(0, Compress.Opaque, RR.Message([7], 1158), 1200, 0, {}, false)

  lemma OneFragment()
    ensures BYTE.Ok() && BYTE.m.Count() == 1 && Sealing.PayloadRoom(1200, 1200, true, true) == 1158
  {
  }

  lemma StageQueue(hs: seq<Happening>, a: RT.Slot, b: RT.Slot, next: nat, link: Link, kept: set<nat>)
    requires Stage(hs, a, b, next, link, kept, []) && Side(hs).nextMessage == 0
    ensures var gs := hs + [QUEUE_BYTE];
            Stage(gs, a, b, next, link, kept, [BYTE]) && System(gs) == System(hs)
  {
    PlayedNext(hs, QUEUE_BYTE);
    QueuePlays(Played(hs), [7], Compress.Opaque);
    OneFragment();
  }

  lemma DriveSide(s: State, link: Link, kept: set<nat>, open: nat -> bool, now: u64)
    requires SideAt(s, link, kept, [BYTE]) && BYTE.Ok() && BYTE.m.Count() == 1 && open(0)
    ensures SideAt(DriveQueue(s, open, ALWAYS).0, link.Registered(), kept + {link.next}, [BYTE.(next := 1, outstanding := {link.next})])
    ensures Driving(s, now, open, ALWAYS) == [Arq.Send(now)]
  {
    assert s.queue[1..] == [] && BYTE.outstanding - {} == {} && BYTE.outstanding * {} == {};
    assert TakeLost(s) == s;
    var fed := Fed(s, true);
    assert Feed(fed, open, ALWAYS, 1) == (fed, true);
    assert Feed(s, open, ALWAYS, 0) == (fed, true);
    assert fed.queue[0].outstanding * fed.pending.Keys == {link.next};
    assert Feeding(fed, now, open, ALWAYS, 1) == [];
  }

  lemma StageDrive(hs: seq<Happening>, a: RT.Slot, next: nat, link: Link, kept: set<nat>, now: u64)
    requires Stage(hs, a, None, next, link, kept, [BYTE]) && Recent(a, next) && next + 1 < 100
    ensures var gs, e := hs + [Drive(now, ALWAYS)], Some(Entry(next, now));
            && Stage(gs, if a.None? then e else a, if a.None? then None else e, next + 1,
                     link.Registered(), kept + {link.next}, [BYTE.(next := 1, outstanding := {link.next})])
            && SameElsewhere(System(hs), System(gs)) && System(gs).frames == System(hs).frames + [Some(next)]
  {
    PlayedNext(hs, Drive(now, ALWAYS));
    SendState(System(hs), a, None, next, now);
    OneFragment();
    DrivePlays(Played(hs), now, ALWAYS);
    DriveSide(Side(hs), link, kept, OpenAt(System(hs).sender, now), now);
    RunBelow(Played(hs).below, Arq.Send(now));
  }

  // ---- How a message comes to be stranded -----------------------------------------------------------

  /** A message that goes out whole: its bytes, their shape, and the limit it is sealed for. */
  datatype Content = Content(data: seq<Wire.byte>, shape: Compress.Shape, limit: nat)

  function Sends(c: Content, now: u64): Happening {
    SendOne(c.data, c.shape, c.limit, now, true)
  }

  function Again(id: u32): RT.Slot {
    Some(RT.InFlight(id, 600, 200, 1))
  }

  const TWO_OUT := Link(2, {0, 1}, {}, {})
  const FIRST_ACKED := Link(2, {1}, {0}, {})
  const THIRD_OUT := Link(3, {1, 2}, {0}, {})
  const SECOND_GIVEN_UP := Link(3, {2}, {0}, {1})

  lemma Links()
    ensures TWO_OUT.Acked({0}) == FIRST_ACKED && FIRST_ACKED.Registered() == THIRD_OUT
    ensures THIRD_OUT.GivenUp({1}) == SECOND_GIVEN_UP
    ensures {0, 1} - {0} == {1} && {1} + {2} == {1, 2}
  {
  }

  function New(id: u32): RT.Slot {
    Some(Entry(id, 0))
  }

  predicate AllResend(due: seq<Due>) {
    forall j :: 0 <= j < |due| ==> due[j].Resend?
  }

  lemma AtTwoHundred(x: u32, y: u32)
    ensures Polled(New(x), 200) == Again(x) && Polled(New(y), 200) == Again(y)
    ensures AllResend(Named(New(x), 200) + Named(New(y), 200)) && AllResend(Named(New(x), 200))
  {
  }

  lemma AtSixHundred()
    ensures Named(Some(Entry(2, 300)), 600) + Named(Again(1), 600) == [Resend(2), GaveUp(1)]
  {
  }

  lemma StillUnheard(y: Arq.System, z: Arq.System)
    requires Unheard(y) && FirstOut(y) && SameElsewhere(y, z)
    ensures Unheard(z) && FirstOut(z)
  {
  }

  lemma StageResend(hs: seq<Happening>, a: RT.Slot, b: RT.Slot, next: nat, link: Link, kept: set<nat>, queue: seq<Job>,
                    now: u64)
    requires Stage(hs, a, b, next, link, kept, queue) && Sent(a, next) && Sent(b, next)
    requires Unheard(System(hs)) && FirstOut(System(hs))
    requires AllResend(Named(a, now) + Named(b, now))
    ensures var gs := hs + [Tick(now, 32, ALWAYS)];
            && Stage(gs, Polled(a, now), Polled(b, now), next, link, kept, queue)
            && Unheard(System(gs)) && FirstOut(System(gs))
  {
    TickStage(hs, a, b, next, now, ALWAYS);
    StillUnheard(System(hs), System(hs + [Tick(now, 32, ALWAYS)]));
    ResendSide(Side(hs), link, kept, queue, Named(a, now) + Named(b, now));
  }

  lemma BothResent(hs: seq<Happening>, queue: seq<Job>)
    requires Stage(hs, New(0), New(1), 2, TWO_OUT, {0, 1}, queue)
    requires Unheard(System(hs)) && FirstOut(System(hs))
    ensures var gs := hs + [Tick(200, 32, ALWAYS)];
            && Stage(gs, Again(0), Again(1), 2, TWO_OUT, {0, 1}, queue)
            && Unheard(System(gs)) && FirstOut(System(gs))
  {
    AtTwoHundred(0, 1);
    StageResend(hs, New(0), New(1), 2, TWO_OUT, {0, 1}, queue, 200);
  }

  lemma FirstHeard(hs: seq<Happening>, queue: seq<Job>)
    requires Stage(hs, Again(0), Again(1), 2, TWO_OUT, {0, 1}, queue) && Unheard(System(hs)) && FirstOut(System(hs))
    ensures Stage(hs + [Elsewhere(Arq.Arrive(0))] + [AckArrives(0, 300)], None, Again(1), 2, FIRST_ACKED, {1}, queue)
  {
    Links();
    StageArrive(hs, Again(0), Again(1), 2, TWO_OUT, {0, 1}, queue);
    StageAck(hs + [Elsewhere(Arq.Arrive(0))], Again(0), Again(1), 2, TWO_OUT, {0, 1}, queue, 300);
  }

  lemma ThirdSent(hs: seq<Happening>, queue: seq<Job>, c: Content)
    requires Stage(hs, None, Again(1), 2, FIRST_ACKED, {1}, queue)
    ensures Stage(hs + [Sends(c, 300)], Some(Entry(2, 300)), Again(1), 3, THIRD_OUT, {1, 2}, queue)
  {
    Links();
    StageSend(hs, None, Again(1), 2, FIRST_ACKED, {1}, queue, c.data, c.shape, c.limit, 300);
  }

  /** The third message has the first one's slot, so it comes due ahead of the second. */
  lemma StopsThere(hs: seq<Happening>, queue: seq<Job>)
    requires Stage(hs, Some(Entry(2, 300)), Again(1), 3, THIRD_OUT, {1, 2}, queue)
    ensures SideAt(Side(hs + [Tick(600, 32, NEVER)]), SECOND_GIVEN_UP, {1, 2}, queue)
  {
    Links();
    AtSixHundred();
    TickStage(hs, Some(Entry(2, 300)), Again(1), 3, 600, NEVER);
    StopSide(Side(hs), THIRD_OUT, {1, 2}, queue, 2, 1);
  }

  /** Both come due and are resent; the first is acknowledged, a third goes out, and when that
      one and the second come due again, the frame of the third does not go out. */
  function Then(c: Content): seq<Happening> {
    [Tick(200, 32, ALWAYS), Elsewhere(Arq.Arrive(0)), AckArrives(0, 300), Sends(c, 300), Tick(600, 32, NEVER)]
  }

  lemma SecondStranded(hs: seq<Happening>, queue: seq<Job>, c: Content)
    requires Stage(hs, New(0), New(1), 2, TWO_OUT, {0, 1}, queue)
    requires Unheard(System(hs)) && FirstOut(System(hs))
    ensures SideAt(Side(hs + Then(c)), SECOND_GIVEN_UP, {1, 2}, queue)
  {
    BothResent(hs, queue);
    var resent := hs + [Tick(200, 32, ALWAYS)];
    FirstHeard(resent, queue);
    var heard := resent + [Elsewhere(Arq.Arrive(0))] + [AckArrives(0, 300)];
    ThirdSent(heard, queue, c);
    StopsThere(heard + [Sends(c, 300)], queue);
    ThenSpelled(hs, c);
  }

  lemma ThenSpelled(hs: seq<Happening>, c: Content)
    ensures hs + [Tick(200, 32, ALWAYS)] + [Elsewhere(Arq.Arrive(0))] + [AckArrives(0, 300)]
            + [Sends(c, 300)] + [Tick(600, 32, NEVER)] == hs + Then(c)
  {
  }

  lemma FirstSent(a: Content)
    ensures var hs := [LIMIT_ONE] + [Sends(a, 0)];
            && Stage(hs, New(0), None, 1, Link(1, {0}, {}, {}), {0}, [])
            && Unheard(System(hs)) && FirstOut(System(hs)) && Side(hs).nextMessage == 0
  {
    Begins();
    StageSend([LIMIT_ONE], None, None, 0, START.link, {}, [], a.data, a.shape, a.limit, 0);
    assert START.link.Registered() == Link(1, {0}, {}, {}) && {} + {0} == {0};
  }

  lemma OneThenTwo()
    ensures Link(1, {0}, {}, {}).Registered() == TWO_OUT && {0} + {1} == {0, 1}
    ensures START.link.Registered() == Link(1, {0}, {}, {}) && {} + {0} == {0}
  {
  }

  lemma TwoSent(a: Content, b: Content)
    ensures var hs := [LIMIT_ONE] + [Sends(a, 0)] + [Sends(b, 0)];
            && Stage(hs, New(0), New(1), 2, TWO_OUT, {0, 1}, [])
            && Unheard(System(hs)) && FirstOut(System(hs))
  {
    var hs := [LIMIT_ONE] + [Sends(a, 0)];
    FirstSent(a);
    OneThenTwo();
    StageSend(hs, New(0), None, 1, Link(1, {0}, {}, {}), {0}, [], b.data, b.shape, b.limit, 0);
    StillUnheard(System(hs), System(hs + [Sends(b, 0)]));
  }

  /** The byte as it waits to be acknowledged, its fragment out as message `id`. */
  function Waiting(id: nat): Job {
    BYTE.(next := 1, outstanding := {id})
  }

  lemma ByteSecond(a: Content)
    ensures var hs := [LIMIT_ONE] + [Sends(a, 0)] + [QUEUE_BYTE] + [Drive(0, ALWAYS)];
            && Stage(hs, New(0), New(1), 2, TWO_OUT, {0, 1}, [Waiting(1)])
            && Unheard(System(hs)) && FirstOut(System(hs))
  {
    var hs := [LIMIT_ONE] + [Sends(a, 0)];
    FirstSent(a);
    OneThenTwo();
    StageQueue(hs, New(0), None, 1, Link(1, {0}, {}, {}), {0});
    StageDrive(hs + [QUEUE_BYTE], New(0), 1, Link(1, {0}, {}, {}), {0}, 0);
    StillUnheard(System(hs + [QUEUE_BYTE]), System(hs + [QUEUE_BYTE] + [Drive(0, ALWAYS)]));
  }

  lemma ByteFirst()
    ensures var hs := [LIMIT_ONE] + [QUEUE_BYTE] + [Drive(0, ALWAYS)];
            && Stage(hs, New(0), None, 1, Link(1, {0}, {}, {}), {0}, [Waiting(0)])
            && Unheard(System(hs)) && FirstOut(System(hs))
  {
    Begins();
    OneThenTwo();
    StageQueue([LIMIT_ONE], None, None, 0, START.link, {});
    StageDrive([LIMIT_ONE] + [QUEUE_BYTE], None, 0, START.link, {}, 0);
  }

  // ---- The faults ------------------------------------------------------------------------------

  lemma AboveGoesOn(hs: seq<Happening>, more: seq<Happening>) returns (rest: seq<Runs.Event>)
    ensures Played(hs + more).above == Played(hs).above + rest
  {
    PlayGrows(hs + more, |hs|);
    assert (hs + more)[..|hs|] == hs;
    rest := WhatFollowed(Played(hs), Played(hs + more));
  }

  lemma WhatFollowed(p: Play, q: Play) returns (rest: seq<Runs.Event>)
    requires Continues(p, q)
    ensures q.above == p.above + rest
  {
    rest := q.above[|p.above|..];
  }

  /** Two messages go out, and later a third; a frame of the third does not go out again just
      as the second is given up. The second is kept for resending whatever follows, in flight
      no more, and was never counted. */
  lemma FailedFrameStrandsAnother(a: Content, b: Content, c: Content, more: seq<Happening>)
    ensures var hs := [LIMIT_ONE] + [Sends(a, 0)] + [Sends(b, 0)] + Then(c);
            && Side(hs).abandonedCount == 0
            && Runs.Stranded(Side(hs + more), 1) && 1 !in Side(hs + more).link.flying
  {
    var start := [LIMIT_ONE] + [Sends(a, 0)] + [Sends(b, 0)];
    TwoSent(a, b);
    SecondStranded(start, [], c);
    StrandedWhatever(start + Then(c), more, 1);
  }

  lemma StrandedWhatever(hs: seq<Happening>, more: seq<Happening>, id: nat)
    requires Runs.Stranded(Side(hs), id)
    ensures Runs.Stranded(Side(hs + more), id) && id !in Side(hs + more).link.flying
  {
    var rest := AboveGoesOn(hs, more);
    Runs.StrandedForGood(Played(hs).above, rest, id);
  }

  /** The same when the second is the only fragment of a queued message: that message is never
      reported, lost or delivered, and nothing behind it ever goes out, whatever follows. */
  lemma FailedFrameBlocksTheQueue(a: Content, c: Content, more: seq<Happening>)
    ensures var hs := [LIMIT_ONE] + [Sends(a, 0)] + [QUEUE_BYTE] + [Drive(0, ALWAYS)] + Then(c);
            Runs.Blocked(Side(hs + more), 1) && Runs.Unmoved(Side(hs), Side(hs + more))
  {
    var start := [LIMIT_ONE] + [Sends(a, 0)] + [QUEUE_BYTE] + [Drive(0, ALWAYS)];
    ByteSecond(a);
    SecondStranded(start, [Waiting(1)], c);
    WaitsForStranded(Side(start + Then(c)));
    BlockedWhatever(start + Then(c), more, 1);
  }

  lemma WaitsForStranded(s: State)
    requires SideAt(s, SECOND_GIVEN_UP, {1, 2}, [Waiting(1)])
    ensures Runs.Blocked(s, 1)
  {
    OneFragment();
  }

  lemma BlockedWhatever(hs: seq<Happening>, more: seq<Happening>, id: nat)
    requires Runs.Blocked(Side(hs), id)
    ensures Runs.Blocked(Side(hs + more), id) && Runs.Unmoved(Side(hs), Side(hs + more))
  {
    var rest := AboveGoesOn(hs, more);
    Runs.BlockedForGood(Played(hs).above, rest, id);
  }

  /** A queued byte goes out, is resent and given up before `flush` is called; the flush then
      succeeds, though it reports the message lost. */
  lemma LossBeforeFlush(open: nat -> bool, sent: nat -> bool)
    ensures var hs := [LIMIT_ONE] + [QUEUE_BYTE] + [Drive(0, ALWAYS)] + [Tick(200, 32, ALWAYS)] + [Tick(600, 32, ALWAYS)];
            var (t, outcome) := Flush.Flush(Side(hs), open, sent, []);
            outcome == Flush.Flushed && |t.log.finished| > 0 && !t.log.finished[|t.log.finished| - 1].delivered
  {
    var hs := [LIMIT_ONE] + [QUEUE_BYTE] + [Drive(0, ALWAYS)] + [Tick(200, 32, ALWAYS)];
    ByteResent();
    TickStage(hs, Again(0), None, 1, 600, ALWAYS);
    assert Named(Again(0), 600) + Named(None, 600) == [GaveUp(0)];
    GiveUpSide(Side(hs), Link(1, {0}, {}, {}), {0}, Waiting(0));
    DoomedFlush(Side(hs + [Tick(600, 32, ALWAYS)]), open, sent);
  }

  lemma ByteResent()
    ensures var hs := [LIMIT_ONE] + [QUEUE_BYTE] + [Drive(0, ALWAYS)] + [Tick(200, 32, ALWAYS)];
            && Stage(hs, Again(0), None, 1, Link(1, {0}, {}, {}), {0}, [Waiting(0)])
            && Unheard(System(hs)) && FirstOut(System(hs))
  {
    ByteFirst();
    AtTwoHundred(0, 0);
    assert Named(New(0), 200) + Named(None, 200) == Named(New(0), 200);
    StageResend([LIMIT_ONE] + [QUEUE_BYTE] + [Drive(0, ALWAYS)], New(0), None, 1, Link(1, {0}, {}, {}), {0}, [Waiting(0)], 200);
  }

  lemma DoomedFlush(s: State, open: nat -> bool, sent: nat -> bool)
    requires Runs.Inv(s) && Runs.Doomed(s) && |s.queue| == 1 && s.link == Link(1, {0}, {}, {}).GivenUp({0})
    ensures var (t, outcome) := Flush.Flush(s, open, sent, []);
            outcome == Flush.Flushed && |t.log.finished| > 0 && !t.log.finished[|t.log.finished| - 1].delivered
  {
    Flush.FlushForgetsAnEarlierLoss(s, open, sent);
    Flush.FlushIsSound(s, open, sent, []);
  }

  // ---- And one in which all goes well ------------------------------------------------------------

  predicate Free(e: Arq.Event) {
    !e.Arrive? && !e.AckArrives?
  }

  lemma TimelyOne(below: seq<Arq.Event>, e: Arq.Event)
    requires Arq.TimelyRun(below) && Arq.Timely(Arq.Run(below), e)
    ensures Arq.TimelyRun(below + [e])
  {
    var all := below + [e];
    forall i | 0 <= i < |all| ensures Arq.Timely(Arq.Run(all[..i]), all[i]) {
      if i < |below| {
        assert all[..i] == below[..i] && all[i] == below[i];
      } else {
        assert all[..i] == below;
      }
    }
  }

  lemma {:induction false} TimelyFree(below: seq<Arq.Event>, es: seq<Arq.Event>)
    requires Arq.TimelyRun(below) && forall i :: 0 <= i < |es| ==> Free(es[i])
    ensures Arq.TimelyRun(below + es)
  {
    if es == [] {
      assert below + es == below;
    } else {
      var front, last := es[..|es| - 1], es[|es| - 1];
      TimelyFree(below, front);
      TimelyOne(below + front, last);
      Delivery.LastApart(below, es);
    }
  }

  ghost predicate OnTime(hs: seq<Happening>) {
    Arq.TimelyRun(Played(hs).below)
  }

  lemma BelowFree(y: Arq.System, s: State, h: Happening)
    requires (s.queue != [] ==> s.queue[0].Ok()) && !Delivery.Arrival(h) && !h.AckArrives?
    ensures forall i :: 0 <= i < |Below(y, s, h)| ==> Free(Below(y, s, h)[i])
  {
    if h.Drive? && s.queue != [] { Delivery.FeedingSends(TakeLost(s), h.now, OpenAt(y.sender, h.now), h.sent, 0); }
  }

  lemma OnTimeFree(hs: seq<Happening>, h: Happening)
    requires OnTime(hs) && !Delivery.Arrival(h) && !h.AckArrives?
    ensures OnTime(hs + [h])
  {
    PlayedNext(hs, h);
    BelowFree(System(hs), Side(hs), h);
    TimelyFree(Played(hs).below, Below(System(hs), Side(hs), h));
  }

  lemma OnTimeArrive(hs: seq<Happening>)
    requires OnTime(hs) && Unheard(System(hs))
    ensures OnTime(hs + [Elsewhere(Arq.Arrive(0))])
  {
    PlayedNext(hs, Elsewhere(Arq.Arrive(0)));
    NextElsewhere(Played(hs), Arq.Arrive(0));
    TimelyOne(Played(hs).below, Arq.Arrive(0));
  }

  lemma OnTimeAck(hs: seq<Happening>, now: u64)
    requires OnTime(hs) && Heard(System(hs)) && System(hs).sender.next < 100
    ensures OnTime(hs + [AckArrives(0, now)])
  {
    PlayedNext(hs, AckArrives(0, now));
    TimelyOne(Played(hs).below, Arq.AckArrives(0, now));
  }

  lemma StartsOnTime()
    ensures OnTime([LIMIT_ONE])
  {
    assert OnTime([]);
    OnTimeFree([], LIMIT_ONE);
    assert [] + [LIMIT_ONE] == [LIMIT_ONE];
  }

  lemma ResentOnTime()
    ensures OnTime([LIMIT_ONE] + [QUEUE_BYTE] + [Drive(0, ALWAYS)] + [Tick(200, 32, ALWAYS)])
  {
    StartsOnTime();
    OnTimeFree([LIMIT_ONE], QUEUE_BYTE);
    OnTimeFree([LIMIT_ONE] + [QUEUE_BYTE], Drive(0, ALWAYS));
    OnTimeFree([LIMIT_ONE] + [QUEUE_BYTE] + [Drive(0, ALWAYS)], Tick(200, 32, ALWAYS));
  }

  lemma ByteAcked(hs: seq<Happening>)
    requires Stage(hs, Again(0), None, 1, Link(1, {0}, {}, {}), {0}, [Waiting(0)])
    requires Unheard(System(hs)) && FirstOut(System(hs)) && OnTime(hs)
    ensures var gs := hs + [Elsewhere(Arq.Arrive(0))] + [AckArrives(0, 300)];
            SideAt(Side(gs), Link(1, {}, {0}, {}), {}, [Waiting(0)]) && OnTime(gs)
  {
    StageArrive(hs, Again(0), None, 1, Link(1, {0}, {}, {}), {0}, [Waiting(0)]);
    OnTimeArrive(hs);
    var heard := hs + [Elsewhere(Arq.Arrive(0))];
    StageAck(heard, Again(0), None, 1, Link(1, {0}, {}, {}), {0}, [Waiting(0)], 300);
    OnTimeAck(heard, 300);
    ByteLink();
  }

  lemma ByteLink()
    ensures Link(1, {0}, {}, {}).Acked({0}) == Link(1, {}, {0}, {}) && {0} - {0} == {}
  {
  }

  lemma SettlesByte(s: State, open: nat -> bool)
    requires SideAt(s, Link(1, {}, {0}, {}), {}, [Waiting(0)])
    ensures var t := DriveQueue(s, open, ALWAYS).0;
            && |t.log.finished| == 1 && t.log.finished[0].delivered && t.log.finished[0].job.m == BYTE.m
            && Delivery.Few(t)
  {
    OneFragment();
    var job := Waiting(0);
    assert s.queue[1..] == [] && job.outstanding - {} == {0} && job.outstanding * {} == {};
    assert TakeLost(s) == s;
    assert Feed(s, open, ALWAYS, 0) == (s, true);
    assert job.outstanding * s.pending.Keys == {};
    assert Delivery.LostOnes(DriveQueue(s, open, ALWAYS).0) == {};
  }

  /** A queued byte goes out, is resent, received and acknowledged, and is reported delivered,
      in time and with nothing lost. */
  lemma ByteIsDelivered() returns (hs: seq<Happening>, d: Done)
    ensures Arq.TimelyRun(Played(hs).below) && Delivery.Few(Side(hs))
    ensures d in Side(hs).log.finished && d.delivered && d.job.m.data == [7]
  {
    var start := [LIMIT_ONE] + [QUEUE_BYTE] + [Drive(0, ALWAYS)] + [Tick(200, 32, ALWAYS)];
    ByteResent();
    ResentOnTime();
    ByteAcked(start);
    var acked := start + [Elsewhere(Arq.Arrive(0))] + [AckArrives(0, 300)];
    hs, d := ByteReported(acked);
  }

  lemma ByteReported(acked: seq<Happening>) returns (hs: seq<Happening>, d: Done)
    requires SideAt(Side(acked), Link(1, {}, {0}, {}), {}, [Waiting(0)]) && OnTime(acked)
    ensures OnTime(hs) && Delivery.Few(Side(hs)) && d in Side(hs).log.finished && d.delivered && d.job.m.data == [7]
  {
    hs := acked + [Drive(310, ALWAYS)];
    OnTimeFree(acked, Drive(310, ALWAYS));
    PlayedNext(acked, Drive(310, ALWAYS));
    DrivePlays(Played(acked), 310, ALWAYS);
    SettlesByte(Side(acked), OpenAt(System(acked).sender, 310));
    d := Side(hs).log.finished[0];
  }
}
