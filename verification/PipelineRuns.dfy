/** What every operation of the sending side keeps, and what its reports are worth. */
module PipelineRuns {
  import opened Bits
  import opened Outcomes
  import Wire
  import Compress
  import opened Frames
  import opened ReassemblyRuns
  import opened Pipeline

  // ---- The invariant ----------------------------------------------------------------

  /** Every registered message either went out as recorded or never did. */
  ghost predicate Recorded(s: State) {
    && (forall g: nat :: g < s.link.next <==> g in s.log.sent || g in s.log.failed)
    && s.log.sent.Keys !! s.log.failed
  }

  /** What is kept for resending is what was first sent, and is in flight unless a pass
      stopped short of giving it up. */
  ghost predicate Kept(s: State) {
    && (forall id <- s.pending :: id in s.log.sent && s.log.sent[id] == s.pending[id])
    && s.pending.Keys <= s.link.flying + s.log.stranded
    && s.link.flying <= s.pending.Keys + s.log.failed
    && s.log.stranded <= s.link.gaveUp && s.abandoned <= s.link.gaveUp
  }

  ghost predicate Faithful(s: State) {
    forall r <- s.log.resent :: r.0 in s.log.sent && s.log.sent[r.0] == r.1
  }

  /** Fragment `i` of `job` went out as identifier `id`. */
  ghost predicate WentOut(s: State, job: Job, id: nat, i: nat) {
    && job.m.Sendable() && i < job.m.Count()
    && id in s.log.sent && s.log.sent[id] == job.FrameAt(i)
  }

  /** A finished message: delivered, every fragment of it went out and was acknowledged;
      lost, one of them was given up. */
  ghost predicate DoneOk(s: State, d: Done) {
    && d.job.Ok() && |d.ids| == d.job.next
    && (forall i :: 0 <= i < |d.ids| ==> WentOut(s, d.job, d.ids[i], i))
    && (d.delivered ==> |d.ids| == d.job.m.Count() && forall i :: 0 <= i < |d.ids| ==> d.ids[i] in s.link.acked)
    && (!d.delivered ==> exists i :: 0 <= i < |d.ids| && d.ids[i] in s.link.gaveUp)
  }

  ghost predicate Finished(s: State) {
    forall d <- s.log.finished :: DoneOk(s, d)
  }

  /** The front job: its fragments so far went out in order, and each is accounted for. */
  ghost predicate FrontOk(s: State, job: Job) {
    && job.Ok() && |s.log.fed| == job.next
    && (forall i :: 0 <= i < |s.log.fed| ==> WentOut(s, job, s.log.fed[i], i))
    && (forall i :: 0 <= i < |s.log.fed| ==>
          s.log.fed[i] in job.outstanding || s.log.fed[i] in s.link.acked || job.lost)
    && (forall id <- job.outstanding :: id in s.log.fed)
    && (forall id <- job.outstanding :: id in s.link.acked || id in s.pending || id in s.abandoned)
    && (job.lost ==> exists i :: 0 <= i < |s.log.fed| && s.log.fed[i] in s.link.gaveUp)
  }

  ghost predicate Jobs(s: State) {
    && (forall i :: 0 < i < |s.queue| ==> s.queue[i].Ok() && s.queue[i].Untouched())
    && (if s.queue == [] then s.log.fed == [] else FrontOk(s, s.queue[0]))
  }

  /** What holds throughout a pass over the queue. */
  ghost predicate Mid(s: State) {
    s.link.Ok() && Recorded(s) && Kept(s) && Faithful(s) && Finished(s) && Jobs(s)
  }

  /** What holds between operations. */
  ghost predicate Inv(s: State) {
    Mid(s) && (s.queue != [] ==> !s.queue[0].lost)
  }

  // ---- Growth: nothing already true of the past is undone ----------------------------

  /** `t` is later than `s`. */
  ghost predicate Later(s: State, t: State) {
    && (forall id <- s.log.sent :: id in t.log.sent && t.log.sent[id] == s.log.sent[id])
    && s.link.acked <= t.link.acked && s.link.gaveUp <= t.link.gaveUp
  }

  lemma DoneStays(s: State, t: State, d: Done)
    requires Later(s, t) && DoneOk(s, d)
    ensures DoneOk(t, d)
  {
    forall i | 0 <= i < |d.ids| ensures WentOut(t, d.job, d.ids[i], i) {
      assert WentOut(s, d.job, d.ids[i], i);
    }
  }

  lemma FinishedStays(s: State, t: State)
    requires Later(s, t) && Finished(s) && t.log.finished == s.log.finished
    ensures Finished(t)
  {
    forall d <- t.log.finished ensures DoneOk(t, d) { DoneStays(s, t, d); }
  }

  lemma FrontStays(s: State, t: State, job: Job)
    requires Later(s, t) && FrontOk(s, job) && t.log.fed == s.log.fed
    requires forall id <- job.outstanding :: id in t.link.acked || id in t.pending || id in t.abandoned
    ensures FrontOk(t, job)
  {
    forall i | 0 <= i < |t.log.fed| ensures WentOut(t, job, t.log.fed[i], i) {
      assert WentOut(s, job, s.log.fed[i], i);
    }
  }

  lemma JobsStay(s: State, t: State)
    requires Later(s, t) && Jobs(s) && t.queue == s.queue && t.log.fed == s.log.fed
    requires forall id: nat :: id in s.pending || id in s.abandoned ==> id in t.link.acked || id in t.pending || id in t.abandoned
    ensures Jobs(t)
  {
    if s.queue != [] { FrontStays(s, t, s.queue[0]); }
  }

  // ---- Launching one frame --------------------------------------------------------------

  lemma LaunchedKeeps(s: State, frame: Frame, sent: bool)
    requires Mid(s)
    ensures Mid(Launched(s, frame, sent)) && Later(s, Launched(s, frame, sent))
  {
    var t := Launched(s, frame, sent);
    var id := s.link.next;
    assert id !in s.link.flying && id !in s.link.acked && id !in s.link.gaveUp;
    assert id !in s.log.sent && id !in s.log.failed;
    FinishedStays(s, t);
    JobsStay(s, t);
  }

  lemma QueueMessageKeeps(s: State, reliable: bool, peerMax: nat, data: seq<Wire.byte>, shape: Compress.Shape, limit: nat)
    requires Inv(s) && QueueMessage(s, reliable, peerMax, data, shape, limit).Ok?
    ensures Inv(QueueMessage(s, reliable, peerMax, data, shape, limit).value)
  {
    var t := QueueMessage(s, reliable, peerMax, data, shape, limit).value;
    FinishedStays(s, t);
    if s.queue != [] { FrontStays(s, t, s.queue[0]); }
  }

  // ---- A pass over the queue ------------------------------------------------------------

  lemma FrontTaken(s: State, t: State, job: Job, after: Job)
    requires FrontOk(s, job) && s.abandoned <= s.link.gaveUp
    requires after == job.(lost := job.lost || job.outstanding * s.abandoned != {}, outstanding := job.outstanding - s.abandoned)
    requires t.log == s.log && t.link == s.link && t.pending == s.pending
    ensures FrontOk(t, after)
  {
    forall i | 0 <= i < |t.log.fed|
      ensures WentOut(t, after, t.log.fed[i], i)
      ensures t.log.fed[i] in after.outstanding || t.log.fed[i] in t.link.acked || after.lost
    {
      var id := s.log.fed[i];
      assert WentOut(s, job, id, i);
      if id in job.outstanding && id in s.abandoned { assert id in job.outstanding * s.abandoned; }
    }
    if after.lost && !job.lost {
      var id :| id in job.outstanding * s.abandoned;
      assert id in s.log.fed && id in s.link.gaveUp;
    }
  }

  lemma TakeLostKeeps(s: State)
    requires Inv(s)
    ensures var t := TakeLost(s);
            && Mid(t) && Later(s, t) && t.abandoned == {}
            && (s.queue != [] ==> t.queue[0].lost == Doomed(s))
  {
    var t := TakeLost(s);
    FinishedStays(s, t);
    if s.queue != [] {
      FrontTaken(s, t, s.queue[0], t.queue[0]);
      assert t.queue[1..] == s.queue[1..];
    }
  }

  /** Some abandoned identifier is the front job's: the next pass will drop the message. */
  predicate Doomed(s: State) {
    s.queue != [] && s.queue[0].outstanding * s.abandoned != {}
  }

  lemma FedKeeps(s: State, sent: bool)
    requires Mid(s) && s.queue != [] && s.queue[0].next < s.queue[0].m.Count()
    ensures Mid(Fed(s, sent)) && Later(s, Fed(s, sent))
  {
    var job := s.queue[0];
    var frame := job.FrameAt(job.next);
    LaunchedKeeps(s, frame, sent);
    if sent {
      var t := Fed(s, true);
      var u := Launched(s, frame, true);
      FinishedStays(u, t);
      FrontAdvances(u, t, job);
    }
  }

  lemma FrontAdvances(u: State, t: State, job: Job)
    requires u.queue != [] && u.queue[0] == job && FrontOk(u, job) && job.next < job.m.Count()
    requires u.link.next > 0 && t.link == u.link && t.pending == u.pending && t.abandoned == u.abandoned
    requires var id := u.link.next - 1;
             && t.log.fed == u.log.fed + [id] && t.log.sent == u.log.sent && id in u.pending
             && WentOut(u, job, id, job.next) && t.queue != [] && t.queue[0] == Advanced(job, id)
    ensures FrontOk(t, t.queue[0])
  {
    var after := t.queue[0];
    forall i | 0 <= i < |t.log.fed| ensures WentOut(t, after, t.log.fed[i], i) {
      assert i < |u.log.fed| ==> WentOut(u, job, u.log.fed[i], i);
    }
    if job.lost {
      var i :| 0 <= i < |u.log.fed| && u.log.fed[i] in u.link.gaveUp;
      assert t.log.fed[i] in t.link.gaveUp;
    }
  }

  lemma {:induction false} FeedKeeps(s: State, open: nat -> bool, sent: nat -> bool, k: nat)
    requires Mid(s) && s.queue != []
    ensures var t := Feed(s, open, sent, k).0;
            && Mid(t) && Later(s, t) && Calm(s, t) && t.abandoned == s.abandoned
            && t.queue != [] && t.queue[0].lost == s.queue[0].lost
    decreases s.queue[0].m.Count() - s.queue[0].next
  {
    var job := s.queue[0];
    if !job.lost && job.next < job.m.Count() && open(k) {
      FedKeeps(s, sent(k));
      if sent(k) { FeedKeeps(Fed(s, true), open, sent, k + 1); }
    }
  }

  /** Nothing was acknowledged or given up on the way, and nothing left flight. */
  ghost predicate Calm(s: State, t: State) {
    && t.link.acked == s.link.acked && t.link.gaveUp == s.link.gaveUp && s.link.flying <= t.link.flying
    && t.abandonedCount == s.abandonedCount && t.log.finished == s.log.finished
  }

  lemma FrontSettled(s: State, job: Job, after: Job)
    requires FrontOk(s, job) && s.abandoned == {}
    requires after == job.(outstanding := job.outstanding * s.pending.Keys)
    ensures FrontOk(s, after)
    ensures forall i :: 0 <= i < |s.log.fed| ==>
              s.log.fed[i] in after.outstanding || s.log.fed[i] in s.link.acked || after.lost
  {
    forall i | 0 <= i < |s.log.fed|
      ensures WentOut(s, after, s.log.fed[i], i)
      ensures s.log.fed[i] in after.outstanding || s.log.fed[i] in s.link.acked || after.lost
    {
      assert WentOut(s, job, s.log.fed[i], i);
    }
  }

  lemma DoneIsOk(s: State, job: Job)
    requires FrontOk(s, job) && (job.lost || (job.next == job.m.Count() && job.outstanding == {}))
    ensures DoneOk(s, Done(job, s.log.fed, !job.lost))
  {
  }

  lemma SettleKeeps(s: State)
    requires Mid(s) && s.queue != [] && s.abandoned == {}
    ensures var (t, r) := Settle(s);
            && Inv(t) && Later(s, t)
            && t.link == s.link && t.abandonedCount == s.abandonedCount && t.abandoned == {}
            && (s.queue[0].lost ==> r == Some(false))
            && (r.Some? ==> r.value == !s.queue[0].lost)
  {
    var (t, r) := Settle(s);
    var job := s.queue[0].(outstanding := s.queue[0].outstanding * s.pending.Keys);
    FrontSettled(s, s.queue[0], job);
    if r.Some? {
      DoneIsOk(s, job);
      forall e <- t.log.finished ensures DoneOk(t, e) { DoneStays(s, t, e); }
      if t.queue != [] { assert t.queue[0] == s.queue[1]; }
    } else {
      FinishedStays(s, t);
      FrontStays(s, t, job);
      assert t.queue[1..] == s.queue[1..];
    }
  }

  /** What a pass over the queue does to the list of messages. */
  ghost predicate Moved(s: State, t: State, r: Option<bool>) {
    match r
    case None =>
      && t.log.finished == s.log.finished && |t.queue| == |s.queue|
      && (forall i :: 0 <= i < |s.queue| ==> t.queue[i].Same(s.queue[i]))
    case Some(delivered) =>
      && s.queue != [] && t.queue == s.queue[1..] && |t.log.finished| == |s.log.finished| + 1
      && t.log.finished[..|s.log.finished|] == s.log.finished
      && t.log.finished[|s.log.finished|].job.Same(s.queue[0])
      && t.log.finished[|s.log.finished|].delivered == delivered
  }

  lemma DriveQueueKeeps(s: State, open: nat -> bool, sent: nat -> bool)
    requires Inv(s)
    ensures var (t, r) := DriveQueue(s, open, sent);
            && Inv(t) && Later(s, t) && t.abandoned == {}
            && t.link.acked == s.link.acked && t.link.gaveUp == s.link.gaveUp && s.link.flying <= t.link.flying
            && t.abandonedCount == s.abandonedCount
  {
    var taken := TakeLost(s);
    TakeLostKeeps(s);
    if s.queue != [] {
      FeedKeeps(taken, open, sent, 0);
      FeedShape(taken, open, sent, 0);
      var (fed, ok) := Feed(taken, open, sent, 0);
      if ok { SettleKeeps(fed); } else { assert !taken.queue[0].lost; }
    }
  }

  /** A pass takes at most the front message off the queue, and reports it delivered exactly
      when none of its fragments had been abandoned; one that had is taken off at once. */
  lemma DriveQueueMoves(s: State, open: nat -> bool, sent: nat -> bool)
    requires Inv(s) && DriveQueue(s, open, sent).1.Ok?
    ensures var (t, r) := DriveQueue(s, open, sent);
            && Moved(s, t, r.value)
            && (r.value.Some? ==> r.value.value == !Doomed(s))
            && (Doomed(s) ==> r.value.Some?)
  {
    if s.queue != [] {
      var taken := TakeLost(s);
      TakeLostKeeps(s);
      FeedKeeps(taken, open, sent, 0);
      FeedShape(taken, open, sent, 0);
      SettleKeeps(Feed(taken, open, sent, 0).0);
    }
  }

  // ---- Acknowledgement and retransmission -----------------------------------------------

  lemma ApplyAckKeeps(s: State, ids: set<nat>)
    requires Inv(s)
    ensures Inv(ApplyAck(s, ids)) && Later(s, ApplyAck(s, ids))
  {
    var t := ApplyAck(s, ids);
    FinishedStays(s, t);
    JobsStay(s, t);
  }

  /** What a poll of the reliability queue reports: messages in flight, each once. */
  predicate DueOk(link: Link, due: seq<Due>) {
    && (forall i :: 0 <= i < |due| ==> due[i].id in link.flying)
    && (forall i, j :: 0 <= i < j < |due| ==> due[i].id != due[j].id)
  }

  function Strand(s: State, ids: set<nat>): State {
    s.(log := s.log.(stranded := ids))
  }

  lemma GaveUpFirst(due: seq<Due>, i: nat)
    requires i < |due|
    ensures GaveUpIds(due[i..]) == GaveUpIds(due[i + 1..]) + (if due[i].GaveUp? then {due[i].id} else {})
  {
    assert due[i..] == [due[i]] + due[i + 1..];
  }

  lemma GiveUpKeeps(s: State, id: nat, rest: set<nat>)
    requires Inv(Strand(s, rest + {id}))
    ensures Inv(Strand(GiveUp(s, id), rest)) && Later(Strand(s, rest + {id}), Strand(GiveUp(s, id), rest))
  {
    var u, t := Strand(s, rest + {id}), Strand(GiveUp(s, id), rest);
    FinishedStays(u, t);
    JobsStay(u, t);
  }

  lemma ResentKeeps(s: State, id: nat)
    requires Inv(s) && id in s.pending
    ensures Inv(Resent(s, id)) && Later(s, Resent(s, id))
  {
    var t := Resent(s, id);
    FinishedStays(s, t);
    JobsStay(s, t);
  }

  function Left(due: seq<Due>, i: nat, base: set<nat>): set<nat>
    requires i <= |due|
  {
    base + GaveUpIds(due[i..])
  }

  lemma GiveUpStep(s: State, due: seq<Due>, i: nat, base: set<nat>)
    requires i < |due| && due[i].GaveUp? && Inv(Strand(s, Left(due, i, base)))
    ensures Inv(Strand(GiveUp(s, due[i].id), Left(due, i + 1, base)))
  {
    GaveUpFirst(due, i);
    assert Left(due, i, base) == Left(due, i + 1, base) + {due[i].id};
    GiveUpKeeps(s, due[i].id, Left(due, i + 1, base));
  }

  lemma ResendStep(s: State, due: seq<Due>, i: nat, base: set<nat>)
    requires i < |due| && due[i].Resend? && Inv(Strand(s, Left(due, i, base)))
    ensures Left(due, i, base) == Left(due, i + 1, base)
    ensures due[i].id in s.pending ==> Inv(Strand(Resent(s, due[i].id), Left(due, i + 1, base)))
  {
    GaveUpFirst(due, i);
    var left := Left(due, i, base);
    assert left == Left(due, i + 1, base);
    if due[i].id in s.pending {
      ResentKeeps(Strand(s, left), due[i].id);
      assert Strand(Resent(s, due[i].id), left) == Resent(Strand(s, left), due[i].id);
    }
  }

  /** Item `i` is a resend of something kept, and it will not go out. */
  predicate Fails(kept: set<nat>, due: seq<Due>, sent: nat -> bool, i: nat)
    requires i < |due|
  {
    due[i].Resend? && due[i].id in kept && !sent(i)
  }

  /** Where the pass goes from item `i`. */
  function Next(s: State, due: seq<Due>, i: nat): State
    requires i < |due|
  {
    match due[i]
    case GaveUp(id) => GiveUp(s, id)
    case Resend(id) => if id in s.pending then Resent(s, id) else s
  }

  lemma NextKeeps(s: State, due: seq<Due>, i: nat, base: set<nat>)
    requires i < |due| && Inv(Strand(s, Left(due, i, base)))
    ensures Inv(Strand(Next(s, due, i), Left(due, i + 1, base)))
  {
    if due[i].GaveUp? { GiveUpStep(s, due, i, base); } else { ResendStep(s, due, i, base); }
  }

  lemma WorkStep(s: State, due: seq<Due>, sent: nat -> bool, i: nat)
    requires i < |due|
    ensures Work(s, due, sent, i) ==
            if Fails(s.pending.Keys, due, sent, i) then (s, Some(i)) else Work(Next(s, due, i), due, sent, i + 1)
  {
  }

  lemma {:induction false} WorkKeeps(s: State, due: seq<Due>, sent: nat -> bool, i: nat, base: set<nat>)
    requires i <= |due| && Inv(Strand(s, Left(due, i, base)))
    ensures var r := Work(s, due, sent, i);
            Inv(Strand(r.0, Left(due, Stop(r.1, due), base)))
    decreases |due| - i
  {
    if i < |due| {
      WorkStep(s, due, sent, i);
      if !Fails(s.pending.Keys, due, sent, i) {
        NextKeeps(s, due, i, base);
        WorkKeeps(Next(s, due, i), due, sent, i + 1, base);
      }
    }
  }

  lemma {:induction false} WorkElse(s: State, due: seq<Due>, sent: nat -> bool, i: nat)
    requires i <= |due|
    ensures var (t, stop) := Work(s, due, sent, i);
            && (stop.Some? ==> i <= stop.value < |due|)
            && t.queue == s.queue && t.link == s.link && t.nextMessage == s.nextMessage
            && t.log.finished == s.log.finished && t.log.stranded == s.log.stranded
            && t.abandoned <= s.abandoned + GaveUpIds(due)
    decreases |due| - i
  {
    if i < |due| {
      match due[i]
      case GaveUp(id) =>
        assert due[i] in due;
        WorkElse(GiveUp(s, id), due, sent, i + 1);
      case Resend(id) =>
        if id !in s.pending { WorkElse(s, due, sent, i + 1); }
        else if sent(i) { WorkElse(Resent(s, id), due, sent, i + 1); }
    }
  }

  lemma PolledKeeps(s: State, due: seq<Due>)
    requires Inv(s) && DueOk(s.link, due)
    ensures Inv(Strand(s.(link := s.link.GivenUp(GaveUpIds(due))), s.log.stranded + GaveUpIds(due)))
  {
    var t := Strand(s.(link := s.link.GivenUp(GaveUpIds(due))), s.log.stranded + GaveUpIds(due));
    assert GaveUpIds(due) <= s.link.flying;
    FinishedStays(s, t);
    JobsStay(s, t);
  }

  lemma DriveRetransmitsKeeps(s: State, due: seq<Due>, sent: nat -> bool)
    requires Inv(s) && DueOk(s.link, due)
    ensures Inv(DriveRetransmits(s, due, sent).0)
  {
    var polled := s.(link := s.link.GivenUp(GaveUpIds(due)));
    PolledKeeps(s, due);
    assert due[0..] == due;
    WorkKeeps(polled, due, sent, 0, s.log.stranded);
    WorkElse(polled, due, sent, 0);
    var (t, stop) := Work(polled, due, sent, 0);
    if stop.None? { assert due[|due|..] == []; }
    assert DriveRetransmits(s, due, sent).0 == Strand(t, s.log.stranded + GaveUpIds(due[Stop(stop, due)..]));
  }

  // ---- Every run --------------------------------------------------------------------------

  datatype Event =
    | Queue(reliable: bool, peerMax: nat, data: seq<Wire.byte>, shape: Compress.Shape, limit: nat)
    | Send(reliable: bool, frame: Frame, room: bool, went: bool)
    | Drive(open: nat -> bool, sent: nat -> bool)
    | Ack(ids: set<nat>)
    | Retransmit(due: seq<Due>, sent: nat -> bool)
    | ClearCount

  function Step(s: State, e: Event): State
    requires s.queue != [] ==> s.queue[0].Ok()
  {
    match e
    case Queue(reliable, peerMax, data, shape, limit) =>
      var r := QueueMessage(s, reliable, peerMax, data, shape, limit);
      if r.Ok? then r.value else s
    case Send(reliable, frame, room, went) => SendOne(s, reliable, frame, room, went).0
    case Drive(open, sent) => DriveQueue(s, open, sent).0
    case Ack(ids) => ApplyAck(s, ids)
    case Retransmit(due, sent) => DriveRetransmits(s, due, sent).0
    case ClearCount => s.(abandonedCount := 0)
  }

  ghost predicate EventOk(s: State, e: Event) {
    e.Retransmit? ==> DueOk(s.link, e.due)
  }

  lemma StepKeeps(s: State, e: Event)
    requires Inv(s) && EventOk(s, e)
    ensures Inv(Step(s, e))
  {
    match e
    case Queue(reliable, peerMax, data, shape, limit) =>
      if QueueMessage(s, reliable, peerMax, data, shape, limit).Ok? {
        QueueMessageKeeps(s, reliable, peerMax, data, shape, limit);
      }
    case Send(reliable, frame, room, went) =>
      LaunchedKeeps(s, frame, went);
    case Drive(open, sent) => DriveQueueKeeps(s, open, sent);
    case Ack(ids) => ApplyAckKeeps(s, ids);
    case Retransmit(due, sent) => DriveRetransmitsKeeps(s, due, sent);
    case ClearCount => ClearKeeps(s);
  }

  lemma ClearKeeps(s: State)
    requires Inv(s)
    ensures Inv(s.(abandonedCount := 0)) && Later(s, s.(abandonedCount := 0))
  {
    var t := s.(abandonedCount := 0);
    FinishedStays(s, t);
    JobsStay(s, t);
  }

  /** A run the far side and the reliability queue can take part in: only messages in flight
      come due. Everything else is free. */
  ghost predicate RunOk(events: seq<Event>)
    decreases |events|, 0
  {
    events == [] ||
    var front := events[..|events| - 1];
    RunOk(front) && EventOk(Run(front), events[|events| - 1])
  }

  /** The state after any operations in any order. */
  ghost function Run(events: seq<Event>): (s: State)
    requires RunOk(events)
    ensures Inv(s)
    decreases |events|, 1
  {
    if events == [] then START
    else
      var front := Run(events[..|events| - 1]);
      StepKeeps(front, events[|events| - 1]);
      Step(front, events[|events| - 1])
  }

  lemma RunExtended(events: seq<Event>, e: Event)
    requires RunOk(events) && EventOk(Run(events), e)
    ensures RunOk(events + [e]) && Run(events + [e]) == Step(Run(events), e)
  {
    assert (events + [e])[..|events|] == events;
  }

  /** Reported delivery is sound in every run: a message reported delivered had every
      fragment, in order and with its own bytes and descriptor, registered, sent and
      acknowledged under an identifier of its own; one reported lost had one given up. */
  lemma ReportedDeliveryIsSound(events: seq<Event>, d: Done)
    requires RunOk(events) && d in Run(events).log.finished
    ensures var s := Run(events);
            && d.job.m.Sendable() && (d.delivered <==> |d.ids| == d.job.m.Count() && forall id <- d.ids :: id in s.link.acked)
            && (!d.delivered <==> exists id <- d.ids :: id in s.link.gaveUp)
            && (forall i :: 0 <= i < |d.ids| ==> WentOut(s, d.job, d.ids[i], i))
            && (forall i, j :: 0 <= i < j < |d.ids| ==> d.ids[i] != d.ids[j])
  {
    var s := Run(events);
    assert DoneOk(s, d);
    forall i, j | 0 <= i < j < |d.ids| ensures d.ids[i] != d.ids[j] {
      assert WentOut(s, d.job, d.ids[i], i) && WentOut(s, d.job, d.ids[j], j);
      assert d.job.FrameAt(i).fragment.value.index != d.job.FrameAt(j).fragment.value.index;
    }
    if d.delivered {
      forall id <- d.ids ensures id in s.link.acked && id !in s.link.gaveUp {
        var i :| 0 <= i < |d.ids| && d.ids[i] == id;
      }
    }
  }

  /** Retransmissions are faithful in every run: each reseals the bytes, shape, descriptor
      and limit its message was first sent with, and what is kept for resending is that. */
  lemma RetransmissionsAreFaithful(events: seq<Event>, id: nat, frame: Frame)
    requires RunOk(events)
    requires (id, frame) in Run(events).log.resent || (id in Run(events).pending && Run(events).pending[id] == frame)
    ensures var s := Run(events);
            id in s.log.sent && s.log.sent[id] == frame
  {
    var s := Run(events);
    if (id, frame) in s.log.resent { assert Faithful(s); }
  }

  lemma {:induction false} RunPrefix(events: seq<Event>, more: seq<Event>)
    requires RunOk(events + more)
    ensures RunOk(events)
    decreases |more|
  {
    if more == [] {
      assert events + more == events;
    } else {
      assert (events + more)[..|events + more| - 1] == events + more[..|more| - 1];
      RunPrefix(events, more[..|more| - 1]);
    }
  }

  /** The run one event shorter, and that event. */
  lemma RunUnfolds(events: seq<Event>)
    requires RunOk(events) && events != []
    ensures var front, e := events[..|events| - 1], events[|events| - 1];
            RunOk(front) && EventOk(Run(front), e) && Run(events) == Step(Run(front), e)
  {
  }

  lemma RunLast(events: seq<Event>, more: seq<Event>, front: seq<Event>)
    requires RunOk(events + more) && more != [] && front == events + more[..|more| - 1]
    ensures RunOk(front) && EventOk(Run(front), more[|more| - 1])
    ensures Run(events + more) == Step(Run(front), more[|more| - 1])
  {
    var all := events + more;
    RunUnfolds(all);
    assert all[..|all| - 1] == front && all[|all| - 1] == more[|more| - 1];
  }

  // ---- A pass that stops short ---------------------------------------------------------------

  lemma {:induction false} WorkPending(s: State, due: seq<Due>, sent: nat -> bool, i: nat)
    requires i <= |due|
    ensures var (t, stop) := Work(s, due, sent, i);
            && i <= Stop(stop, due)
            && t.pending == s.pending - GaveUpIds(due[i..Stop(stop, due)])
            && t.link == s.link
    decreases |due| - i
  {
    if i < |due| {
      var (t, stop) := Work(s, due, sent, i);
      match due[i]
      case GaveUp(id) =>
        WorkPending(GiveUp(s, id), due, sent, i + 1);
        assert due[i..Stop(stop, due)] == [due[i]] + due[i + 1..Stop(stop, due)];
        assert GaveUpIds(due[i..Stop(stop, due)]) == {id} + GaveUpIds(due[i + 1..Stop(stop, due)]);
      case Resend(id) =>
        if id !in s.pending || sent(i) {
          WorkPending(if id !in s.pending then s else Resent(s, id), due, sent, i + 1);
          assert due[i..Stop(stop, due)] == [due[i]] + due[i + 1..Stop(stop, due)];
          assert GaveUpIds(due[i..Stop(stop, due)]) == GaveUpIds(due[i + 1..Stop(stop, due)]);
        }
    }
  }

  /** Item `j` gives up something kept. */
  predicate Drops(kept: set<nat>, due: seq<Due>, j: nat)
    requires j < |due|
  {
    due[j].GaveUp? && due[j].id in kept
  }

  /** A resend that will not go out comes before a message the queue has given up. */
  ghost predicate Strands(s: State, due: seq<Due>, sent: nat -> bool) {
    exists i, j :: 0 <= i < j < |due| && Fails(s.pending.Keys, due, sent, i) && Drops(s.pending.Keys, due, j)
  }

  /** The pass stops at the first resend that fails, and only there. */
  lemma {:induction false} StopsAtFirstFailure(s: State, due: seq<Due>, sent: nat -> bool, i: nat)
    requires i <= |due| && forall j, k :: 0 <= j < k < |due| ==> due[j].id != due[k].id
    ensures var stop := Stop(Work(s, due, sent, i).1, due);
            && i <= stop && (stop < |due| ==> Fails(s.pending.Keys, due, sent, stop))
            && (forall j :: i <= j < stop ==> !Fails(s.pending.Keys, due, sent, j))
    decreases |due| - i
  {
    if i < |due| {
      match due[i]
      case GaveUp(id) =>
        StopsAtFirstFailure(GiveUp(s, id), due, sent, i + 1);
        forall j | i < j < |due|
          ensures Fails(GiveUp(s, id).pending.Keys, due, sent, j) <==> Fails(s.pending.Keys, due, sent, j)
        {
        }
      case Resend(id) =>
        if id !in s.pending { StopsAtFirstFailure(s, due, sent, i + 1); }
        else if sent(i) { StopsAtFirstFailure(Resent(s, id), due, sent, i + 1); }
    }
  }

  lemma GaveUpAt(due: seq<Due>, id: nat) returns (j: nat)
    requires id in GaveUpIds(due)
    ensures j < |due| && due[j] == GaveUp(id)
  {
    var d :| d in due && d.GaveUp? && d.id == id;
    j :| 0 <= j < |due| && due[j] == d;
  }

  lemma GaveUpBy(due: seq<Due>, n: nat, j: nat)
    requires j < n <= |due| && due[j].GaveUp?
    ensures due[j].id in GaveUpIds(due[..n])
  {
    assert due[..n][j] == due[j];
  }

  /** What the pass keeps of what it was given, by where it stopped. */
  lemma LeftBehind(s: State, due: seq<Due>, sent: nat -> bool, id: nat)
    requires Inv(s) && DueOk(s.link, due) && s.pending.Keys <= s.link.flying
    ensures var (t, stop) := DriveRetransmits(s, due, sent);
            id in t.pending && id !in t.link.flying <==>
              exists j :: Stop(stop, due) <= j < |due| && Drops(s.pending.Keys, due, j) && due[j].id == id
  {
    var (t, stop) := DriveRetransmits(s, due, sent);
    var n := Stop(stop, due);
    WorkPending(s.(link := s.link.GivenUp(GaveUpIds(due))), due, sent, 0);
    assert t.pending == s.pending - GaveUpIds(due[..n]) by { assert due[0..n] == due[..n]; }
    if id in s.pending && id in GaveUpIds(due) {
      var j := GaveUpAt(due, id);
      if j < n { GaveUpBy(due, n, j); } else { assert Drops(s.pending.Keys, due, j); }
    }
    if j :| n <= j < |due| && Drops(s.pending.Keys, due, j) && due[j].id == id {
      GaveUpBy(due, |due|, j);
      assert due[..|due|] == due;
      assert id !in GaveUpIds(due[..n]);
    }
  }

  /** A retransmission pass leaves only messages in flight behind exactly when no resend that
      fails comes before a message the queue has given up. */
  lemma PassKeepsToFlight(s: State, due: seq<Due>, sent: nat -> bool)
    requires Inv(s) && DueOk(s.link, due) && s.pending.Keys <= s.link.flying
    ensures var t := DriveRetransmits(s, due, sent).0;
            t.pending.Keys <= t.link.flying <==> !Strands(s, due, sent)
  {
    var (t, stop) := DriveRetransmits(s, due, sent);
    var n := Stop(stop, due);
    StopsAtFirstFailure(s.(link := s.link.GivenUp(GaveUpIds(due))), due, sent, 0);
    if Strands(s, due, sent) {
      var i, j :| 0 <= i < j < |due| && Fails(s.pending.Keys, due, sent, i) && Drops(s.pending.Keys, due, j);
      assert n <= i;
      LeftBehind(s, due, sent, due[j].id);
    }
    if !(t.pending.Keys <= t.link.flying) {
      var id :| id in t.pending && id !in t.link.flying;
      LeftBehind(s, due, sent, id);
      var j :| n <= j < |due| && Drops(s.pending.Keys, due, j) && due[j].id == id;
      assert Fails(s.pending.Keys, due, sent, n);
    }
  }

  // ---- What a pass resends ---------------------------------------------------------------------

  /** Item `i`, no earlier than `from`, asks for something kept to be resent, and no resend from
      `from` up to it fails. */
  predicate GoesOut(kept: set<nat>, due: seq<Due>, sent: nat -> bool, from: nat, i: nat) {
    && from <= i < |due| && due[i].Resend? && due[i].id in kept
    && forall j :: from <= j <= i ==> !Fails(kept, due, sent, j)
  }

  ghost predicate Ascending(idx: seq<nat>) {
    forall j, k :: 0 <= j < k < |idx| ==> idx[j] < idx[k]
  }

  /** `t` has resent, beyond what `s` had, the frames kept for the items `idx`, in that order. */
  ghost predicate ResentFor(s: State, t: State, due: seq<Due>, idx: seq<nat>) {
    && s.log.resent <= t.log.resent && |t.log.resent| == |s.log.resent| + |idx|
    && forall k :: 0 <= k < |idx| ==>
         && idx[k] < |due| && due[idx[k]].id in s.pending
         && t.log.resent[|s.log.resent| + k] == (due[idx[k]].id, s.pending[due[idx[k]].id])
  }

  /** Taking out what item `i` gives up makes no difference to the items after it. */
  lemma SameAfter(kept: set<nat>, left: set<nat>, due: seq<Due>, sent: nat -> bool, i: nat, j: nat)
    requires i < |due| && (forall m :: i < m < |due| ==> (due[m].id in left <==> due[m].id in kept))
    requires !Fails(kept, due, sent, i)
    ensures GoesOut(left, due, sent, i + 1, j) <==> j > i && GoesOut(kept, due, sent, i, j)
  {
    if GoesOut(left, due, sent, i + 1, j) {
      forall m | i <= m <= j ensures !Fails(kept, due, sent, m) {
        if m > i { assert !Fails(left, due, sent, m); }
      }
    }
    if j > i && GoesOut(kept, due, sent, i, j) {
      forall m | i + 1 <= m <= j ensures !Fails(left, due, sent, m) {
        assert !Fails(kept, due, sent, m);
      }
    }
  }

  lemma {:induction false} WorkResends(s: State, due: seq<Due>, sent: nat -> bool, i: nat) returns (idx: seq<nat>)
    requires i <= |due| && forall j, k :: 0 <= j < k < |due| ==> due[j].id != due[k].id
    ensures Ascending(idx) && forall j: nat :: j in idx <==> GoesOut(s.pending.Keys, due, sent, i, j)
    ensures ResentFor(s, Work(s, due, sent, i).0, due, idx)
    decreases |due| - i
  {
    if i == |due| || Fails(s.pending.Keys, due, sent, i) {
      idx := [];
    } else {
      var u := Next(s, due, i);
      idx := WorkResends(u, due, sent, i + 1);
      forall j: nat ensures j in idx <==> j > i && GoesOut(s.pending.Keys, due, sent, i, j) {
        SameAfter(s.pending.Keys, u.pending.Keys, due, sent, i, j);
      }
      forall k | 0 <= k < |idx| ensures idx[k] > i { assert idx[k] in idx; }
      if due[i].Resend? && due[i].id in s.pending {
        assert GoesOut(s.pending.Keys, due, sent, i, i);
        idx := [i] + idx;
      }
    }
  }

  /** A retransmission pass resends, in order and once each, exactly what was kept for the items
      asking for it, up to the first whose frame does not go out. */
  lemma PassResends(s: State, due: seq<Due>, sent: nat -> bool) returns (idx: seq<nat>)
    requires DueOk(s.link, due)
    ensures Ascending(idx) && forall j: nat :: j in idx <==> GoesOut(s.pending.Keys, due, sent, 0, j)
    ensures ResentFor(s, DriveRetransmits(s, due, sent).0, due, idx)
  {
    idx := WorkResends(s.(link := s.link.GivenUp(GaveUpIds(due))), due, sent, 0);
  }

  // ---- For good ------------------------------------------------------------------------------

  /** Given up by the queue, and still kept for resending. */
  predicate Stranded(s: State, id: nat) {
    id in s.pending && id in s.link.gaveUp
  }

  lemma {:induction false} FeedPending(s: State, open: nat -> bool, sent: nat -> bool, k: nat)
    requires s.queue != [] && s.queue[0].Ok()
    ensures s.pending.Keys <= Feed(s, open, sent, k).0.pending.Keys
    decreases s.queue[0].m.Count() - s.queue[0].next
  {
    var job := s.queue[0];
    if !job.lost && job.next < job.m.Count() && open(k) && sent(k) { FeedPending(Fed(s, true), open, sent, k + 1); }
  }

  lemma DrivePending(s: State, open: nat -> bool, sent: nat -> bool)
    requires Inv(s)
    ensures s.pending.Keys <= DriveQueue(s, open, sent).0.pending.Keys
  {
    if s.queue != [] {
      var taken := TakeLost(s);
      FeedPending(taken, open, sent, 0);
      FeedShape(taken, open, sent, 0);
    }
  }

  lemma StrandedStep(s: State, e: Event, id: nat)
    requires Inv(s) && EventOk(s, e) && Stranded(s, id)
    ensures Stranded(Step(s, e), id)
  {
    assert id !in s.link.flying;
    match e
    case Drive(open, sent) =>
      DriveQueueKeeps(s, open, sent);
      DrivePending(s, open, sent);
    case Retransmit(due, sent) =>
      WorkPending(s.(link := s.link.GivenUp(GaveUpIds(due))), due, sent, 0);
    case _ =>
  }

  /** Once stranded, for good: whatever happens afterwards, the message is neither in flight nor
      let go, short of its wire identifier being used again 2^32 messages later. */
  lemma {:induction false} StrandedForGood(events: seq<Event>, more: seq<Event>, id: nat)
    requires RunOk(events + more) && RunOk(events) && Stranded(Run(events), id)
    ensures Stranded(Run(events + more), id) && id !in Run(events + more).link.flying
    decreases |more|
  {
    if more == [] {
      assert events + more == events;
    } else {
      var front := events + more[..|more| - 1];
      RunLast(events, more, front);
      StrandedForGood(events, more[..|more| - 1], id);
      StrandedStep(Run(front), more[|more| - 1], id);
    }
    assert Run(events + more).link.Ok();
  }

  /** No retransmission pass of the run meets the condition. */
  ghost predicate Clean(events: seq<Event>)
    requires RunOk(events)
    decreases |events|
  {
    events == [] ||
    var front, e := events[..|events| - 1], events[|events| - 1];
    Clean(front) && !(e.Retransmit? && Strands(Run(front), e.due, e.sent))
  }

  lemma KeptStep(s: State, e: Event)
    requires Inv(s) && EventOk(s, e) && s.pending.Keys <= s.link.flying && !e.Retransmit?
    ensures Step(s, e).pending.Keys <= Step(s, e).link.flying
  {
    StepKeeps(s, e);
    var t := Step(s, e);
    forall id <- t.pending.Keys ensures id in t.link.flying {
      assert id in t.link.flying || id in t.log.stranded;
      if id !in t.link.flying { NewlyStranded(s, e, id); }
    }
  }

  /** Only a retransmission pass strands. */
  lemma NewlyStranded(s: State, e: Event, id: nat)
    requires Inv(s) && EventOk(s, e) && !e.Retransmit? && Stranded(Step(s, e), id)
    ensures Stranded(s, id)
  {
    match e
    case Drive(open, sent) =>
      DriveQueueKeeps(s, open, sent);
      DriveNew(s, open, sent, id);
    case _ =>
  }

  lemma {:induction false} FeedNew(s: State, open: nat -> bool, sent: nat -> bool, k: nat, id: nat)
    requires s.queue != [] && s.queue[0].Ok() && id in Feed(s, open, sent, k).0.pending
    ensures id in s.pending || id >= s.link.next
    decreases s.queue[0].m.Count() - s.queue[0].next
  {
    var job := s.queue[0];
    if !job.lost && job.next < job.m.Count() && open(k) && sent(k) { FeedNew(Fed(s, true), open, sent, k + 1, id); }
  }

  lemma DriveNew(s: State, open: nat -> bool, sent: nat -> bool, id: nat)
    requires Inv(s) && id in DriveQueue(s, open, sent).0.pending
    ensures id in s.pending || id >= s.link.next
  {
    if s.queue != [] {
      var taken := TakeLost(s);
      FeedShape(taken, open, sent, 0);
      FeedNew(taken, open, sent, 0, id);
    }
  }

  predicate InFlight(s: State) {
    s.pending.Keys <= s.link.flying
  }

  lemma KeptExactly(s: State, e: Event)
    requires Inv(s) && EventOk(s, e)
    ensures InFlight(Step(s, e)) <==> InFlight(s) && !(e.Retransmit? && Strands(s, e.due, e.sent))
  {
    if InFlight(s) {
      if e.Retransmit? { PassKeepsToFlight(s, e.due, e.sent); } else { KeptStep(s, e); }
    } else {
      var id :| id in s.pending && id !in s.link.flying;
      assert Stranded(s, id);
      StrandedStep(s, e, id);
      StepKeeps(s, e);
    }
  }

  lemma {:induction false} KeptExactlyWhenClean(events: seq<Event>)
    requires RunOk(events)
    ensures InFlight(Run(events)) <==> Clean(events)
    decreases |events|
  {
    if events != [] {
      RunUnfolds(events);
      KeptExactlyWhenClean(events[..|events| - 1]);
      KeptExactly(Run(events[..|events| - 1]), events[|events| - 1]);
    }
  }

  /** Over every run, what is kept for resending is in flight exactly when no retransmission pass
      of the run had a failing resend before a message given up; and it is then all that is in
      flight, apart from messages whose first frame never went out. */
  lemma KeptIsInFlight(events: seq<Event>)
    requires RunOk(events)
    ensures var s := Run(events);
            && (s.pending.Keys <= s.link.flying <==> Clean(events))
            && (Clean(events) && s.link.flying !! s.log.failed ==> s.pending.Keys == s.link.flying)
  {
    var s := Run(events);
    KeptExactlyWhenClean(events);
    if Clean(events) && s.link.flying !! s.log.failed { assert s.pending.Keys == s.link.flying; }
  }

  // ---- What a stranded fragment holds up -----------------------------------------------------

  /** The front message waits for `id` alone, which is stranded and not about to be counted. */
  ghost predicate Blocked(s: State, id: nat) {
    && s.queue != [] && Stranded(s, id) && id !in s.abandoned
    && s.queue[0].m.Sendable() && s.queue[0].next == s.queue[0].m.Count() && id in s.queue[0].outstanding
    && (forall x <- s.queue[0].outstanding :: x == id || x in s.link.acked)
  }

  /** Nothing has left the queue or moved up in it. */
  ghost predicate Unmoved(s: State, t: State) {
    && t.log.finished == s.log.finished && |s.queue| <= |t.queue|
    && (forall i :: 0 <= i < |s.queue| ==> t.queue[i].Same(s.queue[i]))
  }

  lemma DriveBlocked(s: State, open: nat -> bool, sent: nat -> bool, id: nat)
    requires Inv(s) && Blocked(s, id)
    ensures Blocked(DriveQueue(s, open, sent).0, id) && Unmoved(s, DriveQueue(s, open, sent).0)
  {
    assert s.queue[0].outstanding * s.abandoned == {};
    var taken := TakeLost(s);
    assert taken.queue[0].outstanding == s.queue[0].outstanding - s.abandoned;
    assert Feed(taken, open, sent, 0) == (taken, true);
    assert id in taken.queue[0].outstanding * taken.pending.Keys;
  }

  lemma RetransmitBlocked(s: State, due: seq<Due>, sent: nat -> bool, id: nat)
    requires Inv(s) && Blocked(s, id) && DueOk(s.link, due)
    ensures Blocked(DriveRetransmits(s, due, sent).0, id) && Unmoved(s, DriveRetransmits(s, due, sent).0)
  {
    var polled := s.(link := s.link.GivenUp(GaveUpIds(due)));
    assert id !in s.link.flying && id !in GaveUpIds(due);
    WorkPending(polled, due, sent, 0);
    WorkElse(polled, due, sent, 0);
  }

  lemma BlockedStep(s: State, e: Event, id: nat)
    requires Inv(s) && EventOk(s, e) && Blocked(s, id)
    ensures Blocked(Step(s, e), id) && Unmoved(s, Step(s, e))
  {
    assert id !in s.link.flying;
    match e
    case Drive(open, sent) => DriveBlocked(s, open, sent, id);
    case Retransmit(due, sent) => RetransmitBlocked(s, due, sent, id);
    case _ =>
  }

  /** A message whose last unacknowledged fragment is stranded is never reported, lost or
      delivered, and nothing queued behind it ever goes out, whatever happens afterwards,
      short of that identifier being used again. */
  lemma {:induction false} BlockedForGood(events: seq<Event>, more: seq<Event>, id: nat)
    requires RunOk(events + more) && RunOk(events) && Blocked(Run(events), id)
    ensures Blocked(Run(events + more), id) && Unmoved(Run(events), Run(events + more))
    decreases |more|
  {
    if more == [] {
      assert events + more == events;
    } else {
      var front := events + more[..|more| - 1];
      RunLast(events, more, front);
      BlockedForGood(events, more[..|more| - 1], id);
      BlockedStep(Run(front), more[|more| - 1], id);
      UnmovedTwice(Run(events), Run(front), Run(events + more));
    }
  }

  lemma UnmovedTwice(s: State, t: State, u: State)
    requires Unmoved(s, t) && Unmoved(t, u)
    ensures Unmoved(s, u)
  {
    forall i | 0 <= i < |s.queue| ensures u.queue[i].Same(s.queue[i]) {
      assert u.queue[i].Same(t.queue[i]) && t.queue[i].Same(s.queue[i]);
    }
  }

  // ---- Progress --------------------------------------------------------------------------------

  /** While the window stays open and frames go out, a pass sends every fragment there is. */
  lemma {:induction false} OpenWindowSendsAll(s: State, open: nat -> bool, sent: nat -> bool, k: nat)
    requires Mid(s) && s.queue != [] && !s.queue[0].lost
    requires forall i: nat :: open(i) && sent(i)
    ensures var (t, ok) := Feed(s, open, sent, k);
            && ok && t.queue != [] && t.queue[0].m == s.queue[0].m && t.queue[0].next == t.queue[0].m.Count()
            && t.link.next == s.link.next + (s.queue[0].m.Count() - s.queue[0].next)
    decreases s.queue[0].m.Count() - s.queue[0].next
  {
    if s.queue[0].next < s.queue[0].m.Count() {
      FedKeeps(s, true);
      assert open(k) && sent(k);
      OpenWindowSendsAll(Fed(s, true), open, sent, k + 1);
    }
  }

  /** A message all of whose fragments are out and acknowledged is reported delivered by the
      next pass. */
  lemma AcknowledgedIsReported(s: State, open: nat -> bool, sent: nat -> bool)
    requires Inv(s) && s.queue != [] && s.queue[0].next == s.queue[0].m.Count()
    requires forall id <- s.log.fed :: id in s.link.acked
    ensures DriveQueue(s, open, sent).1 == Ok(Some(true))
  {
    TakeLostKeeps(s);
    var taken := TakeLost(s);
    forall id <- s.queue[0].outstanding ensures id in s.link.acked && id !in s.abandoned && id !in s.pending {
      assert id in s.log.fed && id in s.link.acked;
    }
    assert s.queue[0].outstanding * s.abandoned == {};
    assert Feed(taken, open, sent, 0) == (taken, true);
    assert taken.queue[0].outstanding * taken.pending.Keys == {};
  }

  // ---- Counting --------------------------------------------------------------------------------

  function Tally(due: seq<Due>): nat {
    if due == [] then 0 else Tally(due[1..]) + if due[0].GaveUp? then 1 else 0
  }

  /** Of those given up, the ones no queued message was waiting for. */
  function Singles(queue: seq<Job>, due: seq<Due>): nat {
    if due == [] then 0
    else Singles(queue, due[1..]) +
         if due[0].GaveUp? && (forall i :: 0 <= i < |queue| ==> due[0].id !in queue[i].outstanding) then 1 else 0
  }

  lemma NextCounts(s: State, due: seq<Due>, i: nat)
    requires i < |due|
    ensures var t, d := Next(s, due, i), due[i];
            && t.abandonedCount == Min(U32 - 1, s.abandonedCount + if d.GaveUp? then 1 else 0)
            && t.unqueued == Min(U32 - 1, s.unqueued + if d.GaveUp? && !Waiting(s.queue, d.id) then 1 else 0)
            && t.abandoned == s.abandoned + (if d.GaveUp? then {d.id} else {}) && t.queue == s.queue
  {
  }

  lemma TallyFirst(queue: seq<Job>, due: seq<Due>, i: nat)
    requires i < |due|
    ensures Tally(due[i..]) == Tally(due[i + 1..]) + if due[i].GaveUp? then 1 else 0
    ensures Singles(queue, due[i..]) ==
            Singles(queue, due[i + 1..]) + if due[i].GaveUp? && !Waiting(queue, due[i].id) then 1 else 0
  {
    assert due[i..][1..] == due[i + 1..];
  }

  /** A pass that is not cut short counts every message it gives up, once, and apart from
      those every one that no queued message was waiting for; neither count wraps. */
  lemma {:induction false} GivenUpAreCounted(s: State, due: seq<Due>, sent: nat -> bool, i: nat)
    requires i <= |due| && Work(s, due, sent, i).1.None?
    ensures var t := Work(s, due, sent, i).0;
            && t.abandonedCount == Min(U32 - 1, s.abandonedCount + Tally(due[i..]))
            && t.unqueued == Min(U32 - 1, s.unqueued + Singles(s.queue, due[i..]))
            && t.abandoned == s.abandoned + GaveUpIds(due[i..]) && t.queue == s.queue
    decreases |due| - i
  {
    if i < |due| {
      WorkStep(s, due, sent, i);
      NextCounts(s, due, i);
      TallyFirst(s.queue, due, i);
      GaveUpFirst(due, i);
      GivenUpAreCounted(Next(s, due, i), due, sent, i + 1);
    }
  }

  // ---- Message numbers ------------------------------------------------------------------------------

  /** The queued messages carry the last numbers given out, in order. */
  ghost predicate Numbered(s: State) {
    |s.queue| <= MAX_QUEUED && forall i :: 0 <= i < |s.queue| ==> NumberAt(s, i)
  }

  predicate NumberAt(s: State, i: nat)
    requires i < |s.queue|
  {
    s.queue[i].message == (s.nextMessage - (|s.queue| - i)) % U32
  }

  lemma NextNumber(n: nat, d: nat)
    requires n < U32
    ensures ((n + 1) % U32 - (d + 1)) % U32 == (n - d) % U32
  {
  }

  lemma QueueNumbered(s: State, reliable: bool, peerMax: nat, data: seq<Wire.byte>, shape: Compress.Shape, limit: nat)
    requires Numbered(s) && QueueMessage(s, reliable, peerMax, data, shape, limit).Ok?
    ensures Numbered(QueueMessage(s, reliable, peerMax, data, shape, limit).value)
  {
    var t := QueueMessage(s, reliable, peerMax, data, shape, limit).value;
    forall i | 0 <= i < |t.queue| ensures NumberAt(t, i) {
      if i < |s.queue| {
        assert NumberAt(s, i);
        NextNumber(s.nextMessage, |s.queue| - i);
      } else {
        NextNumber(s.nextMessage, 0);
      }
    }
  }

  /** Same messages, or those after the front one. */
  lemma TailNumbered(s: State, t: State, k: nat)
    requires Numbered(s) && k <= |s.queue| && |t.queue| == |s.queue| - k && t.nextMessage == s.nextMessage
    requires forall i :: 0 <= i < |t.queue| ==> t.queue[i].message == s.queue[k + i].message
    ensures Numbered(t)
  {
    forall i | 0 <= i < |t.queue| ensures NumberAt(t, i) { assert NumberAt(s, k + i); }
  }

  lemma {:induction false} FeedNumber(s: State, open: nat -> bool, sent: nat -> bool, k: nat)
    requires s.queue != [] && s.queue[0].Ok()
    ensures Feed(s, open, sent, k).0.nextMessage == s.nextMessage
    decreases s.queue[0].m.Count() - s.queue[0].next
  {
    var job := s.queue[0];
    if !job.lost && job.next < job.m.Count() && open(k) && sent(k) { FeedNumber(Fed(s, true), open, sent, k + 1); }
  }

  lemma TakeNumbered(s: State)
    requires Numbered(s)
    ensures Numbered(TakeLost(s))
  {
    TailNumbered(s, TakeLost(s), 0);
  }

  lemma FeedNumbered(s: State, open: nat -> bool, sent: nat -> bool)
    requires Numbered(s) && s.queue != [] && s.queue[0].Ok()
    ensures Numbered(Feed(s, open, sent, 0).0)
  {
    FeedShape(s, open, sent, 0);
    FeedNumber(s, open, sent, 0);
    var fed := Feed(s, open, sent, 0).0;
    forall i | 0 <= i < |fed.queue| ensures fed.queue[i].message == s.queue[0 + i].message {
      if i > 0 { assert fed.queue[1..][i - 1] == s.queue[1..][i - 1]; }
    }
    TailNumbered(s, fed, 0);
  }

  lemma SettleNumbered(s: State)
    requires Numbered(s) && s.queue != [] && s.queue[0].m.Sendable()
    ensures Numbered(Settle(s).0)
  {
    TailNumbered(s, Settle(s).0, |s.queue| - |Settle(s).0.queue|);
  }

  lemma DriveNumbered(s: State, open: nat -> bool, sent: nat -> bool)
    requires Numbered(s) && (s.queue != [] ==> s.queue[0].Ok())
    ensures Numbered(DriveQueue(s, open, sent).0)
  {
    TakeNumbered(s);
    if s.queue != [] {
      var taken := TakeLost(s);
      FeedNumbered(taken, open, sent);
      FeedShape(taken, open, sent, 0);
      SettleNumbered(Feed(taken, open, sent, 0).0);
    }
  }

  /** What sending one frame comes to: refused, with nothing changed, without a peer that
      acknowledges or with the window full; otherwise a message in flight, kept for resending and
      reported by its identifier exactly when it went out. */
  lemma SendAnswer(s: State, reliable: bool, frame: Frame, open: bool, sent: bool)
    ensures var (t, r) := SendOne(s, reliable, frame, open, sent);
            var id := s.link.next;
            if !reliable then r == Err(ReliabilityUnsupported) && t == s
            else if !open then r == Err(WindowFull) && t == s
            else
              && t.link.next == id + 1 && t.link.flying == s.link.flying + {id}
              && t.pending == (if sent then s.pending[id := frame] else s.pending)
              && r == (if sent then Ok(id) else Err(SendFailed))
              && t.queue == s.queue && t.abandoned == s.abandoned && t.nextMessage == s.nextMessage
  {
  }

  /** What queueing a message comes to: refused without a peer that acknowledges, with four
      waiting already, or when it cannot be cut; otherwise put last, cut into the largest
      fragments the two limits allow, nothing of it sent. */
  lemma QueueAnswer(s: State, reliable: bool, peerMax: nat, data: seq<Wire.byte>, shape: Compress.Shape, limit: nat)
    ensures var r := QueueMessage(s, reliable, peerMax, data, shape, limit);
            var least := if peerMax < limit then peerMax else limit;
            var m := Message(data, if least < 42 then 0 else least - 42);
            if !reliable then r == Err(ReliabilityUnsupported)
            else if |s.queue| >= 4 then r == Err(WindowFull)
            else if !m.Sendable() then r == Err(PayloadTooLarge)
            else
              && r.Ok? && r.value.queue == s.queue + [Job(s.nextMessage, shape, m, limit, 0, {}, false)]
              && r.value.nextMessage == (if s.nextMessage == U32 - 1 then 0 else s.nextMessage + 1)
              && r.value == s.(queue := r.value.queue, nextMessage := r.value.nextMessage)
  {
  }

  /** In every run at most four messages are queued, numbered consecutively, so no two share
      the number their fragments are reassembled under. */
  lemma {:induction false} QueuedMessagesAreNumbered(events: seq<Event>)
    requires RunOk(events)
    ensures Numbered(Run(events))
  {
    if events != [] {
      var front, e := events[..|events| - 1], events[|events| - 1];
      QueuedMessagesAreNumbered(front);
      var s := Run(front);
      match e
      case Queue(reliable, peerMax, data, shape, limit) =>
        if QueueMessage(s, reliable, peerMax, data, shape, limit).Ok? {
          QueueNumbered(s, reliable, peerMax, data, shape, limit);
        }
      case Drive(open, sent) => DriveNumbered(s, open, sent);
      case Retransmit(due, sent) =>
        WorkElse(s.(link := s.link.GivenUp(GaveUpIds(due))), due, sent, 0);
        TailNumbered(s, Step(s, e), 0);
      case _ => TailNumbered(s, Step(s, e), 0);
    }
  }
}
