/** One peer's sending side: the queue of messages being cut into fragments, the frames kept
    for resending, and what becomes of them.

    The reliability queue is seen through `Link`: which messages are in flight, acknowledged
    or given up. `LinkRuns` proves that view of the queue itself. Identifiers are counted
    without wrapping. What the window, the sealing and the socket do is up to the caller:
    `open(k)` says whether the k-th registration of a pass finds the window open, `sent(k)`
    whether its k-th frame was sealed and sent. */
module Pipeline {
  import opened Bits
  import opened Outcomes
  import opened Wire
  import opened Frames
  import opened Compress
  import opened ReassemblyRuns
  import Sealing

  const MAX_QUEUED: nat := 4

  datatype Link = Link(next: nat, flying: set<nat>, acked: set<nat>, gaveUp: set<nat>) {
    function Registered(): Link {
      this.(next := next + 1, flying := flying + {next})
    }

    function Acked(ids: set<nat>): Link {
      this.(flying := flying - ids, acked := acked + ids)
    }

    function GivenUp(ids: set<nat>): Link {
      this.(flying := flying - ids, gaveUp := gaveUp + ids)
    }

    ghost predicate Ok() {
      && (forall g: nat :: g < next <==> g in flying || g in acked || g in gaveUp)
      && flying !! acked && flying !! gaveUp && acked !! gaveUp
    }
  }

  /** Everything `seal` is given for one message, and so everything a resend needs. */
  datatype Frame = Frame(data: seq<byte>, shape: Shape, fragment: Option<Fragment>, limit: nat)

  /** A queued message: fragments before `next` have gone out, `outstanding` of them unanswered. */
  datatype Job = Job(message: u32, shape: Shape, m: Message, limit: nat,
                     next: nat, outstanding: set<nat>, lost: bool)
  {
    predicate Ok() { m.Sendable() && next <= m.Count() }

    predicate Untouched() { next == 0 && outstanding == {} && !lost }

    /** The same message, however far along. */
    predicate Same(other: Job) {
      message == other.message && shape == other.shape && m == other.m && limit == other.limit
    }

    function FrameAt(i: nat): Frame
      requires m.Sendable() && i < m.Count()
    {
      Frame(m.Chunk(i), shape, Some(Fragment(message, i, m.Count())), limit)
    }
  }

  datatype Due = Resend(id: nat) | GaveUp(id: nat)

  /** A message that left the queue, and the identifiers its fragments went out under. */
  datatype Done = Done(job: Job, ids: seq<nat>, delivered: bool)

  /** What happened so far, for the properties to speak of. */
  datatype Log = Log(
    sent: map<nat, Frame>,        // what each message was first sealed and sent as
    failed: set<nat>,             // registered, but not sealed or not sent
    resent: seq<(nat, Frame)>,    // every retransmission
    fed: seq<nat>,                // identifiers of the front job's fragments, in order
    finished: seq<Done>,
    stranded: set<nat>)           // given up in a pass that stopped before reaching them

  datatype State = State(
    link: Link,
    pending: map<nat, Frame>,
    queue: seq<Job>,
    abandoned: set<nat>,
    abandonedCount: u32,
    unqueued: u32,
    nextMessage: u32,
    log: Log)

  const START: State := State(Link(0, {}, {}, {}), map[], [], {}, 0, 0, 0, Log(map[], {}, [], [], [], {}))

  function Saturating(n: u32): u32 {
    if n == U32 - 1 then n else n + 1
  }

  // ---- Operations -----------------------------------------------------------------

  /** Cuts a message for the present limit and queues it; nothing is sent. */
  function QueueMessage(s: State, reliable: bool, peerMax: nat, data: seq<byte>, shape: Shape, limit: nat): Result<State> {
    if !reliable then Err(ReliabilityUnsupported)
    else if |s.queue| >= MAX_QUEUED then Err(WindowFull)
    else
      var m := Message(data, Sealing.PayloadRoom(peerMax, limit, true, true));
      if !m.Sendable() then Err(PayloadTooLarge)
      else
        var job := Job(s.nextMessage, shape, m, limit, 0, {}, false);
        Ok(s.(queue := s.queue + [job], nextMessage := (s.nextMessage + 1) % U32))
  }

  /** Registers and sends one frame, and keeps it for resending once it is out. */
  function Launched(s: State, frame: Frame, sent: bool): State {
    var id := s.link.next;
    if sent then
      s.(link := s.link.Registered(), pending := s.pending[id := frame],
         log := s.log.(sent := s.log.sent[id := frame]))
    else s.(link := s.link.Registered(), log := s.log.(failed := s.log.failed + {id}))
  }

  /** A message that fits one frame. */
  function SendOne(s: State, reliable: bool, frame: Frame, open: bool, sent: bool): (State, Result<nat>) {
    if !reliable then (s, Err(ReliabilityUnsupported))
    else if !open then (s, Err(WindowFull))
    else (Launched(s, frame, sent), if sent then Ok(s.link.next) else Err(SendFailed))
  }

  /** The front job forgets what was abandoned, and is lost if any of that was its own. */
  function TakeLost(s: State): State {
    if s.queue == [] then s.(abandoned := {})
    else
      var job := s.queue[0];
      var job := job.(lost := job.lost || job.outstanding * s.abandoned != {},
                      outstanding := job.outstanding - s.abandoned);
      s.(abandoned := {}, queue := [job] + s.queue[1..])
  }

  function Advanced(job: Job, id: nat): Job {
    job.(next := job.next + 1, outstanding := job.outstanding + {id})
  }

  /** The front job's next fragment goes out. */
  function Fed(s: State, sent: bool): State
    requires s.queue != [] && s.queue[0].Ok() && s.queue[0].next < s.queue[0].m.Count()
  {
    var job := s.queue[0];
    var after := Launched(s, job.FrameAt(job.next), sent);
    if !sent then after
    else after.(queue := [Advanced(job, s.link.next)] + s.queue[1..],
                log := after.log.(fed := s.log.fed + [s.link.next]))
  }

  /** Feeds fragments while the window is open, from the `k`-th of this pass. */
  function Feed(s: State, open: nat -> bool, sent: nat -> bool, k: nat): (State, bool)
    requires s.queue != [] && s.queue[0].Ok()
    decreases s.queue[0].m.Count() - s.queue[0].next
  {
    var job := s.queue[0];
    if job.lost || job.next >= job.m.Count() || !open(k) then (s, true)
    else if !sent(k) then (Fed(s, false), false)
    else Feed(Fed(s, true), open, sent, k + 1)
  }

  /** Drops acknowledged fragments from the front job, which leaves the queue once it is
      lost or wholly acknowledged. */
  function Settle(s: State): (State, Option<bool>)
    requires s.queue != [] && s.queue[0].m.Sendable()
  {
    var job := s.queue[0].(outstanding := s.queue[0].outstanding * s.pending.Keys);
    if job.lost || (job.next == job.m.Count() && job.outstanding == {}) then
      (s.(queue := s.queue[1..],
          log := s.log.(fed := [], finished := s.log.finished + [Done(job, s.log.fed, !job.lost)])),
       Some(!job.lost))
    else (s.(queue := [job] + s.queue[1..]), None)
  }

  function DriveQueue(s: State, open: nat -> bool, sent: nat -> bool): (State, Result<Option<bool>>)
    requires s.queue != [] ==> s.queue[0].Ok()
  {
    var taken := TakeLost(s);
    if s.queue == [] then (taken, Ok(None))
    else
      var (fed, ok) := Feed(taken, open, sent, 0);
      FeedShape(taken, open, sent, 0);
      if !ok then (fed, Err(SendFailed))
      else
        var (after, finished) := Settle(fed);
        (after, Ok(finished))
  }

  lemma {:induction false} FeedShape(s: State, open: nat -> bool, sent: nat -> bool, k: nat)
    requires s.queue != [] && s.queue[0].Ok()
    ensures var t := Feed(s, open, sent, k).0;
            && |t.queue| == |s.queue| && t.queue[1..] == s.queue[1..]
            && t.queue[0].Ok() && t.queue[0].Same(s.queue[0])
    decreases s.queue[0].m.Count() - s.queue[0].next
  {
    var job := s.queue[0];
    if !job.lost && job.next < job.m.Count() && open(k) && sent(k) {
      FeedShape(Fed(s, true), open, sent, k + 1);
    }
  }

  /** An acknowledgement of `ids`: those in flight are delivered and no longer kept. */
  function ApplyAck(s: State, ids: set<nat>): State {
    var hit := ids * s.link.flying;
    s.(link := s.link.Acked(hit), pending := s.pending - hit)
  }

  function GaveUpIds(due: seq<Due>): set<nat> {
    set d | d in due && d.GaveUp? :: d.id
  }

  predicate Waiting(queue: seq<Job>, id: nat) {
    exists i :: 0 <= i < |queue| && id in queue[i].outstanding
  }

  function GiveUp(s: State, id: nat): State {
    s.(pending := s.pending - {id},
       unqueued := if Waiting(s.queue, id) then s.unqueued else Saturating(s.unqueued),
       abandoned := s.abandoned + {id},
       abandonedCount := Saturating(s.abandonedCount))
  }

  function Resent(s: State, id: nat): State
    requires id in s.pending
  {
    s.(log := s.log.(resent := s.log.resent + [(id, s.pending[id])]))
  }

  /** Works through what came due, from item `i`; a frame that cannot be sealed or sent
      ends the pass where it stands. */
  function Work(s: State, due: seq<Due>, sent: nat -> bool, i: nat): (State, Option<nat>)
    requires i <= |due|
    decreases |due| - i
  {
    if i == |due| then (s, None)
    else
      match due[i]
      case GaveUp(id) => Work(GiveUp(s, id), due, sent, i + 1)
      case Resend(id) =>
        if id !in s.pending then Work(s, due, sent, i + 1)
        else if sent(i) then Work(Resent(s, id), due, sent, i + 1)
        else (s, Some(i))
  }

  function DriveRetransmits(s: State, due: seq<Due>, sent: nat -> bool): (State, Option<nat>) {
    var (after, stop) := Work(s.(link := s.link.GivenUp(GaveUpIds(due))), due, sent, 0);
    var missed := if stop.None? then {} else GaveUpIds(due[Stop(stop, due)..]);
    (after.(log := after.log.(stranded := after.log.stranded + missed)), stop)
  }

  function Stop(stop: Option<nat>, due: seq<Due>): (i: nat)
    ensures i <= |due|
  {
    if stop.Some? && stop.value <= |due| then stop.value else |due|
  }
}
