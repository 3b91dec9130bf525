/** The sending side as its owner holds it: fields updated in place, each method proved to
    take the state where `Pipeline` says, and the whole history of calls a run of it. */
module Peers {
  import opened Bits
  import opened Outcomes
  import opened Wire
  import opened Frames
  import opened Compress
  import opened ReassemblyRuns
  import opened Pipeline
  import Runs = PipelineRuns
  import Sealing

  class Peer {
    const reliable: bool   // whether the far side acknowledges
    const peerMax: nat     // the largest frame it takes
    var link: Link
    var pending: map<nat, Frame>
    var queue: seq<Job>
    var abandoned: set<nat>
    var abandonedCount: u32
    var unqueued: u32
    var nextMessage: u32
    ghost var log: Log
    ghost var history: seq<Runs.Event>

    ghost function View(): State
      reads this
    {
      State(link, pending, queue, abandoned, abandonedCount, unqueued, nextMessage, log)
    }

    ghost predicate FrontOk()
      reads this
    {
      queue != [] ==> queue[0].Ok()
    }

    /** The state is that of the run so far, whose invariant it therefore has. */
    ghost predicate Valid()
      reads this
      ensures Valid() ==> FrontOk()
    {
      Runs.RunOk(history) && View() == Runs.Run(history)
    }

    constructor (reliable: bool, peerMax: nat)
      ensures Valid() && history == [] && this.reliable == reliable && this.peerMax == peerMax
    {
      this.reliable := reliable;
      this.peerMax := peerMax;
      link := Link(0, {}, {}, {});
      pending := map[];
      queue := [];
      abandoned := {};
      abandonedCount := 0;
      unqueued := 0;
      nextMessage := 0;
      log := START.log;
      history := [];
    }

    /** Adds an event to the history; the state it leads to is for the caller to reach. */
    ghost method Record(e: Runs.Event)
      requires Valid()
      modifies this`history
      ensures history == old(history) + [e]
      ensures Runs.EventOk(View(), e) ==> Runs.RunOk(history) && Runs.Run(history) == Runs.Step(View(), e)
    {
      if Runs.EventOk(View(), e) { Runs.RunExtended(history, e); }
      history := history + [e];
    }

    method Enqueue(data: seq<byte>, shape: Shape, limit: nat) returns (r: Result<()>)
      modifies this`queue, this`nextMessage
      ensures match Pipeline.QueueMessage(old(View()), reliable, peerMax, data, shape, limit)
              case Ok(s) => r == Ok(()) && View() == s
              case Err(e) => r == Err(e) && View() == old(View())
    {
      if !reliable { return Err(ReliabilityUnsupported); }
      if |queue| >= MAX_QUEUED { return Err(WindowFull); }
      var per := Sealing.PayloadRoom(peerMax, limit, true, true);
      var count := FragmentsNeeded(|data|, per);
      if count.None? { return Err(PayloadTooLarge); }
      var message := nextMessage;
      nextMessage := (nextMessage + 1) % U32;
      queue := queue + [Job(message, shape, Message(data, per), limit, 0, {}, false)];
      return Ok(());
    }

    method QueueMessage(data: seq<byte>, shape: Shape, limit: nat) returns (r: Result<()>)
      requires Valid()
      modifies this
      ensures Valid() && history == old(history) + [Runs.Queue(reliable, peerMax, data, shape, limit)]
      ensures match Pipeline.QueueMessage(old(View()), reliable, peerMax, data, shape, limit)
              case Ok(s) => r == Ok(()) && View() == s
              case Err(e) => r == Err(e) && View() == old(View())
    {
      Record(Runs.Queue(reliable, peerMax, data, shape, limit));
      r := Enqueue(data, shape, limit);
    }

    /** Registers the next identifier and sends `frame` under it. */
    method Launch(frame: Frame, sent: bool) returns (id: nat)
      modifies this`link, this`pending, this`log
      ensures View() == Launched(old(View()), frame, sent) && id == old(link.next)
    {
      id := link.next;
      link := link.Registered();
      if sent {
        pending := pending[id := frame];
        log := log.(sent := log.sent[id := frame]);
      } else {
        log := log.(failed := log.failed + {id});
      }
    }

    method SendOne(frame: Frame, room: bool, sent: bool) returns (r: Result<nat>)
      requires Valid()
      modifies this
      ensures Valid() && history == old(history) + [Runs.Send(reliable, frame, room, sent)]
      ensures (View(), r) == Pipeline.SendOne(old(View()), reliable, frame, room, sent)
    {
      Record(Runs.Send(reliable, frame, room, sent));
      if !reliable { return Err(ReliabilityUnsupported); }
      if !room { return Err(WindowFull); }
      var id := Launch(frame, sent);
      if !sent { return Err(SendFailed); }
      return Ok(id);
    }

    /** Takes the abandoned identifiers, marking the front job lost if one was its own. */
    method TakeAbandoned()
      modifies this`abandoned, this`queue
      ensures View() == TakeLost(old(View()))
    {
      var lost := abandoned;
      abandoned := {};
      if queue == [] { return; }
      var job := queue[0];
      if lost != {} {
        if job.outstanding * lost != {} { job := job.(lost := true); }
        job := job.(outstanding := job.outstanding - lost);
      } else {
        assert job.outstanding - lost == job.outstanding && job.outstanding * lost == {};
      }
      queue := [job] + queue[1..];
    }

    /** The front job's next fragment, under the next identifier. */
    method FeedOne(sent: bool)
      requires queue != [] && FrontOk() && queue[0].next < queue[0].m.Count()
      modifies this`link, this`pending, this`queue, this`log
      ensures View() == Fed(old(View()), sent)
    {
      var job := queue[0];
      var id := Launch(job.FrameAt(job.next), sent);
      if sent {
        queue := [job.(next := job.next + 1, outstanding := job.outstanding + {id})] + queue[1..];
        log := log.(fed := log.fed + [id]);
      }
    }

    /** Feeds the front job's fragments into the open part of the window. */
    method FeedFront(open: nat -> bool, sent: nat -> bool) returns (ok: bool)
      requires queue != [] && FrontOk()
      modifies this`link, this`pending, this`queue, this`log
      ensures (View(), ok) == Feed(old(View()), open, sent, 0)
    {
      ghost var result := Feed(View(), open, sent, 0);
      var k: nat := 0;
      while !queue[0].lost && queue[0].next < queue[0].m.Count() && open(k)
        invariant queue != [] && FrontOk()
        invariant Feed(View(), open, sent, k) == result
        decreases queue[0].m.Count() - queue[0].next
      {
        FeedOne(sent(k));
        if !sent(k) { return false; }
        k := k + 1;
      }
      return true;
    }

    method DriveQueue(open: nat -> bool, sent: nat -> bool) returns (r: Result<Option<bool>>)
      requires Valid()
      modifies this
      ensures Valid() && history == old(history) + [Runs.Drive(open, sent)]
      ensures (View(), r) == Pipeline.DriveQueue(old(View()), open, sent)
    {
      Record(Runs.Drive(open, sent));
      TakeAbandoned();
      if queue == [] { return Ok(None); }
      FeedShape(View(), open, sent, 0);
      var ok := FeedFront(open, sent);
      if !ok { return Err(SendFailed); }
      var job := queue[0].(outstanding := queue[0].outstanding * pending.Keys);
      if !(job.lost || (job.next == job.m.Count() && job.outstanding == {})) {
        queue := [job] + queue[1..];
        return Ok(None);
      }
      queue := queue[1..];
      log := log.(finished := log.finished + [Done(job, log.fed, !job.lost)], fed := []);
      return Ok(Some(!job.lost));
    }

    // Entries the acknowledgement reports, one identifier at a time.
    method DropAcked(ids: seq<nat>)
      modifies this`pending
      ensures pending == old(pending) - set id | id in ids
    {
      for i := 0 to |ids|
        invariant pending == old(pending) - set id | id in ids[..i]
      {
        pending := pending - {ids[i]};
        assert ids[..i + 1] == ids[..i] + [ids[i]];
      }
      assert ids[..|ids|] == ids;
    }

    method ApplyAck(ids: seq<nat>)
      requires Valid() && forall id <- ids :: id in link.flying
      modifies this
      ensures Valid() && history == old(history) + [Runs.Ack(set id | id in ids)]
      ensures View() == Pipeline.ApplyAck(old(View()), set id | id in ids)
    {
      var all := set id | id in ids;
      assert all * link.flying == all;
      Record(Runs.Ack(all));
      DropAcked(ids);
      link := link.Acked(all);
    }

    /** Resends what is due and gives up what has run out of tries. */
    method WorkThrough(due: seq<Due>, sent: nat -> bool) returns (stop: Option<nat>)
      modifies this`pending, this`unqueued, this`abandoned, this`abandonedCount, this`log
      ensures (View(), stop) == Work(old(View()), due, sent, 0)
    {
      for i := 0 to |due|
        invariant Work(View(), due, sent, i) == Work(old(View()), due, sent, 0)
      {
        match due[i]
        case Resend(id) =>
          if id in pending {
            if !sent(i) { return Some(i); }
            log := log.(resent := log.resent + [(id, pending[id])]);
          }
        case GaveUp(id) =>
          pending := pending - {id};
          if !Waiting(queue, id) { unqueued := Saturating(unqueued); }
          abandoned := abandoned + {id};
          abandonedCount := Saturating(abandonedCount);
      }
      return None;
    }

    method DriveRetransmits(due: seq<Due>, sent: nat -> bool) returns (stop: Option<nat>)
      requires Valid()
      modifies this
      ensures history == old(history) + [Runs.Retransmit(due, sent)]
      ensures Runs.DueOk(old(link), due) ==> Valid()
      ensures (View(), stop) == Pipeline.DriveRetransmits(old(View()), due, sent)
    {
      Record(Runs.Retransmit(due, sent));
      link := link.GivenUp(GaveUpIds(due));
      stop := WorkThrough(due, sent);
      ghost var missed := if stop.None? then {} else GaveUpIds(due[Stop(stop, due)..]);
      log := log.(stranded := log.stranded + missed);
    }
  }
}
