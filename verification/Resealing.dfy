/** Why a retransmission always fits: every frame ever kept for resending is within the room
    its own limit leaves, and is sealed against that limit again however the session's limit
    has moved. */
module Resealing {
  import opened Bits
  import opened Outcomes
  import opened Wire
  import opened Frames
  import opened Pipeline
  import opened PipelineRuns
  import Compress
  import Sealing
  import Session

  /** Within the room of the limit it was cut or sent for. */
  predicate WithinRoom(peerMax: nat, f: Frame) {
    && |f.data| <= Sealing.PayloadRoom(peerMax, f.limit, true, f.fragment.Some?)
    && (f.fragment.Some? ==> f.fragment.value.Coherent())
  }

  predicate Cut(peerMax: nat, job: Job) {
    job.m.per == Sealing.PayloadRoom(peerMax, job.limit, true, true)
  }

  ghost predicate Sized(peerMax: nat, s: State) {
    && (forall i :: 0 <= i < |s.queue| ==> Cut(peerMax, s.queue[i]))
    && (forall id <- s.log.sent :: WithinRoom(peerMax, s.log.sent[id]))
  }

  /** What the callers see to: one peer limit, and single frames only for payloads that fit. */
  predicate Fits(peerMax: nat, e: Event) {
    && (e.Queue? ==> e.peerMax == peerMax)
    && (e.Send? ==> WithinRoom(peerMax, e.frame))
  }

  lemma LaunchSized(peerMax: nat, s: State, f: Frame, sent: bool)
    requires Sized(peerMax, s) && WithinRoom(peerMax, f)
    ensures Sized(peerMax, Launched(s, f, sent))
  {
  }

  lemma FedSized(peerMax: nat, s: State, sent: bool)
    requires Sized(peerMax, s) && s.queue != [] && s.queue[0].Ok() && s.queue[0].next < s.queue[0].m.Count()
    ensures Sized(peerMax, Fed(s, sent))
  {
    var job := s.queue[0];
    assert Cut(peerMax, job);
    assert |job.m.Chunk(job.next)| <= job.m.per;
    LaunchSized(peerMax, s, job.FrameAt(job.next), sent);
  }

  lemma {:induction false} FeedSized(peerMax: nat, s: State, open: nat -> bool, sent: nat -> bool, k: nat)
    requires Sized(peerMax, s) && s.queue != [] && s.queue[0].Ok()
    ensures Sized(peerMax, Feed(s, open, sent, k).0)
    decreases s.queue[0].m.Count() - s.queue[0].next
  {
    var job := s.queue[0];
    if !job.lost && job.next < job.m.Count() && open(k) {
      FedSized(peerMax, s, sent(k));
      if sent(k) { FeedSized(peerMax, Fed(s, true), open, sent, k + 1); }
    }
  }

  lemma DriveSized(peerMax: nat, s: State, open: nat -> bool, sent: nat -> bool)
    requires Sized(peerMax, s) && (s.queue != [] ==> s.queue[0].Ok())
    ensures Sized(peerMax, DriveQueue(s, open, sent).0)
  {
    if s.queue != [] {
      var taken := TakeLost(s);
      assert Sized(peerMax, taken);
      FeedSized(peerMax, taken, open, sent, 0);
      FeedShape(taken, open, sent, 0);
      var fed := Feed(taken, open, sent, 0).0;
      assert Sized(peerMax, Settle(fed).0);
    }
  }

  lemma {:induction false} WorkSized(peerMax: nat, s: State, due: seq<Due>, sent: nat -> bool, i: nat)
    requires i <= |due| && Sized(peerMax, s)
    ensures Sized(peerMax, Work(s, due, sent, i).0)
    decreases |due| - i
  {
    if i < |due| {
      match due[i]
      case GaveUp(id) => WorkSized(peerMax, GiveUp(s, id), due, sent, i + 1);
      case Resend(id) =>
        if id !in s.pending { WorkSized(peerMax, s, due, sent, i + 1); }
        else if sent(i) { WorkSized(peerMax, Resent(s, id), due, sent, i + 1); }
    }
  }

  lemma StepSized(peerMax: nat, s: State, e: Event)
    requires Sized(peerMax, s) && Fits(peerMax, e) && (s.queue != [] ==> s.queue[0].Ok())
    ensures Sized(peerMax, Step(s, e))
  {
    match e
    case Queue(_, _, _, _, _) =>
    case Send(_, f, _, went) => LaunchSized(peerMax, s, f, went);
    case Drive(open, sent) => DriveSized(peerMax, s, open, sent);
    case Ack(_) =>
    case Retransmit(due, sent) =>
      WorkSized(peerMax, s.(link := s.link.GivenUp(GaveUpIds(due))), due, sent, 0);
    case ClearCount =>
  }

  lemma {:induction false} RunSized(peerMax: nat, events: seq<Event>)
    requires RunOk(events) && forall e <- events :: Fits(peerMax, e)
    ensures Sized(peerMax, Run(events))
  {
    if events != [] {
      var front := events[..|events| - 1];
      RunSized(peerMax, front);
      StepSized(peerMax, Run(front), events[|events| - 1]);
    }
  }

  /** A frame as it is handed to `seal`, at its own limit. */
  function Request(f: Frame, id: u32, attempt: bool, scratch: nat): Sealing.Sending
    requires f.fragment.Some? ==> f.fragment.value.Coherent()
  {
    var fragment: Option<Sealing.Descriptor> := if f.fragment.Some? then Some(f.fragment.value) else None;
    Sealing.Sending(f.data, f.shape, Some(id), fragment, f.limit, attempt, scratch, Session.NoPadding)
  }

  /** In every run, with padding off, each frame kept for resending seals again into any
      buffer of its own limit, whatever the coder and the session's limit do by then, and
      the frame is within that limit; 42 bytes is all the limit needs. */
  lemma EveryResendFits(peerMax: nat, events: seq<Event>, id: nat, a: Session.Aead, st: Session.State,
                        p: Compress.Policy, attempt: bool, scratch: nat, tx: nat)
    requires RunOk(events) && forall e <- events :: Fits(peerMax, e)
    requires id in Run(events).pending
    requires Session.DATA_OVERHEAD + 12 <= Run(events).pending[id].limit <= tx
    requires Session.Ideal(a) && st.sendSeq < U64 - 1
    ensures var f := Run(events).pending[id];
            && WithinRoom(peerMax, f)
            && var r := Sealing.Seal(a, st, p, peerMax, Request(f, id % U32, attempt, scratch), tx).1;
               r.Ok? && |r.value| <= f.limit
  {
    RunSized(peerMax, events);
    var s := Run(events);
    assert Kept(s) && id in s.log.sent && s.log.sent[id] == s.pending[id];
    var f := s.pending[id];
    var m := Request(f, id % U32, attempt, scratch);
    assert WithinRoom(peerMax, f);
    Sealing.WithinRoomAlwaysSeals(a, st, p, peerMax, m, tx);
    Sealing.FrameFitsTheLimit(a, st, p, peerMax, m, tx);
  }
}
