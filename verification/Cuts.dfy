/** Which message each fragment on the wire is of: the messages ever queued, counted from the
    first, and the identifiers each one's fragments went out under. */
module Cuts {
  import opened Bits
  import opened Outcomes
  import Wire
  import Compress
  import opened Frames
  import opened ReassemblyRuns
  import opened Pipeline
  import opened PipelineRuns

  /** Messages ever queued: those that have left the queue, then those in it. */
  function Total(s: State): nat {
    |s.log.finished| + |s.queue|
  }

  function JobAt(s: State, i: nat): Job
    requires i < Total(s)
  {
    if i < |s.log.finished| then s.log.finished[i].job else s.queue[i - |s.log.finished|]
  }

  /** What the fragments of message `i` have gone out as, in order. */
  function IdsAt(s: State, i: nat): seq<nat> {
    if i < |s.log.finished| then s.log.finished[i].ids
    else if i == |s.log.finished| && s.queue != [] then s.log.fed
    else []
  }

  predicate InMessage(s: State, id: nat, i: nat, k: nat) {
    i < Total(s) && k < |IdsAt(s, i)| && IdsAt(s, i)[k] == id
  }

  ghost predicate Traced(s: State, id: nat) {
    exists i, k :: InMessage(s, id, i, k)
  }

  /** Messages are numbered in the order they were queued. */
  ghost predicate Counted(s: State) {
    && s.nextMessage == Total(s) % U32
    && forall i: nat :: i < Total(s) ==> JobAt(s, i).message == i % U32
  }

  predicate IsPiece(s: State, id: nat) {
    id in s.log.sent && s.log.sent[id].fragment.Some?
  }

  ghost predicate AllTraced(s: State) {
    forall id: nat :: IsPiece(s, id) ==> Traced(s, id)
  }

  ghost predicate Cut(s: State) {
    Counted(s) && AllTraced(s)
  }

  // ---- Moving on ----------------------------------------------------------------------------

  /** The messages of `s` are those of `t`, no fragment of which went out between them. */
  ghost predicate SamePieces(s: State, t: State) {
    && t.nextMessage == s.nextMessage && t.log.fed == s.log.fed && t.log.finished == s.log.finished
    && |t.queue| == |s.queue| && (forall i :: 0 <= i < |s.queue| ==> t.queue[i].message == s.queue[i].message)
    && (forall id: nat :: IsPiece(t, id) ==> IsPiece(s, id))
  }

  lemma SamePiecesCut(s: State, t: State)
    requires Cut(s) && SamePieces(s, t)
    ensures Cut(t)
  {
    forall i: nat | i < Total(t) ensures JobAt(t, i).message == i % U32 {
      assert JobAt(s, i).message == i % U32;
    }
    forall id: nat | IsPiece(t, id) ensures Traced(t, id) {
      assert Traced(s, id);
      var i, k :| InMessage(s, id, i, k);
      assert InMessage(t, id, i, k);
    }
  }

  lemma NextNumber(n: nat)
    ensures (n % U32 + 1) % U32 == (n + 1) % U32
  {
  }

  lemma QueueCut(s: State, reliable: bool, peerMax: nat, data: seq<Wire.byte>, shape: Compress.Shape, limit: nat)
    requires Inv(s) && Cut(s) && QueueMessage(s, reliable, peerMax, data, shape, limit).Ok?
    ensures Cut(QueueMessage(s, reliable, peerMax, data, shape, limit).value)
  {
    var t := QueueMessage(s, reliable, peerMax, data, shape, limit).value;
    NextNumber(Total(s));
    forall i: nat | i < Total(t) ensures JobAt(t, i).message == i % U32 {
      if i < Total(s) { assert JobAt(s, i).message == i % U32; }
    }
    forall id: nat | IsPiece(t, id) ensures Traced(t, id) {
      assert IsPiece(s, id) && Traced(s, id);
      var i, k :| InMessage(s, id, i, k);
      assert InMessage(t, id, i, k);
    }
  }

  lemma FedCut(s: State, sent: bool)
    requires Mid(s) && Cut(s) && s.queue != [] && s.queue[0].next < s.queue[0].m.Count()
    ensures Cut(Fed(s, sent))
  {
    var t := Fed(s, sent);
    forall i: nat | i < Total(t) ensures JobAt(t, i).message == i % U32 {
      assert JobAt(s, i).message == i % U32;
    }
    forall id: nat | IsPiece(t, id) ensures Traced(t, id) {
      if id == s.link.next {
        assert InMessage(t, id, |s.log.finished|, |s.log.fed|);
      } else {
        assert IsPiece(s, id) && Traced(s, id);
        var i, k :| InMessage(s, id, i, k);
        assert InMessage(t, id, i, k);
      }
    }
  }

  lemma {:induction false} FeedCut(s: State, open: nat -> bool, sent: nat -> bool, k: nat)
    requires Mid(s) && Cut(s) && s.queue != []
    ensures Cut(Feed(s, open, sent, k).0)
    decreases s.queue[0].m.Count() - s.queue[0].next
  {
    var job := s.queue[0];
    if !job.lost && job.next < job.m.Count() && open(k) {
      FedCut(s, sent(k));
      if sent(k) {
        FedKeeps(s, true);
        FeedCut(Fed(s, true), open, sent, k + 1);
      }
    }
  }

  lemma SettleCut(s: State)
    requires Mid(s) && Cut(s) && s.queue != []
    ensures Cut(Settle(s).0)
  {
    var t := Settle(s).0;
    forall i: nat | i < Total(t) ensures JobAt(t, i).message == i % U32 {
      assert JobAt(s, i).message == i % U32;
    }
    forall id: nat | IsPiece(t, id) ensures Traced(t, id) {
      assert IsPiece(s, id) && Traced(s, id);
      var i, k :| InMessage(s, id, i, k);
      assert InMessage(t, id, i, k);
    }
  }

  lemma DriveCut(s: State, open: nat -> bool, sent: nat -> bool)
    requires Inv(s) && Cut(s)
    ensures Cut(DriveQueue(s, open, sent).0)
  {
    var taken := TakeLost(s);
    SamePiecesCut(s, taken);
    if s.queue != [] {
      TakeLostKeeps(s);
      FeedCut(taken, open, sent, 0);
      FeedKeeps(taken, open, sent, 0);
      FeedShape(taken, open, sent, 0);
      var (fed, ok) := Feed(taken, open, sent, 0);
      if ok { SettleCut(fed); }
    }
  }

  lemma {:induction false} WorkPieces(s: State, due: seq<Due>, sent: nat -> bool, i: nat)
    requires i <= |due|
    ensures var t := Work(s, due, sent, i).0;
            && t.log.sent == s.log.sent && t.log.fed == s.log.fed && t.log.finished == s.log.finished
            && t.queue == s.queue && t.nextMessage == s.nextMessage
    decreases |due| - i
  {
    if i < |due| {
      match due[i]
      case GaveUp(id) => WorkPieces(GiveUp(s, id), due, sent, i + 1);
      case Resend(id) =>
        if id !in s.pending { WorkPieces(s, due, sent, i + 1); }
        else if sent(i) { WorkPieces(Resent(s, id), due, sent, i + 1); }
    }
  }

  // ---- What is never undone -------------------------------------------------------------------

  /** `t` is later than `s`: messages keep their places and what they were cut from, and what
      the identifiers given out by then were sent as is settled. */
  ghost predicate Grown(s: State, t: State) {
    && s.link.next <= t.link.next && s.log.finished <= t.log.finished && Total(s) <= Total(t)
    && (forall i: nat :: i < Total(s) ==> JobAt(t, i).m == JobAt(s, i).m)
    && (forall id: nat :: id < s.link.next ==> SentAlike(s, t, id))
  }

  predicate SentAlike(s: State, t: State, id: nat) {
    (id in t.log.sent <==> id in s.log.sent) && (id in s.log.sent ==> t.log.sent[id] == s.log.sent[id])
  }

  lemma GrownTwice(s: State, t: State, u: State)
    requires Grown(s, t) && Grown(t, u)
    ensures Grown(s, u)
  {
    forall i: nat | i < Total(s) ensures JobAt(u, i).m == JobAt(s, i).m {
      assert JobAt(u, i).m == JobAt(t, i).m && JobAt(t, i).m == JobAt(s, i).m;
    }
    forall id: nat | id < s.link.next ensures SentAlike(s, u, id) {
      assert SentAlike(s, t, id) && SentAlike(t, u, id);
    }
  }

  lemma {:induction false} FeedGrows(s: State, open: nat -> bool, sent: nat -> bool, k: nat)
    requires s.queue != [] && s.queue[0].Ok()
    ensures Grown(s, Feed(s, open, sent, k).0)
    decreases s.queue[0].m.Count() - s.queue[0].next
  {
    var job := s.queue[0];
    if !job.lost && job.next < job.m.Count() && open(k) {
      assert Grown(s, Fed(s, sent(k)));
      if sent(k) {
        FeedGrows(Fed(s, true), open, sent, k + 1);
        GrownTwice(s, Fed(s, true), Feed(s, open, sent, k).0);
      }
    }
  }

  lemma TakeLostGrows(s: State)
    ensures Grown(s, TakeLost(s))
  {
  }

  lemma SettleGrows(s: State)
    requires s.queue != [] && s.queue[0].m.Sendable()
    ensures Grown(s, Settle(s).0)
  {
  }

  lemma DriveGrows(s: State, open: nat -> bool, sent: nat -> bool)
    requires Inv(s)
    ensures Grown(s, DriveQueue(s, open, sent).0)
  {
    TakeLostGrows(s);
    if s.queue != [] {
      var taken := TakeLost(s);
      var (fed, ok) := Feed(taken, open, sent, 0);
      FeedGrows(taken, open, sent, 0);
      FeedShape(taken, open, sent, 0);
      GrownTwice(s, taken, fed);
      if ok {
        SettleGrows(fed);
        GrownTwice(s, fed, Settle(fed).0);
      }
    }
  }

  lemma StepGrows(s: State, e: Event)
    requires Inv(s) && EventOk(s, e)
    ensures Grown(s, Step(s, e))
  {
    match e
    case Drive(open, sent) => DriveGrows(s, open, sent);
    case Retransmit(due, sent) =>
      WorkPieces(s.(link := s.link.GivenUp(GaveUpIds(due))), due, sent, 0);
      WorkElse(s.(link := s.link.GivenUp(GaveUpIds(due))), due, sent, 0);
    case _ =>
  }

  // ---- Every run --------------------------------------------------------------------------------

  /** A message sent in one frame is no fragment. */
  predicate Plain(e: Event) {
    e.Send? ==> e.frame.fragment.None?
  }

  lemma StepCut(s: State, e: Event)
    requires Inv(s) && EventOk(s, e) && Cut(s) && Plain(e)
    ensures Cut(Step(s, e))
  {
    match e
    case Queue(reliable, peerMax, data, shape, limit) =>
      if QueueMessage(s, reliable, peerMax, data, shape, limit).Ok? {
        QueueCut(s, reliable, peerMax, data, shape, limit);
      }
    case Drive(open, sent) => DriveCut(s, open, sent);
    case Retransmit(due, sent) =>
      WorkPieces(s.(link := s.link.GivenUp(GaveUpIds(due))), due, sent, 0);
      SamePiecesCut(s, Step(s, e));
    case _ => SamePiecesCut(s, Step(s, e));
  }

  /** In every run each fragment sent is one of a message queued, in its place there. */
  lemma {:induction false} RunCut(events: seq<Event>)
    requires RunOk(events) && forall e <- events :: Plain(e)
    ensures Cut(Run(events))
  {
    if events != [] {
      var front := events[..|events| - 1];
      RunCut(front);
      StepCut(Run(front), events[|events| - 1]);
    }
  }
}
