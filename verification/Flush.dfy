/** `Connection::flush`, when nothing else uses the connection meanwhile: feed the queue,
    resend what is due, take in what arrives, until nothing is left or something fails. */
module Flush {
  import opened Outcomes
  import opened Pipeline
  import opened PipelineRuns

  /** One turn of the loop after its first pass over the queue: the deadline check, then the
      pump's pass, its retransmissions and its read, then the loop's next pass. */
  datatype Turn = Turn(
    expired: bool,
    open: nat -> bool, sent: nat -> bool,
    due: seq<Due>, resent: nat -> bool,
    ids: set<nat>,
    openNext: nat -> bool, sentNext: nat -> bool)

  datatype Outcome = Flushed | Unacknowledged | Failed | Running

  predicate Idle(s: State) {
    s.link.flying == {} && s.queue == []
  }

  ghost predicate TurnOk(s: State, turn: Turn) {
    DueOk(s.link, turn.due)
  }

  /** The loop from its check on. */
  ghost function Loop(s: State, turns: seq<Turn>): (State, Outcome)
    requires Inv(s)
    decreases |turns|
  {
    if Idle(s) then (s, if s.abandonedCount > 0 then Unacknowledged else Flushed)
    else if turns == [] then (s, Running)
    else if turns[0].expired then (s, Unacknowledged)
    else
      var turn := turns[0];
      DriveQueueKeeps(s, turn.open, turn.sent);
      var (a, first) := DriveQueue(s, turn.open, turn.sent);
      if first.Err? then (a, Failed)
      else if !TurnOk(a, turn) then (a, Running)
      else
        DriveRetransmitsKeeps(a, turn.due, turn.resent);
        var (b, stop) := DriveRetransmits(a, turn.due, turn.resent);
        if stop.Some? then (b, Failed)
        else
          var c := if Idle(b) then b else ApplyAck(b, turn.ids);
          ApplyAckKeeps(b, turn.ids);
          DriveQueueKeeps(c, turn.openNext, turn.sentNext);
          var (d, second) := DriveQueue(c, turn.openNext, turn.sentNext);
          if second.Err? then (d, Failed) else Loop(d, turns[1..])
  }

  ghost function Flush(s: State, open: nat -> bool, sent: nat -> bool, turns: seq<Turn>): (State, Outcome)
    requires Inv(s)
  {
    var cleared := s.(abandonedCount := 0);
    ClearKeeps(s);
    DriveQueueKeeps(cleared, open, sent);
    var (a, r) := DriveQueue(cleared, open, sent);
    if r.Err? then (a, Failed) else Loop(a, turns)
  }

  predicate FinishedAs(d: Done, job: Job, doomed: bool) {
    d.job.Same(job) && (d.delivered <==> !doomed)
  }

  predicate SameAll(a: seq<Job>, b: seq<Job>) {
    |a| == |b| && forall j :: 0 <= j < |a| ==> a[j].Same(b[j])
  }

  /** What has left the queue since `s`. */
  function Gone(s: State, t: State): seq<Done> {
    if |s.log.finished| <= |t.log.finished| then t.log.finished[|s.log.finished|..] else []
  }

  /** How far `t` has come with the messages that `s` had queued: the first ones finished, in
      order, all delivered but a first one that was doomed from the start. */
  ghost predicate Worked(s: State, t: State) {
    var gone := Gone(s, t);
    && |s.log.finished| + |gone| == |t.log.finished| && |gone| <= |s.queue|
    && (forall j :: 0 <= j < |gone| ==> FinishedAs(gone[j], s.queue[j], j == 0 && Doomed(s)))
    && SameAll(t.queue, s.queue[|gone|..])
  }

  lemma WorkedOn(s: State, t: State, u: State, r: Option<bool>)
    requires Worked(s, t) && Moved(t, u, r)
    requires r.Some? ==> (r.value <==> !(Gone(s, t) == [] && Doomed(s)))
    ensures Worked(s, u) && |Gone(s, u)| == |Gone(s, t)| + if r.Some? then 1 else 0
  {
    var gone, after := Gone(s, t), Gone(s, u);
    if r.Some? {
      var d := u.log.finished[|t.log.finished|];
      assert u.log.finished == t.log.finished + [d];
      assert after == gone + [d];
      assert t.queue[0].Same(s.queue[|gone|..][0]);
      forall j | 0 <= j < |u.queue| ensures u.queue[j].Same(s.queue[|after|..][j]) {
        assert t.queue[j + 1].Same(s.queue[|gone|..][j + 1]);
      }
    } else {
      forall j | 0 <= j < |u.queue| ensures u.queue[j].Same(s.queue[|gone|..][j]) {
        assert u.queue[j].Same(t.queue[j]) && t.queue[j].Same(s.queue[|gone|..][j]);
      }
    }
  }

  /** Nothing given up since `s`, everything in flight then is still, or acknowledged, and a
      message doomed then is gone. */
  ghost predicate Sound(s: State, t: State) {
    && Inv(t) && t.link.gaveUp == s.link.gaveUp
    && s.link.flying <= t.link.flying + t.link.acked
    && t.abandoned == {} && Worked(s, t)
    && (Doomed(s) ==> Gone(s, t) != [])
  }

  /** A clean state stays sound through a pass over the queue. */
  lemma DriveStaysSound(s: State, t: State, open: nat -> bool, sent: nat -> bool)
    requires Sound(s, t) && DriveQueue(t, open, sent).1.Ok?
    ensures Sound(s, DriveQueue(t, open, sent).0)
  {
    DriveQueueKeeps(t, open, sent);
    DriveQueueMoves(t, open, sent);
    var (u, r) := DriveQueue(t, open, sent);
    WorkedOn(s, t, u, r.value);
  }

  lemma AckStaysSound(s: State, t: State, ids: set<nat>)
    requires Sound(s, t)
    ensures Sound(s, ApplyAck(t, ids))
  {
    ApplyAckKeeps(t, ids);
    assert Gone(s, ApplyAck(t, ids)) == Gone(s, t);
  }

  lemma {:induction false} WorkCounts(s: State, due: seq<Due>, sent: nat -> bool, i: nat)
    requires i <= |due|
    ensures var t := Work(s, due, sent, i).0;
            && t.abandonedCount >= s.abandonedCount
            && t.queue == s.queue && t.log.finished == s.log.finished && t.link == s.link
            && (Work(s, due, sent, i).1.None? ==>
                  if GaveUpIds(due[i..]) == {} then t.abandoned == s.abandoned && t.abandonedCount == s.abandonedCount
                  else t.abandonedCount > 0)
    decreases |due| - i
  {
    if i < |due| {
      GaveUpFirst(due, i);
      match due[i]
      case GaveUp(id) => WorkCounts(GiveUp(s, id), due, sent, i + 1);
      case Resend(id) =>
        if id !in s.pending { WorkCounts(s, due, sent, i + 1); }
        else if sent(i) { WorkCounts(Resent(s, id), due, sent, i + 1); }
    }
  }

  /** Retransmission either gives nothing up or leaves its mark in the count. */
  lemma ResendStaysSound(s: State, t: State, due: seq<Due>, sent: nat -> bool)
    requires Sound(s, t) && DueOk(t.link, due) && DriveRetransmits(t, due, sent).1.None?
    ensures var u := DriveRetransmits(t, due, sent).0;
            Inv(u) && u.abandonedCount >= t.abandonedCount && (u.abandonedCount > 0 || Sound(s, u))
  {
    DriveRetransmitsKeeps(t, due, sent);
    var polled := t.(link := t.link.GivenUp(GaveUpIds(due)));
    WorkCounts(polled, due, sent, 0);
    assert due[0..] == due;
    var u := DriveRetransmits(t, due, sent).0;
    assert Gone(s, u) == Gone(s, t);
  }

  /** Once something has been given up, the loop cannot end well. */
  lemma {:induction false} CountedIsNotFlushed(s: State, turns: seq<Turn>)
    requires Inv(s) && s.abandonedCount > 0
    ensures Loop(s, turns).1 != Flushed
    decreases |turns|
  {
    if !Idle(s) && turns != [] && !turns[0].expired {
      var turn := turns[0];
      DriveQueueKeeps(s, turn.open, turn.sent);
      var (a, first) := DriveQueue(s, turn.open, turn.sent);
      if first.Ok? && TurnOk(a, turn) {
        DriveRetransmitsKeeps(a, turn.due, turn.resent);
        WorkCounts(a.(link := a.link.GivenUp(GaveUpIds(turn.due))), turn.due, turn.resent, 0);
        var (b, stop) := DriveRetransmits(a, turn.due, turn.resent);
        if stop.None? {
          var c := if Idle(b) then b else ApplyAck(b, turn.ids);
          ApplyAckKeeps(b, turn.ids);
          DriveQueueKeeps(c, turn.openNext, turn.sentNext);
          var (d, second) := DriveQueue(c, turn.openNext, turn.sentNext);
          if second.Ok? { CountedIsNotFlushed(d, turns[1..]); }
        }
      }
    }
  }

  lemma {:induction false} LoopIsSound(s: State, t: State, turns: seq<Turn>)
    requires Sound(s, t) && Loop(t, turns).1 == Flushed
    ensures Sound(s, Loop(t, turns).0) && Idle(Loop(t, turns).0)
    decreases |turns|
  {
    if !Idle(t) {
      var turn := turns[0];
      DriveStaysSound(s, t, turn.open, turn.sent);
      var a := DriveQueue(t, turn.open, turn.sent).0;
      ResendStaysSound(s, a, turn.due, turn.resent);
      var b := DriveRetransmits(a, turn.due, turn.resent).0;
      var c := if Idle(b) then b else ApplyAck(b, turn.ids);
      ApplyAckKeeps(b, turn.ids);
      DriveQueueKeeps(c, turn.openNext, turn.sentNext);
      var d := DriveQueue(c, turn.openNext, turn.sentNext).0;
      if b.abandonedCount > 0 {
        CountedIsNotFlushed(d, turns[1..]);
      } else {
        AckStaysSound(s, b, turn.ids);
        DriveStaysSound(s, c, turn.openNext, turn.sentNext);
        LoopIsSound(s, d, turns[1..]);
      }
    }
  }

  lemma FirstPassIsSound(s: State, open: nat -> bool, sent: nat -> bool)
    requires Inv(s) && DriveQueue(s.(abandonedCount := 0), open, sent).1.Ok?
    ensures Sound(s, DriveQueue(s.(abandonedCount := 0), open, sent).0)
  {
    var cleared := s.(abandonedCount := 0);
    ClearKeeps(s);
    DriveQueueKeeps(cleared, open, sent);
    DriveQueueMoves(cleared, open, sent);
    assert Gone(s, cleared) == [];
    WorkedOn(s, cleared, DriveQueue(cleared, open, sent).0, DriveQueue(cleared, open, sent).1.value);
  }

  /** Message `j` of those `s` had queued, as it left the queue. */
  ghost predicate Reported(s: State, t: State, j: nat)
    requires j < |s.queue|
  {
    var at := |s.log.finished| + j;
    && at < |t.log.finished| && DoneOk(t, t.log.finished[at])
    && t.log.finished[at].job.Same(s.queue[j])
    && (t.log.finished[at].delivered <==> !(j == 0 && Doomed(s)))
  }

  lemma IdleReports(s: State, t: State, j: nat)
    requires Sound(s, t) && Idle(t) && j < |s.queue|
    ensures Reported(s, t, j)
  {
    var gone := Gone(s, t);
    assert FinishedAs(gone[j], s.queue[j], j == 0 && Doomed(s));
    assert gone[j] == t.log.finished[|s.log.finished| + j];
    assert gone[j] in t.log.finished;
  }

  /** A flush that succeeds: everything in flight on entry was acknowledged, nothing was given
      up during the call, and every queued message went out and was acknowledged whole,
      except, exactly, a front message one of whose fragments had already been abandoned on
      entry. */
  lemma FlushIsSound(s: State, open: nat -> bool, sent: nat -> bool, turns: seq<Turn>)
    requires Inv(s) && Flush(s, open, sent, turns).1 == Flushed
    ensures var t := Flush(s, open, sent, turns).0;
            && s.link.flying <= t.link.acked && t.link.gaveUp == s.link.gaveUp
            && t.link.flying == {} && t.queue == []
            && forall j :: 0 <= j < |s.queue| ==> Reported(s, t, j)
  {
    FirstPassIsSound(s, open, sent);
    var a := DriveQueue(s.(abandonedCount := 0), open, sent).0;
    LoopIsSound(s, a, turns);
    var t := Loop(a, turns).0;
    forall j | 0 <= j < |s.queue| ensures Reported(s, t, j) { IdleReports(s, t, j); }
  }

  /** The exception is real: a message lost before the call is no longer counted, so the
      flush that drops it succeeds. */
  lemma FlushForgetsAnEarlierLoss(s: State, open: nat -> bool, sent: nat -> bool)
    requires Inv(s) && Doomed(s) && |s.queue| == 1 && s.link.flying == {}
    ensures Flush(s, open, sent, []).1 == Flushed
    ensures Reported(s, Flush(s, open, sent, []).0, 0) && !Flush(s, open, sent, []).0.log.finished[|s.log.finished|].delivered
  {
    var cleared := s.(abandonedCount := 0);
    ClearKeeps(s);
    DriveQueueKeeps(cleared, open, sent);
    var taken := TakeLost(cleared);
    assert taken.queue[0].lost;
    assert Feed(taken, open, sent, 0) == (taken, true);
    assert Flush(s, open, sent, []).1 == Flushed;
    FlushIsSound(s, open, sent, []);
    assert Reported(s, Flush(s, open, sent, []).0, 0);
  }
}
