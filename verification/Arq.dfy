/** The reliability layer end to end: one sender, one receiver, and a network that
    drops, duplicates and reorders.

    The state keeps unbounded identifiers beside the wire values. A data frame is
    named by its sequence number, so the network is just the frames sealed so far:
    any of them may arrive at any time, any number of times, and the session's
    rule says which arrivals open. Any acknowledgement ever sent may arrive at any
    time and any number of times. */
module Arq {
  import opened Bits
  import opened Outcomes
  import opened Dedup
  import Replay
  import RT = Retransmit
  import SR = SenderRuns
  import opened SessionRuns

  /** An acknowledgement on the wire, with what the receiver had seen when it sent it. */
  datatype Report = Report(ack: Ack, window: Window, seen: set<nat>, high: nat)

  datatype System = System(
    sender: SR.Sender,
    frames: seq<Option<nat>>,   // frame by sequence number: the message it carries, if reliable
    nextAt: seq<nat>,           // the sender's next identifier when each frame was sealed
    accepted: set<nat>,         // sequence numbers the receiver's session has opened
    window: Window,             // the receiver's duplicate window
    seen: set<nat>,             // the messages that window reported as new
    high: nat,
    delivered: seq<nat>,        // what the application was handed, in order
    reports: seq<Report>)

  datatype Event =
    | Send(now: u64)                    // register a message and seal its first frame
    | Lost(now: u64)                    // register a message whose sealing then fails
    | Reseal(g: nat)                    // retransmit a message in flight
    | SealOther                         // any frame without a message identifier
    | Poll(now: u64, room: nat)
    | ForgetPath
    | SetMaxRetries(attempts: u8)
    | Arrive(sequence: nat)             // a data frame reaches the receiver
    | AckArrives(k: nat, now: u64)      // an acknowledgement reaches the sender

  function Start(): System {
    System(SR.Start(), [], [], {}, EMPTY, {}, 0, [], [])
  }

  function Sealed(y: System, sender: SR.Sender, m: Option<nat>): System {
    y.(sender := sender, frames := y.frames + [m], nextAt := y.nextAt + [sender.next])
  }

  /** The receiver's side of a reliable frame: deduplicate, deliver if new, and
      acknowledge in either case. */
  function Received(y: System, sequence: nat, g: nat): System {
    var (w, isNew) := AcceptStep(y.window, g % U32);
    var seen := if isNew then y.seen + {g} else y.seen;
    var high := if y.seen == {} then g else Max(y.high, g);
    y.(accepted := y.accepted + {sequence},
       window := w, seen := seen, high := high,
       delivered := if isNew then y.delivered + [g] else y.delivered,
       reports := y.reports + [Report(w.ToAck(), w, seen, high)])
  }

  function Step(y: System, e: Event): System {
    match e
    case Send(now) =>
      var s := SR.Step(y.sender, SR.Register(now));
      if s.next == y.sender.next then y else Sealed(y, s, Some(y.sender.next))
    case Lost(now) => y.(sender := SR.Step(y.sender, SR.Register(now)))
    case Reseal(g) => if g in SR.Flying(y.sender) then Sealed(y, y.sender, Some(g)) else y
    case SealOther => Sealed(y, y.sender, None)
    case Poll(now, room) => y.(sender := SR.Step(y.sender, SR.Poll(now, room)))
    case ForgetPath => y.(sender := SR.Step(y.sender, SR.ForgetPath))
    case SetMaxRetries(attempts) => y.(sender := SR.Step(y.sender, SR.SetMaxRetries(attempts)))
    case Arrive(sequence) =>
      if sequence >= |y.frames| || !Opens(y.accepted, sequence) then y
      else if y.frames[sequence].None? then y.(accepted := y.accepted + {sequence})
      else Received(y, sequence, y.frames[sequence].value)
    case AckArrives(k, now) =>
      if k >= |y.reports| then y
      else y.(sender := SR.Step(y.sender, SR.OnAck(y.reports[k].ack, now)))
  }

  function Run(events: seq<Event>): System {
    if events == [] then Start() else Step(Run(events[..|events| - 1]), events[|events| - 1])
  }

  /** What the wrapping identifiers need of the network: a data frame is less than
      2^31 identifiers from the newest one received, and an acknowledgement has
      not been overtaken by 2^32 - 64 identifiers. */
  predicate Timely(y: System, e: Event) {
    match e
    case Arrive(sequence) =>
      sequence < |y.frames| && y.frames[sequence].Some? && y.seen != {} ==>
        y.frames[sequence].value < y.high + HALF && y.high <= y.frames[sequence].value + HALF
    case AckArrives(k, _) =>
      k < |y.reports| ==> y.sender.next + ACK_WINDOW <= y.reports[k].high + U32
    case _ => true
  }

  predicate TimelyRun(events: seq<Event>) {
    forall i :: 0 <= i < |events| ==> Timely(Run(events[..i]), events[i])
  }

  // ---- The invariant ------------------------------------------------------------

  predicate FramesOk(y: System) {
    && |y.nextAt| == |y.frames|
    && (forall q :: 0 <= q < |y.frames| ==> y.nextAt[q] <= y.sender.next)
    && (forall q, r :: 0 <= q <= r < |y.frames| ==> y.nextAt[q] <= y.nextAt[r])
    && (forall q :: 0 <= q < |y.frames| && y.frames[q].Some? ==>
          y.frames[q].value < y.nextAt[q] <= y.frames[q].value + ACK_WINDOW)
  }

  predicate Unique(s: seq<nat>) {
    forall i, j :: 0 <= i < j < |s| ==> s[i] != s[j]
  }

  ghost predicate ReceiverOk(y: System) {
    && (forall q <- y.accepted :: q < |y.frames|)
    && Tracks(y.window, y.seen, y.high)
    && (forall g <- y.seen :: exists q :: q in y.accepted && q < |y.frames| && y.frames[q] == Some(g))
    && Unique(y.delivered)
    && (forall g :: g in y.delivered <==> g in y.seen)
  }

  ghost predicate ReportOk(y: System, r: Report) {
    && Tracks(r.window, r.seen, r.high) && r.window.started
    && r.ack == r.window.ToAck() && r.seen <= y.seen
  }

  ghost predicate Inv(y: System) {
    && SR.Inv(y.sender)
    && FramesOk(y)
    && ReceiverOk(y)
    && y.sender.acked <= y.seen
    && (forall k :: 0 <= k < |y.reports| ==> ReportOk(y, y.reports[k]))
  }

  lemma SeenWereSent(y: System, g: nat)
    requires FramesOk(y) && ReceiverOk(y) && g in y.seen
    ensures g < y.sender.next
  {
    var q :| q in y.accepted && q < |y.frames| && y.frames[q] == Some(g);
  }

  lemma SealKeeps(y: System, s: SR.Sender, m: Option<nat>)
    requires Inv(y) && SR.Inv(s) && y.sender.next <= s.next && s.acked == y.sender.acked
    requires m.Some? ==> m.value < s.next <= m.value + ACK_WINDOW
    ensures Inv(Sealed(y, s, m))
  {
    var z := Sealed(y, s, m);
    forall g | g in z.seen
      ensures exists q :: q in z.accepted && q < |z.frames| && z.frames[q] == Some(g)
    {
      var q :| q in y.accepted && q < |y.frames| && y.frames[q] == Some(g);
      assert z.frames[q] == Some(g);
    }
    forall k | 0 <= k < |z.reports| ensures ReportOk(z, z.reports[k]) { assert ReportOk(y, y.reports[k]); }
  }

  lemma SenderMoves(y: System, s: SR.Sender)
    requires Inv(y) && SR.Inv(s) && y.sender.next <= s.next && s.acked <= y.seen
    ensures Inv(y.(sender := s))
  {
    var z := y.(sender := s);
    forall g | g in z.seen
      ensures exists q :: q in z.accepted && q < |z.frames| && z.frames[q] == Some(g)
    {
      var q :| q in y.accepted && q < |y.frames| && y.frames[q] == Some(g);
      assert z.frames[q] == Some(g);
    }
    forall k | 0 <= k < |z.reports| ensures ReportOk(z, z.reports[k]) { assert ReportOk(y, y.reports[k]); }
  }

  /** An identifier an acknowledgement removes was in what the receiver had seen. */
  lemma AckedWasSeen(y: System, k: nat, g: nat)
    requires Inv(y) && k < |y.reports|
    requires y.sender.next + ACK_WINDOW <= y.reports[k].high + U32
    requires g in SR.Flying(y.sender)
    requires g % U32 in RT.AckedIds(y.sender.q.slots, y.reports[k].ack, |y.sender.q.slots|)
    ensures g in y.seen
  {
    var r := y.reports[k];
    assert ReportOk(y, r);
    SR.AckedMembers(y.sender.q.slots, r.ack, |y.sender.q.slots|, g % U32);
    SeenWereSent(y, r.high);
    AckExact(r.window, r.seen, r.high, g);
  }

  lemma AckKeeps(y: System, k: nat, now: u64)
    requires Inv(y) && Timely(y, AckArrives(k, now))
    ensures Inv(Step(y, AckArrives(k, now)))
  {
    if k < |y.reports| {
      var s := SR.Step(y.sender, SR.OnAck(y.reports[k].ack, now));
      SR.AckKeeps(y.sender, y.reports[k].ack, now);
      forall g | g in s.acked ensures g in y.seen {
        if g !in y.sender.acked { AckedWasSeen(y, k, g); }
      }
      SenderMoves(y, s);
    }
  }

  lemma ReceivedReceiverOk(y: System, sequence: nat, g: nat)
    requires Inv(y) && sequence < |y.frames| && y.frames[sequence] == Some(g)
    requires Timely(y, Arrive(sequence))
    ensures ReceiverOk(Received(y, sequence, g))
  {
    var z := Received(y, sequence, g);
    AcceptExact(y.window, y.seen, y.high, g);
    forall m | m in z.seen
      ensures exists q :: q in z.accepted && q < |z.frames| && z.frames[q] == Some(m)
    {
      if m in y.seen {
        var q :| q in y.accepted && q < |y.frames| && y.frames[q] == Some(m);
        assert q in z.accepted && z.frames[q] == Some(m);
      } else {
        assert sequence in z.accepted && z.frames[sequence] == Some(m);
      }
    }
  }

  lemma ReceivedKeeps(y: System, sequence: nat, g: nat)
    requires Inv(y) && sequence < |y.frames| && y.frames[sequence] == Some(g)
    requires Timely(y, Arrive(sequence))
    ensures Inv(Received(y, sequence, g))
  {
    var z := Received(y, sequence, g);
    ReceivedReceiverOk(y, sequence, g);
    forall k | 0 <= k < |z.reports| ensures ReportOk(z, z.reports[k]) {
      if k < |y.reports| { assert ReportOk(y, y.reports[k]); }
    }
  }

  lemma OpenedKeeps(y: System, sequence: nat)
    requires Inv(y) && sequence < |y.frames|
    ensures Inv(y.(accepted := y.accepted + {sequence}))
  {
    var z := y.(accepted := y.accepted + {sequence});
    forall m | m in z.seen
      ensures exists q :: q in z.accepted && q < |z.frames| && z.frames[q] == Some(m)
    {
      var q :| q in y.accepted && q < |y.frames| && y.frames[q] == Some(m);
      assert q in z.accepted && z.frames[q] == Some(m);
    }
    forall k | 0 <= k < |z.reports| ensures ReportOk(z, z.reports[k]) { assert ReportOk(y, y.reports[k]); }
  }

  lemma SenderEventKeeps(y: System, e: Event)
    requires Inv(y) && !e.Arrive? && !e.AckArrives?
    ensures Inv(Step(y, e))
  {
    match e
    case Send(now) =>
      SR.StepKeeps(y.sender, SR.Register(now));
      var s := SR.Step(y.sender, SR.Register(now));
      if s.next != y.sender.next { SealKeeps(y, s, Some(y.sender.next)); }
    case Lost(now) =>
      SR.StepKeeps(y.sender, SR.Register(now));
      SenderMoves(y, SR.Step(y.sender, SR.Register(now)));
    case Reseal(g) => if g in SR.Flying(y.sender) { SealKeeps(y, y.sender, Some(g)); }
    case SealOther => SealKeeps(y, y.sender, None);
    case Poll(now, room) =>
      SR.StepKeeps(y.sender, SR.Poll(now, room));
      SenderMoves(y, SR.Step(y.sender, SR.Poll(now, room)));
    case ForgetPath =>
      SR.StepKeeps(y.sender, SR.ForgetPath);
      SenderMoves(y, SR.Step(y.sender, SR.ForgetPath));
    case SetMaxRetries(n) =>
      SR.StepKeeps(y.sender, SR.SetMaxRetries(n));
      SenderMoves(y, SR.Step(y.sender, SR.SetMaxRetries(n)));
  }

  lemma StepKeeps(y: System, e: Event)
    requires Inv(y) && Timely(y, e)
    ensures Inv(Step(y, e))
  {
    if e.AckArrives? {
      AckKeeps(y, e.k, e.now);
    } else if e.Arrive? {
      if e.sequence < |y.frames| && Opens(y.accepted, e.sequence) {
        if y.frames[e.sequence].None? { OpenedKeeps(y, e.sequence); }
        else { ReceivedKeeps(y, e.sequence, y.frames[e.sequence].value); }
      }
    } else {
      SenderEventKeeps(y, e);
    }
  }

  lemma {:induction false} RunInv(events: seq<Event>)
    requires TimelyRun(events)
    ensures Inv(Run(events))
  {
    if events == [] {
      SR.StartOk();
    } else {
      var before := events[..|events| - 1];
      forall i | 0 <= i < |before| ensures Timely(Run(before[..i]), before[i]) {
        assert before[..i] == events[..i];
      }
      RunInv(before);
      assert Timely(Run(before), events[|events| - 1]);
      StepKeeps(Run(before), events[|events| - 1]);
    }
  }

  /** What an event asks of the sending queue, if anything. */
  function Asked(y: System, e: Event): Option<SR.Call> {
    match e
    case Send(now) => Some(SR.Register(now))
    case Lost(now) => Some(SR.Register(now))
    case Poll(now, room) => Some(SR.Poll(now, room))
    case ForgetPath => Some(SR.ForgetPath)
    case SetMaxRetries(attempts) => Some(SR.SetMaxRetries(attempts))
    case AckArrives(k, now) => if k < |y.reports| then Some(SR.OnAck(y.reports[k].ack, now)) else None
    case _ => None
  }

  lemma AskedOfSender(y: System, e: Event)
    ensures Step(y, e).sender == if Asked(y, e).Some? then SR.Step(y.sender, Asked(y, e).value) else y.sender
  {
  }

  /** Whatever the network does, the sending queue only goes through runs of its own. */
  lemma {:induction false} SenderIsARun(events: seq<Event>) returns (calls: seq<SR.Call>)
    ensures Run(events).sender == SR.Run(calls)
  {
    if events == [] {
      calls := [];
    } else {
      var before, e := events[..|events| - 1], events[|events| - 1];
      calls := SenderIsARun(before);
      AskedOfSender(Run(before), e);
      var call := Asked(Run(before), e);
      if call.Some? {
        SR.RunOneMore(calls, call.value);
        calls := calls + [call.value];
      }
    }
  }

  // ---- What every run guarantees --------------------------------------------------

  /** Safety over every timely run, wrap-around included: the application is handed
      each message at most once and only messages that were sent, and whatever
      the sender believes acknowledged was received. */
  lemma ExactlyWhatWasSent(events: seq<Event>)
    requires TimelyRun(events)
    ensures var y := Run(events);
            && Unique(y.delivered)
            && (forall g <- y.delivered :: g < y.sender.next)
            && (forall g <- y.sender.acked :: g in y.delivered)
  {
    RunInv(events);
    var y := Run(events);
    forall g | g in y.delivered ensures g < y.sender.next { SeenWereSent(y, g); }
  }

  /** No message is ever stranded: in every reachable state, a message in flight that
      the receiver lacks would be accepted if it arrived now, and one it has is
      covered by the acknowledgement it would send now. */
  lemma NeverStranded(events: seq<Event>, g: nat)
    requires TimelyRun(events)
    requires g in SR.Flying(Run(events).sender)
    requires Run(events).seen != {} ==> g < Run(events).high + HALF
    ensures var y := Run(events);
            if g in y.delivered then y.window.ToAck().Covers(g % U32)
            else AcceptStep(y.window, g % U32).1
  {
    RunInv(events);
    var y := Run(events);
    if y.seen != {} {
      SeenWereSent(y, y.high);
      AcceptExact(y.window, y.seen, y.high, g);
      AckExact(y.window, y.seen, y.high, g);
    }
  }

  // ---- What the replay window takes care of ---------------------------------------

  predicate Dense(y: System) {
    && (if y.nextAt == [] then y.sender.next == 0 else y.nextAt[|y.nextAt| - 1] == y.sender.next)
    && (forall q :: 0 < q < |y.nextAt| ==> y.nextAt[q] <= y.nextAt[q - 1] + 1)
  }

  lemma {:induction false} DenseGap(y: System, q: nat, r: nat)
    requires FramesOk(y) && (forall q :: 0 < q < |y.nextAt| ==> y.nextAt[q] <= y.nextAt[q - 1] + 1)
    requires q <= r < |y.nextAt|
    ensures y.nextAt[r] <= y.nextAt[q] + (r - q)
    decreases r - q
  {
    if q < r { DenseGap(y, q, r - 1); }
  }

  lemma StepDense(y: System, e: Event)
    requires Inv(y) && Dense(y) && !e.Lost?
    ensures Dense(Step(y, e))
  {
  }

  lemma {:induction false} RunDense(events: seq<Event>)
    requires TimelyRun(events) && forall i :: 0 <= i < |events| ==> !events[i].Lost?
    ensures Dense(Run(events))
  {
    if events != [] {
      var before := events[..|events| - 1];
      forall i | 0 <= i < |before| ensures Timely(Run(before[..i]), before[i]) {
        assert before[..i] == events[..i];
      }
      RunDense(before);
      RunInv(before);
      StepDense(Run(before), events[|events| - 1]);
    }
  }

  /** Half of the timeliness of data frames is free: when every registered message
      was sealed, the session's replay window alone keeps an opened frame within
      127 identifiers of the newest received, however long it was delayed. */
  lemma ReplayWindowBoundsAge(events: seq<Event>, sequence: nat)
    requires TimelyRun(events) && forall i :: 0 <= i < |events| ==> !events[i].Lost?
    requires var y := Run(events);
             && y.seen != {} && sequence < |y.frames| && y.frames[sequence].Some?
             && Opens(y.accepted, sequence)
    ensures Run(events).high <= Run(events).frames[sequence].value + 127
  {
    RunInv(events);
    RunDense(events);
    var y := Run(events);
    var q :| q in y.accepted && q < |y.frames| && y.frames[q] == Some(y.high);
    assert q < sequence + Replay.REPLAY_WINDOW;
    if q >= sequence {
      DenseGap(y, sequence, q);
    } else {
      assert y.nextAt[q] <= y.nextAt[sequence];
    }
  }

  /** The other half is needed: a message never seen, and 2^31 or more ahead of the
      newest received, is refused as a duplicate. */
  lemma TooFarAheadIsRefused(w: Window, seen: set<nat>, high: nat, g: nat)
    requires Tracks(w, seen, high) && w.started
    requires high + HALF <= g < high + U32 - ACK_WINDOW
    ensures g !in seen && !AcceptStep(w, g % U32).1
  {
    WrapSubOf(g, high);
    WrapSubOf(high, g);
  }
}
