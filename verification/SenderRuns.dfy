/** Every run of the sender's queue: what becomes of each registered message, how
    long it is kept trying, and the bounds the windows never leave.

    A run is any sequence of calls, with any acknowledgements and any clock
    readings. Identifiers are counted without wrapping: message `g` travels as
    `g % 2^32`. */
module SenderRuns {
  import opened Bits
  import opened Outcomes
  import opened Dedup
  import opened Retransmit

  datatype Call =
    | Register(now: u64)
    | OnAck(ack: Ack, now: u64)
    | Poll(now: u64, room: nat)
    | ForgetPath
    | SetMaxRetries(attempts: u8)

  datatype Fate = Fate(at: nat, limit: nat)

  /** The queue, together with the history of what was asked of it. */
  datatype Sender = Sender(
    q: Queue,
    next: nat,                        // messages registered so far
    registeredAt: map<nat, nat>,
    resent: map<nat, nat>,            // retransmissions of each message
    acked: set<nat>,                  // reported by `on_ack`
    gaveUp: map<nat, Fate>,           // reported by `poll`, when and against which limit
    mostRetries: nat,                 // the largest retry limit ever in force
    samples: seq<u32>)                // round trips measured on the current path

  predicate Holds(slots: seq<Slot>, id: u32) {
    exists i :: 0 <= i < |slots| && slots[i].Some? && slots[i].value.id == id
  }

  /** The messages still in flight: recent ones whose wire form fills a slot. */
  function Flying(s: Sender): set<nat> {
    set g: nat | g < s.next && s.next <= g + ACK_WINDOW && Holds(s.q.slots, g % U32)
  }

  function Start(): Sender {
    Sender(NewQueue(), 0, map[], map[], {}, map[], MAX_RETRIES, [])
  }

  function Step(s: Sender, call: Call): Sender {
    match call
    case Register(now) =>
      (match RegisterStep(s.q, now)
       case Err(_) => s
       case Ok((q, _)) =>
         s.(q := q, next := s.next + 1, registeredAt := s.registeredAt[s.next := now], resent := s.resent[s.next := 0]))
    case OnAck(ack, now) =>
      s.(q := AckStep(s.q, ack, now),
         acked := s.acked + (set g | g in Flying(s) && g % U32 in AckedIds(s.q.slots, ack, |s.q.slots|)),
         samples := s.samples + Samples(s.q.slots, ack, now, |s.q.slots|))
    case Poll(now, room) =>
      var due := PollDue(s.q, now, room, |s.q.slots|);
      s.(q := PollStep(s.q, now, room),
         resent := map g | g in s.resent ::
                     if g in Flying(s) && Resend(g % U32) in due then s.resent[g] + 1 else s.resent[g],
         gaveUp := s.gaveUp + map g | g in Flying(s) && GaveUp(g % U32) in due :: Fate(now, s.q.maxRetries))
    case ForgetPath => s.(q := ForgetPathStep(s.q), samples := [])
    case SetMaxRetries(attempts) =>
      var q := SetMaxRetriesStep(s.q, attempts);
      s.(q := q, mostRetries := Max(s.mostRetries, q.maxRetries))
  }

  /** The round trips an acknowledgement measures: those of covered messages never
      resent (Karn's algorithm). */
  function Samples(slots: seq<Slot>, ack: Ack, now: u64, n: nat): seq<u32>
    requires n <= |slots|
  {
    if n == 0 then []
    else
      var before := Samples(slots, ack, now, n - 1);
      if Hit(slots[n - 1], ack) && slots[n - 1].value.retries == 0
      then before + [RoundTrip(slots[n - 1].value, now)]
      else before
  }

  function Folded(rto: Rto, samples: seq<u32>): Rto {
    if samples == [] then rto
    else Folded(rto, samples[..|samples| - 1]).Sample(samples[|samples| - 1])
  }

  function Run(calls: seq<Call>): Sender {
    if calls == [] then Start() else Step(Run(calls[..|calls| - 1]), calls[|calls| - 1])
  }

  /** The least time `retries` resends can take: 20 ms doubling up to 640 ms. */
  function Schedule(retries: nat): nat {
    MIN_RTO_MS * Pow2(Min(retries, 5)) + if retries == 0 then 0 else Schedule(retries - 1)
  }

  function Issued(next: nat, id: u32): int {
    next - WrapSub(next % U32, id)
  }

  /** The slot holds a message 1 to 64 behind the next one, and its deadline
      respects the schedule. */
  predicate SlotOk(s: Sender, entry: InFlight) {
    var d := WrapSub(s.next % U32, entry.id);
    var g := Issued(s.next, entry.id);
    && 1 <= d <= ACK_WINDOW && d <= s.next
    && g in s.registeredAt && g in s.resent
    && s.resent[g] == entry.retries
    && (entry.retries == 0 ==> entry.sentAt == s.registeredAt[g])
    && entry.deadline >= Min(s.registeredAt[g] + Schedule(entry.retries), U64 - 1)
  }

  predicate Distinct(slots: seq<Slot>) {
    forall i, j :: 0 <= i < j < |slots| && slots[i].Some? && slots[j].Some? ==> slots[i].value.id != slots[j].value.id
  }

  predicate WindowsInRange(q: Queue) {
    CWND_FLOOR <= q.cwnd <= CWND_CEILING && CWND_FLOOR <= q.ssthresh <= CWND_CEILING
  }

  predicate QueueOk(s: Sender) {
    && |s.q.slots| == MAX_IN_FLIGHT
    && s.q.nextId == s.next % U32
    && s.q.maxRetries <= s.mostRetries
    && WindowsInRange(s.q)
    && s.q.rto == Folded(FRESH_RTO, s.samples)
    && Distinct(s.q.slots)
    && (forall i :: 0 <= i < |s.q.slots| && s.q.slots[i].Some? ==> SlotOk(s, s.q.slots[i].value))
  }

  ghost predicate HistoryOk(s: Sender) {
    && (forall g: nat :: g < s.next <==> g in s.registeredAt)
    && s.resent.Keys == s.registeredAt.Keys
    && (forall g <- s.resent :: s.resent[g] <= s.mostRetries)
    && (forall g <- s.gaveUp :: FateOk(s, g))
  }

  /** An abandoned message had used up its retries, and the time they take. */
  predicate FateOk(s: Sender, g: nat)
    requires g in s.gaveUp
  {
    && g in s.registeredAt && g in s.resent
    && s.resent[g] >= s.gaveUp[g].limit
    && s.gaveUp[g].at >= Min(s.registeredAt[g] + Schedule(s.resent[g]), U64 - 1)
  }

  /** Every registered message is in exactly one of the three places. */
  ghost predicate Conserved(s: Sender) {
    && (forall g: nat :: g < s.next <==> g in Flying(s) || g in s.acked || g in s.gaveUp)
    && (forall g: nat :: !(g in Flying(s) && g in s.acked))
    && (forall g: nat :: !(g in Flying(s) && g in s.gaveUp))
    && (forall g: nat :: !(g in s.acked && g in s.gaveUp))
  }

  ghost predicate Inv(s: Sender) {
    QueueOk(s) && HistoryOk(s) && Conserved(s)
  }

  lemma WireOf(next: nat, g: nat)
    requires g < next <= g + ACK_WINDOW
    ensures WrapSub(next % U32, g % U32) == next - g && Issued(next, g % U32) == g
  {
    WrapSubOf(next, g);
  }

  lemma IdOf(next: nat, id: u32)
    requires WrapSub(next % U32, id) <= next
    ensures Issued(next, id) >= 0 && Issued(next, id) % U32 == id
  {
    var d := WrapSub(next % U32, id);
    if next % U32 >= id {
      assert d == next % U32 - id;
    } else {
      assert d == next % U32 - id + U32;
    }
  }

  /** The slot a flying message occupies. */
  lemma SlotOf(s: Sender, g: nat) returns (k: nat)
    requires g in Flying(s)
    ensures k < |s.q.slots| && s.q.slots[k].Some? && s.q.slots[k].value.id == g % U32
    ensures Issued(s.next, s.q.slots[k].value.id) == g
  {
    k :| 0 <= k < |s.q.slots| && s.q.slots[k].Some? && s.q.slots[k].value.id == g % U32;
    WireOf(s.next, g);
  }

  /** The message a slot holds is flying. */
  lemma SlotFlies(s: Sender, k: nat)
    requires k < |s.q.slots| && s.q.slots[k].Some? && SlotOk(s, s.q.slots[k].value)
    ensures Issued(s.next, s.q.slots[k].value.id) in Flying(s)
    ensures Issued(s.next, s.q.slots[k].value.id) % U32 == s.q.slots[k].value.id
  {
    IdOf(s.next, s.q.slots[k].value.id);
  }

  lemma StartOk()
    ensures Inv(Start())
  {
  }

  lemma {:induction false} DeliveredInRange(cwnd: nat, ssthresh: nat, n: nat)
    requires CWND_FLOOR <= cwnd <= CWND_CEILING
    ensures cwnd <= DeliveredTimes(cwnd, ssthresh, n) <= CWND_CEILING
  {
    if n > 0 { DeliveredInRange(cwnd, ssthresh, n - 1); }
  }

  lemma {:induction false} AckedMembers(slots: seq<Slot>, ack: Ack, n: nat, id: u32)
    requires n <= |slots|
    ensures id in AckedIds(slots, ack, n) <==>
            exists i :: 0 <= i < n && Hit(slots[i], ack) && slots[i].value.id == id
  {
    if n > 0 { AckedMembers(slots, ack, n - 1, id); }
  }

  lemma {:induction false} FoldedTwice(rto: Rto, a: seq<u32>, b: seq<u32>)
    ensures Folded(rto, a + b) == Folded(Folded(rto, a), b)
  {
    if b == [] {
      assert a + b == a;
    } else {
      FoldedTwice(rto, a, b[..|b| - 1]);
      assert (a + b)[..|a + b| - 1] == a + b[..|b| - 1];
    }
  }

  lemma {:induction false} AckedRtoFolds(slots: seq<Slot>, rto: Rto, ack: Ack, now: u64, n: nat)
    requires n <= |slots|
    ensures AckedRto(slots, rto, ack, now, n) == Folded(rto, Samples(slots, ack, now, n))
  {
    if n > 0 {
      AckedRtoFolds(slots, rto, ack, now, n - 1);
      var before := Samples(slots, ack, now, n - 1);
      if Hit(slots[n - 1], ack) && slots[n - 1].value.retries == 0 {
        assert Samples(slots, ack, now, n)[..|before|] == before;
      }
    }
  }

  lemma AckKeeps(s: Sender, ack: Ack, now: u64)
    requires Inv(s)
    ensures Inv(Step(s, OnAck(ack, now)))
  {
    var t := Step(s, OnAck(ack, now));
    var ids := AckedIds(s.q.slots, ack, |s.q.slots|);
    DeliveredInRange(s.q.cwnd, s.q.ssthresh, |ids|);
    AckedRtoFolds(s.q.slots, s.q.rto, ack, now, |s.q.slots|);
    FoldedTwice(FRESH_RTO, s.samples, Samples(s.q.slots, ack, now, |s.q.slots|));
    forall g: nat
      ensures g in Flying(t) <==> g in Flying(s) && g % U32 !in ids
    {
      AckedMembers(s.q.slots, ack, |s.q.slots|, g % U32);
      if g in Flying(s) {
        var k := SlotOf(s, g);
        assert t.q.slots[k] == if Hit(s.q.slots[k], ack) then None else s.q.slots[k];
      }
      if g in Flying(t) {
        var k := SlotOf(t, g);
        assert s.q.slots[k] == t.q.slots[k];
      }
    }
  }

  lemma MovedOn(next: nat, id: u32)
    requires 1 <= WrapSub(next % U32, id) <= next && WrapSub(next % U32, id) < ACK_WINDOW
    ensures WrapSub((next + 1) % U32, id) == WrapSub(next % U32, id) + 1
    ensures Issued(next + 1, id) == Issued(next, id)
    ensures id != next % U32
  {
    IdOf(next, id);
    WireOf(next, Issued(next, id));
    WireOf(next + 1, Issued(next, id));
  }

  /** Registering moves every held message one further behind, never past 64. */
  lemma RegisterSlots(s: Sender, now: u64, i: nat)
    requires Inv(s) && RegisterStep(s.q, now).Ok?
    requires i < |s.q.slots| && s.q.slots[i].Some?
    ensures SlotOk(Step(s, Register(now)), s.q.slots[i].value)
    ensures s.q.slots[i].value.id != s.next % U32
  {
    var id := s.q.slots[i].value.id;
    assert WrapSub(s.q.nextId, id) < ACK_WINDOW;
    MovedOn(s.next, id);
  }

  lemma RegisterFlying(s: Sender, now: u64, g: nat)
    requires Inv(s) && RegisterStep(s.q, now).Ok?
    ensures g in Flying(Step(s, Register(now))) <==> g == s.next || g in Flying(s)
  {
    var t := Step(s, Register(now));
    var k := FirstFree(s.q.slots);
    assert t.q.slots[k].Some? && t.q.slots[k].value.id == s.next % U32;
    if g in Flying(s) {
      var j := SlotOf(s, g);
      RegisterSlots(s, now, j);
      assert t.q.slots[j] == s.q.slots[j];
      WireOf(t.next, g);
    }
    if g in Flying(t) && g != s.next {
      var j := SlotOf(t, g);
      WireOf(t.next, s.next);
      assert s.q.slots[j] == t.q.slots[j];
    }
  }

  lemma RegisterQueueOk(s: Sender, now: u64)
    requires Inv(s) && RegisterStep(s.q, now).Ok?
    ensures QueueOk(Step(s, Register(now)))
  {
    var t := Step(s, Register(now));
    var k := FirstFree(s.q.slots);
    WireOf(t.next, s.next);
    assert SlotOk(t, t.q.slots[k].value);
    forall i | 0 <= i < |s.q.slots| && s.q.slots[i].Some?
      ensures SlotOk(t, s.q.slots[i].value) && s.q.slots[i].value.id != s.next % U32
    {
      RegisterSlots(s, now, i);
    }
  }

  lemma RegisterKeeps(s: Sender, now: u64)
    requires Inv(s)
    ensures Inv(Step(s, Register(now)))
  {
    if RegisterStep(s.q, now).Ok? {
      var t := Step(s, Register(now));
      RegisterQueueOk(s, now);
      forall g: nat
        ensures g in Flying(t) <==> g == s.next || g in Flying(s)
      {
        RegisterFlying(s, now, g);
      }
      forall g | g in t.gaveUp ensures FateOk(t, g) { assert FateOk(s, g); }
    }
  }

  lemma {:induction false} DueMembers(q: Queue, now: u64, room: nat, n: nat, d: Due)
    requires n <= |q.slots|
    ensures d in PollDue(q, now, room, n) <==>
            exists i :: 0 <= i < n && Fires(q, now, room, i) && d == Verdict(q.slots[i].value, q.maxRetries)
  {
    if n > 0 { DueMembers(q, now, room, n - 1, d); }
  }

  /** What a poll reports about a slot's message is what it did to the slot. */
  lemma SlotVerdict(q: Queue, now: u64, room: nat, k: nat)
    requires Distinct(q.slots) && k < |q.slots| && q.slots[k].Some?
    ensures var due, entry := PollDue(q, now, room, |q.slots|), q.slots[k].value;
            && (GaveUp(entry.id) in due <==> Fires(q, now, room, k) && entry.retries >= q.maxRetries)
            && (Resend(entry.id) in due <==> Fires(q, now, room, k) && entry.retries < q.maxRetries)
  {
    var entry := q.slots[k].value;
    DueMembers(q, now, room, |q.slots|, GaveUp(entry.id));
    DueMembers(q, now, room, |q.slots|, Resend(entry.id));
  }

  lemma BackoffFloor(rto: Rto, retries: nat)
    ensures rto.WithBackoff(retries) >= MIN_RTO_MS * Pow2(Min(retries, 5))
  {
    var p := Pow2(Min(retries, 5));
    assert Pow2(5) == 32;
    assert p in {1, 2, 4, 8, 16, 32} by {
      assert Pow2(0) == 1 && Pow2(1) == 2 && Pow2(2) == 4 && Pow2(3) == 8 && Pow2(4) == 16;
    }
    assert rto.Current() * p >= MIN_RTO_MS * p;
  }

  lemma PollFlying(s: Sender, now: u64, room: nat, g: nat)
    requires Inv(s)
    ensures g in Flying(Step(s, Poll(now, room))) <==>
            g in Flying(s) && GaveUp(g % U32) !in PollDue(s.q, now, room, |s.q.slots|)
  {
    var t := Step(s, Poll(now, room));
    if g in Flying(s) {
      var k := SlotOf(s, g);
      SlotVerdict(s.q, now, room, k);
      assert t.q.slots[k] == PolledSlot(s.q, now, room, k);
    }
    if g in Flying(t) {
      var k := SlotOf(t, g);
      assert t.q.slots[k] == PolledSlot(s.q, now, room, k);
      SlotVerdict(s.q, now, room, k);
    }
  }

  /** A slot the poll leaves alone keeps its message's counts. */
  lemma PollIdleSlot(s: Sender, now: u64, room: nat, k: nat)
    requires Inv(s) && k < |s.q.slots| && s.q.slots[k].Some? && !Fires(s.q, now, room, k)
    ensures SlotOk(Step(s, Poll(now, room)), s.q.slots[k].value)
  {
    SlotVerdict(s.q, now, room, k);
    SlotFlies(s, k);
  }

  /** A deadline that respected the schedule so far, met and pushed out by a backoff,
      respects it one retry further. */
  lemma DeadlinePushed(registered: nat, spent: nat, deadline: nat, now: u64, backoff: nat, step: nat)
    requires Min(registered + spent, U64 - 1) <= deadline <= now && step <= backoff
    ensures SaturatingAdd64(now, backoff) >= Min(registered + (step + spent), U64 - 1)
  {
  }

  lemma PollResentSlot(s: Sender, now: u64, room: nat, k: nat)
    requires Inv(s) && k < |s.q.slots| && Fires(s.q, now, room, k) && s.q.slots[k].value.retries < s.q.maxRetries
    ensures SlotOk(Step(s, Poll(now, room)), Retried(s.q.slots[k].value, now, s.q.rto).value)
  {
    SlotVerdict(s.q, now, room, k);
    SlotFlies(s, k);
    var entry := s.q.slots[k].value;
    var g := Issued(s.next, entry.id);
    BackoffFloor(s.q.rto, entry.retries + 1);
    DeadlinePushed(s.registeredAt[g], Schedule(entry.retries), entry.deadline, now,
                   s.q.rto.WithBackoff(entry.retries + 1), MIN_RTO_MS * Pow2(Min(entry.retries + 1, 5)));
  }

  lemma PollSlots(s: Sender, now: u64, room: nat, k: nat)
    requires Inv(s) && k < |s.q.slots|
    ensures var t := Step(s, Poll(now, room));
            t.q.slots[k].Some? ==> SlotOk(t, t.q.slots[k].value)
  {
    var t := Step(s, Poll(now, room));
    assert t.q.slots[k] == PolledSlot(s.q, now, room, k);
    if t.q.slots[k].Some? {
      if Fires(s.q, now, room, k) { PollResentSlot(s, now, room, k); } else { PollIdleSlot(s, now, room, k); }
    }
  }

  lemma PollHistory(s: Sender, now: u64, room: nat, g: nat)
    requires Inv(s) && g in Flying(s)
    ensures var t := Step(s, Poll(now, room));
            t.resent[g] <= s.mostRetries && (g in t.gaveUp ==> FateOk(t, g))
  {
    var k := SlotOf(s, g);
    SlotVerdict(s.q, now, room, k);
  }

  lemma PollQueueOk(s: Sender, now: u64, room: nat)
    requires Inv(s)
    ensures QueueOk(Step(s, Poll(now, room)))
  {
    var t := Step(s, Poll(now, room));
    forall k | 0 <= k < |t.q.slots|
      ensures t.q.slots[k].Some? ==>
                && SlotOk(t, t.q.slots[k].value)
                && s.q.slots[k].Some? && s.q.slots[k].value.id == t.q.slots[k].value.id
    {
      PollSlots(s, now, room, k);
      assert t.q.slots[k] == PolledSlot(s.q, now, room, k);
    }
  }

  lemma PollConserved(s: Sender, now: u64, room: nat)
    requires Inv(s)
    ensures Conserved(Step(s, Poll(now, room)))
  {
    var t := Step(s, Poll(now, room));
    forall g: nat
      ensures g in Flying(t) <==> g in Flying(s) && GaveUp(g % U32) !in PollDue(s.q, now, room, |s.q.slots|)
    {
      PollFlying(s, now, room, g);
    }
  }

  lemma PollHistoryOk(s: Sender, now: u64, room: nat)
    requires Inv(s)
    ensures HistoryOk(Step(s, Poll(now, room)))
  {
    var t := Step(s, Poll(now, room));
    forall g | g in t.resent
      ensures t.resent[g] <= s.mostRetries
    {
      if g in Flying(s) { PollHistory(s, now, room, g); }
    }
    forall g | g in t.gaveUp
      ensures FateOk(t, g)
    {
      if g in Flying(s) { PollHistory(s, now, room, g); } else { assert FateOk(s, g); }
    }
  }

  lemma PollKeeps(s: Sender, now: u64, room: nat)
    requires Inv(s)
    ensures Inv(Step(s, Poll(now, room)))
  {
    PollQueueOk(s, now, room);
    PollConserved(s, now, room);
    PollHistoryOk(s, now, room);
  }

  lemma StepKeeps(s: Sender, call: Call)
    requires Inv(s)
    ensures Inv(Step(s, call))
  {
    match call
    case Register(now) => RegisterKeeps(s, now);
    case OnAck(ack, now) => AckKeeps(s, ack, now);
    case Poll(now, room) => PollKeeps(s, now, room);
    case ForgetPath =>
      assert Flying(Step(s, call)) == Flying(s);
    case SetMaxRetries(_) =>
      assert Flying(Step(s, call)) == Flying(s);
  }

  lemma RunOneMore(calls: seq<Call>, call: Call)
    ensures Run(calls + [call]) == Step(Run(calls), call)
  {
    assert (calls + [call])[..|calls|] == calls;
  }

  lemma {:induction false} RunInv(calls: seq<Call>)
    ensures Inv(Run(calls))
  {
    if calls == [] {
      StartOk();
    } else {
      RunInv(calls[..|calls| - 1]);
      StepKeeps(Run(calls[..|calls| - 1]), calls[|calls| - 1]);
    }
  }

  /** Conservation and identifier distance over every run: each registered message
      is in flight, acknowledged or given up, and in exactly one of the three;
      what is in flight is distinct and 1 to 64 behind the next identifier. */
  lemma EveryMessageIsAccountedFor(calls: seq<Call>)
    ensures var s := Run(calls);
            && Conserved(s)
            && Distinct(s.q.slots)
            && (forall g <- Flying(s) :: 1 <= s.next - g <= ACK_WINDOW)
            && (forall i :: 0 <= i < |s.q.slots| && s.q.slots[i].Some? ==>
                  1 <= WrapSub(s.q.nextId, s.q.slots[i].value.id) <= ACK_WINDOW)
  {
    RunInv(calls);
  }

  lemma {:induction false} ScheduleMonotone(a: nat, b: nat)
    requires a <= b
    ensures Schedule(a) <= Schedule(b)
  {
    if a < b { ScheduleMonotone(a, b - 1); }
  }

  /** The whole of that time in closed form: 20 * (2^(min(R, 5) + 1) - 1) + 640 * max(R - 5, 0). */
  function Budget(retries: nat): nat {
    MIN_RTO_MS * (Pow2(Min(retries, 5) + 1) - 1) + 640 * (if retries > 5 then retries - 5 else 0)
  }

  lemma {:induction false} ScheduleClosed(retries: nat)
    ensures Schedule(retries) == Budget(retries)
  {
    if retries > 0 {
      ScheduleClosed(retries - 1);
      assert retries > 5 ==> Pow2(5) == 32;
    }
  }

  /** The message was resent at least up to the limit it was given up under and never past the
      largest limit there has been, and not given up before the limit's whole time. */
  ghost predicate OnSchedule(s: Sender, g: nat)
    requires g in s.gaveUp
  {
    && g in s.registeredAt && g in s.resent
    && s.gaveUp[g].limit <= s.resent[g] <= s.mostRetries
    && s.gaveUp[g].at >= Min(s.registeredAt[g] + Budget(s.gaveUp[g].limit), U64 - 1)
  }

  lemma FateOnSchedule(s: Sender, g: nat)
    requires Inv(s) && g in s.gaveUp
    ensures OnSchedule(s, g)
  {
    assert FateOk(s, g);
    ScheduleMonotone(s.gaveUp[g].limit, s.resent[g]);
    ScheduleClosed(s.gaveUp[g].limit);
  }

  /** No message is given up before its retries have had their time, whatever
      round trips are measured, whatever path resets happen and however the clock
      jumps; only a clock at the end of its 64 bits cuts the wait short. */
  lemma AbandonmentSchedule(calls: seq<Call>, g: nat)
    requires g in Run(calls).gaveUp
    ensures OnSchedule(Run(calls), g)
  {
    RunInv(calls);
    FateOnSchedule(Run(calls), g);
  }

  /** One limit for every message so far: none resent more often, none given up under another. */
  ghost predicate Limited(s: Sender, limit: nat) {
    && s.q.maxRetries == limit
    && (forall g <- s.resent :: s.resent[g] <= limit)
    && (forall g <- s.gaveUp :: s.gaveUp[g].limit == limit)
  }

  lemma PollLimited(s: Sender, now: u64, room: nat, limit: nat, g: nat)
    requires Inv(s) && Limited(s, limit) && g in s.resent
    ensures Step(s, Poll(now, room)).resent[g] <= limit
  {
    if g in Flying(s) {
      var k := SlotOf(s, g);
      SlotVerdict(s.q, now, room, k);
      assert SlotOk(s, s.q.slots[k].value);
    }
  }

  lemma StepLimited(s: Sender, call: Call, limit: nat)
    requires Inv(s) && Limited(s, limit) && !call.SetMaxRetries?
    ensures Limited(Step(s, call), limit)
  {
    if call.Poll? {
      forall g <- s.resent ensures Step(s, call).resent[g] <= limit { PollLimited(s, call.now, call.room, limit, g); }
    }
  }

  lemma {:induction false} RunLimited(calls: seq<Call>, n: nat, limit: nat)
    requires n <= |calls| && Limited(Run(calls[..n]), limit)
    requires forall i :: n <= i < |calls| ==> !calls[i].SetMaxRetries?
    ensures Limited(Run(calls), limit)
    decreases |calls|
  {
    if n < |calls| {
      var front := calls[..|calls| - 1];
      assert front[..n] == calls[..n];
      RunLimited(front, n, limit);
      RunInv(front);
      StepLimited(Run(front), calls[|calls| - 1], limit);
    } else {
      assert calls[..n] == calls;
    }
  }

  /** What one limit means for a message: resent at most so often, given up only after exactly
      so many resends and all the time they take. */
  ghost predicate OnBudget(s: Sender, g: nat, limit: nat) {
    && g in s.resent && g in s.registeredAt && s.resent[g] <= limit
    && (g in s.gaveUp ==>
          s.resent[g] == limit && s.gaveUp[g].at >= Min(s.registeredAt[g] + Budget(limit), U64 - 1))
  }

  lemma LimitedOnBudget(s: Sender, g: nat, limit: nat)
    requires Inv(s) && Limited(s, limit) && g < s.next
    ensures OnBudget(s, g, limit)
  {
    if g in s.gaveUp { FateOnSchedule(s, g); }
  }

  lemma LimitSet(attempts: u8)
    ensures Limited(Run([SetMaxRetries(attempts)]), Max(attempts, 1))
  {
    assert [SetMaxRetries(attempts)][..0] == [];
    assert Run([SetMaxRetries(attempts)]) == Step(Start(), SetMaxRetries(attempts));
  }

  /** The budget for every limit: once it is set, at the start, to `attempts`, raised to one at
      the least, and left alone, every message keeps to it, whatever else happens. */
  lemma FixedBudget(attempts: u8, rest: seq<Call>, g: nat)
    requires forall i :: 0 <= i < |rest| ==> !rest[i].SetMaxRetries?
    requires g < Run([SetMaxRetries(attempts)] + rest).next
    ensures OnBudget(Run([SetMaxRetries(attempts)] + rest), g, Max(attempts, 1))
  {
    var calls := [SetMaxRetries(attempts)] + rest;
    assert calls[..1] == [SetMaxRetries(attempts)];
    LimitSet(attempts);
    RunLimited(calls, 1, Max(attempts, 1));
    RunInv(calls);
    LimitedOnBudget(Run(calls), g, Max(attempts, 1));
  }

  lemma {:induction false} DefaultIsFive(calls: seq<Call>)
    ensures Run([SetMaxRetries(MAX_RETRIES)] + calls) == Run(calls)
  {
    var all := [SetMaxRetries(MAX_RETRIES)] + calls;
    if calls == [] {
      assert all[..0] == [];
    } else {
      DefaultIsFive(calls[..|calls| - 1]);
      assert all[..|all| - 1] == [SetMaxRetries(MAX_RETRIES)] + calls[..|calls| - 1];
    }
  }

  /** With the limit left at its default of five, a message is resent at most five times, is
      abandoned only after exactly five, and no sooner than 1.26 s after it was registered. */
  lemma DefaultBudget(calls: seq<Call>, g: nat)
    requires forall i :: 0 <= i < |calls| ==> !calls[i].SetMaxRetries?
    requires g < Run(calls).next
    ensures OnBudget(Run(calls), g, 5) && Budget(5) == 1260
  {
    DefaultIsFive(calls);
    FixedBudget(MAX_RETRIES, calls, g);
    assert Pow2(6) == 64 by { assert Pow2(3) == 8; }
  }

  lemma {:induction false} FoldedInRange(samples: seq<u32>, lo: nat, hi: nat)
    requires samples != []
    requires forall i :: 0 <= i < |samples| ==> lo <= samples[i] <= hi
    ensures var rto := Folded(FRESH_RTO, samples);
            rto.smoothed.Some? && lo <= rto.smoothed.value <= hi
  {
    var before := samples[..|samples| - 1];
    if before != [] { FoldedInRange(before, lo, hi); }
  }

  /** Over every run the smoothed round trip stays within the measurements taken on
      the current path, the timeout within 20 ms to 5 s, and both congestion
      limits within 2 to 32 messages. */
  lemma EstimatorInRange(calls: seq<Call>, lo: nat, hi: nat)
    requires forall i :: 0 <= i < |Run(calls).samples| ==> lo <= Run(calls).samples[i] <= hi
    ensures var s := Run(calls);
            && WindowsInRange(s.q)
            && MIN_CWND <= s.q.Window() <= MAX_IN_FLIGHT
            && MIN_RTO_MS <= s.q.rto.Current() <= MAX_RTO_MS
            && (s.samples == [] <==> s.q.rto.smoothed.None?)
            && (s.samples != [] ==> lo <= s.q.rto.smoothed.value <= hi)
  {
    RunInv(calls);
    if Run(calls).samples != [] { FoldedInRange(Run(calls).samples, lo, hi); }
  }

  /** The slots never refuse what both windows allow: once the overrun check and the
      congestion check pass, a free slot is found. */
  lemma RegisterFindsASlot(calls: seq<Call>, now: u64)
    ensures var q := Run(calls).q;
            RegisterStep(q, now).Ok? <==> !q.Overrun() && Occupied(q.slots) < q.Window()
  {
    RunInv(calls);
    var q := Run(calls).q;
    if FirstFree(q.slots) == |q.slots| { AllOccupied(q.slots); }
  }

  lemma {:induction false} AllOccupied(slots: seq<Slot>)
    requires forall i :: 0 <= i < |slots| ==> slots[i].Some?
    ensures Occupied(slots) == |slots|
  {
    if slots != [] { AllOccupied(slots[..|slots| - 1]); }
  }

  /** Congestion avoidance: at or above the threshold, one window's worth of
      deliveries widens the window by at most one message. */
  lemma AvoidanceAddsAtMostOne(cwnd: nat, ssthresh: nat, n: nat)
    requires CWND_FLOOR <= cwnd <= CWND_CEILING && ssthresh <= cwnd
    requires n <= cwnd / CWND_SCALE
    ensures DeliveredTimes(cwnd, ssthresh, n) <= cwnd + CWND_SCALE
  {
    var step := CWND_SCALE * CWND_SCALE / cwnd;
    AvoidanceSum(cwnd, ssthresh, n, step);
    WindowOfSteps(n, step, cwnd);
  }

  lemma WindowOfSteps(n: nat, step: nat, cwnd: nat)
    requires CWND_SCALE * n <= cwnd && step * cwnd <= CWND_SCALE * CWND_SCALE
    ensures n * step <= CWND_SCALE
  {
    MulMono(step, CWND_SCALE * n, cwnd);
    assert step * (CWND_SCALE * n) == CWND_SCALE * (n * step);
  }

  /** One delivery above the threshold adds at most `256 * 256 / from` to any window
      grown from `from`. */
  lemma AvoidanceStep(from: nat, cwnd: nat, ssthresh: nat)
    requires CWND_FLOOR <= from <= cwnd <= CWND_CEILING && ssthresh <= cwnd
    ensures cwnd <= Delivered(cwnd, ssthresh) <= cwnd + CWND_SCALE * CWND_SCALE / from
  {
    DivAnti(CWND_SCALE * CWND_SCALE, from, cwnd);
    DivAnti(CWND_SCALE * CWND_SCALE, cwnd, CWND_CEILING);
  }

  lemma {:induction false} AvoidanceSum(cwnd: nat, ssthresh: nat, n: nat, step: nat)
    requires CWND_FLOOR <= cwnd <= CWND_CEILING && ssthresh <= cwnd
    requires step == CWND_SCALE * CWND_SCALE / cwnd
    ensures cwnd <= DeliveredTimes(cwnd, ssthresh, n) <= cwnd + n * step
  {
    if n > 0 {
      AvoidanceSum(cwnd, ssthresh, n - 1, step);
      var before := DeliveredTimes(cwnd, ssthresh, n - 1);
      DeliveredInRange(cwnd, ssthresh, n - 1);
      AvoidanceStep(cwnd, before, ssthresh);
      assert DeliveredTimes(cwnd, ssthresh, n) <= before + step;
      OneMore(n, step);
    }
  }

  lemma OneMore(n: nat, step: nat)
    requires n > 0
    ensures n * step == (n - 1) * step + step
  {
  }
}
