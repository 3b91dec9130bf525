/** When a message is resent: the timeout of RFC 6298 worked out from the round trips measured,
    the deadlines it sets, and what loss and delivery do to the congestion window. */
module Timing {
  import opened Bits
  import opened Outcomes
  import opened Dedup
  import opened Retransmit
  import opened SenderRuns

  // ---- The estimate ------------------------------------------------------------------------

  function Apart(a: nat, b: nat): nat {
    if a < b then b - a else a - b
  }

  /** Section 2 of RFC 6298, in whole milliseconds: the smoothed round trip and its deviation
      after each measurement, the one with gain 1/8 and the other with gain 1/4. */
  ghost predicate Follows(samples: seq<u32>, srtt: seq<nat>, dev: seq<nat>) {
    && |srtt| == |samples| && |dev| == |samples|
    && (samples != [] ==> srtt[0] == samples[0] && 2 * dev[0] <= samples[0] < 2 * dev[0] + 2)
    && (forall i :: 0 < i < |samples| ==> FollowsAt(samples[i], srtt[i - 1], dev[i - 1], srtt[i], dev[i]))
  }

  predicate FollowsAt(r: u32, srtt: nat, dev: nat, srtt': nat, dev': nat) {
    && 8 * srtt' <= 7 * srtt + r < 8 * srtt' + 8
    && 4 * dev' <= 3 * dev + Apart(srtt, r) < 4 * dev' + 4
  }

  /** 200 ms before any measurement; the smoothed round trip and four deviations after, kept
      within 20 ms and 5 s. */
  function Timeout(srtt: seq<nat>, dev: seq<nat>): nat
    requires |dev| == |srtt|
  {
    if srtt == [] then 200
    else
      var ms := srtt[|srtt| - 1] + 4 * dev[|dev| - 1];
      if ms < 20 then 20 else if ms > 5000 then 5000 else ms
  }

  lemma {:induction false} Estimated(samples: seq<u32>) returns (srtt: seq<nat>, dev: seq<nat>)
    ensures Follows(samples, srtt, dev)
    ensures var rto := Folded(FRESH_RTO, samples);
            if samples == [] then rto == FRESH_RTO
            else rto.smoothed == Some(srtt[|srtt| - 1]) && rto.variation == dev[|dev| - 1]
  {
    if samples == [] {
      srtt, dev := [], [];
    } else {
      var front, r := samples[..|samples| - 1], samples[|samples| - 1];
      var a, b := Estimated(front);
      var rto := Folded(FRESH_RTO, samples);
      if front != [] { SampleFollows(Folded(FRESH_RTO, front), r); }
      srtt, dev := a + [rto.smoothed.value], b + [rto.variation];
    }
  }

  lemma SampleFollows(rto: Rto, r: u32)
    requires rto.smoothed.Some?
    ensures var after := rto.Sample(r);
            after.smoothed.Some? && FollowsAt(r, rto.smoothed.value, rto.variation, after.smoothed.value, after.variation)
  {
  }

  /** The timeout in every run, from the round trips measured on the current path alone. */
  lemma TimeoutInRuns(calls: seq<Call>) returns (srtt: seq<nat>, dev: seq<nat>)
    ensures Follows(Run(calls).samples, srtt, dev) && Run(calls).q.rto.Current() == Timeout(srtt, dev)
  {
    RunInv(calls);
    srtt, dev := Estimated(Run(calls).samples);
  }

  // ---- What is measured ----------------------------------------------------------------------

  function Elapsed(from: nat, now: u64): u32 {
    Min(SaturatingSub(now, from), U32 - 1)
  }

  ghost predicate Measures(s: Sender, ack: Ack, g: nat) {
    g in Flying(s) && ack.Covers(g % U32) && g in s.resent && s.resent[g] == 0
  }

  /** The messages measured by the first `n` slots, and what each adds. */
  lemma {:induction false} MeasuredBy(s: Sender, ack: Ack, now: u64, n: nat) returns (gs: seq<nat>)
    requires Inv(s) && n <= |s.q.slots|
    ensures |Samples(s.q.slots, ack, now, n)| == |gs|
    ensures forall k :: 0 <= k < |gs| ==>
              && Measures(s, ack, gs[k]) && gs[k] in s.registeredAt
              && Samples(s.q.slots, ack, now, n)[k] == Elapsed(s.registeredAt[gs[k]], now)
    ensures forall i :: 0 <= i < n && Hit(s.q.slots[i], ack) && s.q.slots[i].value.retries == 0 ==>
              Issued(s.next, s.q.slots[i].value.id) in gs
    ensures forall k :: 0 <= k < |gs| ==> HeldBy(s, n, gs[k])
    ensures forall j, k :: 0 <= j < k < |gs| ==> gs[j] != gs[k]
  {
    if n == 0 {
      gs := [];
    } else {
      gs := MeasuredBy(s, ack, now, n - 1);
      var slot := s.q.slots[n - 1];
      if Hit(slot, ack) && slot.value.retries == 0 {
        assert SlotOk(s, slot.value);
        SlotFlies(s, n - 1);
        var g := Issued(s.next, slot.value.id);
        assert Holding(s, n - 1, g);
        forall k | 0 <= k < |gs| ensures gs[k] != g {
          assert HeldBy(s, n - 1, gs[k]);
        }
        StillHeld(s, n, gs);
        gs := gs + [g];
      } else {
        StillHeld(s, n, gs);
      }
    }
  }

  predicate Holding(s: Sender, i: nat, g: nat) {
    i < |s.q.slots| && s.q.slots[i].Some? && s.q.slots[i].value.id == g % U32
  }

  ghost predicate HeldBy(s: Sender, n: nat, g: nat) {
    exists i :: 0 <= i < n && Holding(s, i, g)
  }

  lemma StillHeld(s: Sender, n: nat, gs: seq<nat>)
    requires n > 0 && forall k :: 0 <= k < |gs| ==> HeldBy(s, n - 1, gs[k])
    ensures forall k :: 0 <= k < |gs| ==> HeldBy(s, n, gs[k])
  {
    forall k | 0 <= k < |gs| ensures HeldBy(s, n, gs[k]) {
      var i :| 0 <= i < n - 1 && Holding(s, i, gs[k]);
    }
  }

  /** Each acknowledgement measures, once each, exactly the messages it covers that were never
      resent (Karn's algorithm), from when each was registered. */
  lemma NeverResentAreMeasured(calls: seq<Call>, ack: Ack, now: u64) returns (gs: seq<nat>)
    ensures var s, t := Run(calls), Run(calls + [OnAck(ack, now)]);
            && |t.samples| == |s.samples| + |gs| && s.samples <= t.samples
            && (forall j, k :: 0 <= j < k < |gs| ==> gs[j] != gs[k])
            && (forall g: nat :: g in gs <==> Measures(s, ack, g))
            && (forall k :: 0 <= k < |gs| ==>
                  gs[k] in s.registeredAt && t.samples[|s.samples| + k] == Elapsed(s.registeredAt[gs[k]], now))
  {
    RunInv(calls);
    RunOneMore(calls, OnAck(ack, now));
    var s := Run(calls);
    gs := MeasuredBy(s, ack, now, |s.q.slots|);
    forall g: nat | Measures(s, ack, g) ensures g in gs {
      var k := SlotOf(s, g);
      assert SlotOk(s, s.q.slots[k].value);
    }
  }

  // ---- Deadlines -------------------------------------------------------------------------------

  /** A message registered is due again after the timeout. */
  lemma RegisteredIsDueLater(calls: seq<Call>, now: u64) returns (srtt: seq<nat>, dev: seq<nat>, k: nat)
    requires RegisterStep(Run(calls).q, now).Ok?
    ensures Follows(Run(calls).samples, srtt, dev)
    ensures var s, t := Run(calls), Run(calls + [Register(now)]);
            && Holding(t, k, s.next) && t.next == s.next + 1
            && t.q.slots[k].value.deadline == Min(now + Timeout(srtt, dev), U64 - 1)
  {
    srtt, dev := TimeoutInRuns(calls);
    RunOneMore(calls, Register(now));
    RunInv(calls);
    k := FirstFree(Run(calls).q.slots);
  }

  /** With room for all, a poll reports exactly the messages whose time has come: given up if
      they have been resent to the limit, to be resent if not. */
  lemma OverdueIsReported(calls: seq<Call>, now: u64, room: nat, k: nat)
    requires room >= MAX_IN_FLIGHT && k < |Run(calls).q.slots| && Run(calls).q.slots[k].Some?
    ensures var s := Run(calls);
            var due, entry := PollDue(s.q, now, room, |s.q.slots|), s.q.slots[k].value;
            && (GaveUp(entry.id) in due <==> entry.deadline <= now && entry.retries >= s.q.maxRetries)
            && (Resend(entry.id) in due <==> entry.deadline <= now && entry.retries < s.q.maxRetries)
  {
    RunInv(calls);
    var s := Run(calls);
    SlotVerdict(s.q, now, room, k);
    AtMostOneEach(s.q, now, room, k);
  }

  lemma {:induction false} AtMostOneEach(q: Queue, now: u64, room: nat, n: nat)
    requires n <= |q.slots|
    ensures |PollDue(q, now, room, n)| <= n
  {
    if n > 0 { AtMostOneEach(q, now, room, n - 1); }
  }

  /** A timeout doubled for each resend, five times at most, and no more than five seconds. */
  function Doubled(timeout: nat, retries: nat): nat {
    Min(timeout * Pow2(Min(retries, 5)), 5000)
  }

  /** Slot `k` holds message `g` before and after a poll, which puts its deadline `wait` from now
      if it reports it for resending and leaves it alone if not. */
  ghost predicate PutOff(s: Sender, t: Sender, now: u64, room: nat, g: nat, k: nat, wait: nat) {
    && Holding(s, k, g) && Holding(t, k, g)
    && t.q.slots[k].value.deadline ==
         if Resend(g % U32) in PollDue(s.q, now, room, |s.q.slots|)
         then Min(now + wait, U64 - 1)
         else s.q.slots[k].value.deadline
  }

  /** One that is resent is due again after the timeout doubled for each resend, five times at
      most, and no later than five seconds on; one that is not keeps its deadline. */
  lemma ResentIsDueLater(calls: seq<Call>, now: u64, room: nat, g: nat) returns (srtt: seq<nat>, dev: seq<nat>, k: nat)
    requires g in Flying(Run(calls)) && GaveUp(g % U32) !in PollDue(Run(calls).q, now, room, |Run(calls).q.slots|)
    ensures Follows(Run(calls).samples, srtt, dev)
    ensures g in Run(calls).resent
    ensures PutOff(Run(calls), Run(calls + [Poll(now, room)]), now, room, g, k,
                   Doubled(Timeout(srtt, dev), Run(calls).resent[g] + 1))
  {
    srtt, dev := TimeoutInRuns(calls);
    RunOneMore(calls, Poll(now, room));
    RunInv(calls);
    k := PolledTo(Run(calls), now, room, g);
    Backoff(Run(calls).q.rto, Timeout(srtt, dev), Run(calls).resent[g] + 1);
  }

  lemma PolledTo(s: Sender, now: u64, room: nat, g: nat) returns (k: nat)
    requires Inv(s) && g in Flying(s) && GaveUp(g % U32) !in PollDue(s.q, now, room, |s.q.slots|)
    ensures var t := Step(s, Poll(now, room));
            g in s.resent && PutOff(s, t, now, room, g, k, s.q.rto.WithBackoff(s.resent[g] + 1))
  {
    k := SlotOf(s, g);
    SlotVerdict(s.q, now, room, k);
    assert SlotOk(s, s.q.slots[k].value);
    assert Step(s, Poll(now, room)).q.slots[k] == PolledSlot(s.q, now, room, k);
  }

  lemma Backoff(rto: Rto, timeout: nat, retries: nat)
    requires rto.Current() == timeout
    ensures rto.WithBackoff(retries) == Doubled(timeout, retries)
  {
    DoubledFits(timeout, retries);
  }

  lemma DoubledFits(timeout: nat, retries: nat)
    requires timeout <= 5000
    ensures timeout * Pow2(Min(retries, 5)) < U32
  {
    var p := Pow2(Min(retries, 5));
    assert p <= 32 by {
      assert Pow2(5) == 32 && Pow2(0) == 1 && Pow2(1) == 2 && Pow2(2) == 4 && Pow2(3) == 8 && Pow2(4) == 16;
    }
    assert timeout * p <= 5000 * 32;
  }

  /** A new path: nothing measured, the window four messages wide and free to double, and what
      is in flight still in flight. */
  lemma NewPathStartsAfresh(calls: seq<Call>)
    ensures var s, t := Run(calls), Run(calls + [ForgetPath]);
            && t.samples == [] && t.q.rto.Current() == 200 && t.q.cwnd == 4 * 256 && t.q.ssthresh == 32 * 256
            && t.q.slots == s.q.slots && t.q.maxRetries == s.q.maxRetries && t.q.nextId == s.q.nextId
  {
    RunOneMore(calls, ForgetPath);
  }

  /** And so does a queue: four messages can be registered before any is acknowledged, and no
      fifth. */
  lemma FourToBeginWith(now: u64)
    ensures var one, two, three, four :=
              Step(Start(), Register(now)), Step(Step(Start(), Register(now)), Register(now)),
              Step(Step(Step(Start(), Register(now)), Register(now)), Register(now)),
              Step(Step(Step(Step(Start(), Register(now)), Register(now)), Register(now)), Register(now));
            one.next == 1 && two.next == 2 && three.next == 3 && four.next == 4 && Step(four, Register(now)) == four
  {
    var s := Start();
    StartOk();
    NoneOccupied(s.q.slots);
    OpenTo(s, 0, now);
    OpenTo(Step(s, Register(now)), 1, now);
    OpenTo(Step(Step(s, Register(now)), Register(now)), 2, now);
    OpenTo(Step(Step(Step(s, Register(now)), Register(now)), Register(now)), 3, now);
  }

  /** A queue that has had `n` messages registered and nothing else. */
  ghost predicate Opening(s: Sender, n: nat) {
    Inv(s) && s.next == n && s.q.cwnd == 1024 && Occupied(s.q.slots) == n
  }

  lemma OpenTo(s: Sender, n: nat, now: u64)
    requires Opening(s, n) && n < 4
    ensures Opening(Step(s, Register(now)), n + 1)
    ensures n == 3 ==> Step(Step(s, Register(now)), Register(now)) == Step(s, Register(now))
  {
    RegisterKeeps(s, now);
    FreeWhile(s);
    OneMoreOccupied(s.q.slots, FirstFree(s.q.slots), Step(s, Register(now)).q.slots[FirstFree(s.q.slots)]);
  }

  lemma {:induction false} NoneOccupied(slots: seq<Slot>)
    requires forall i :: 0 <= i < |slots| ==> slots[i].None?
    ensures Occupied(slots) == 0
  {
    if slots != [] { NoneOccupied(slots[..|slots| - 1]); }
  }

  lemma FreeWhile(s: Sender)
    requires Inv(s) && s.next < 4 && Occupied(s.q.slots) < 4
    ensures FirstFree(s.q.slots) < |s.q.slots| && !s.q.Overrun()
  {
    if FirstFree(s.q.slots) == |s.q.slots| { AllOccupied(s.q.slots); }
  }

  lemma {:induction false} OneMoreOccupied(slots: seq<Slot>, k: nat, slot: Slot)
    requires k < |slots| && slots[k].None? && slot.Some?
    ensures Occupied(slots[k := slot]) == Occupied(slots) + 1
  {
    var after := slots[k := slot];
    if k < |slots| - 1 {
      OneMoreOccupied(slots[..|slots| - 1], k, slot);
      assert after[..|slots| - 1] == slots[..|slots| - 1][k := slot];
    } else {
      assert after[..k] == slots[..k];
    }
  }

  // ---- The congestion window ------------------------------------------------------------------

  /** A pass that resends anything halves the threshold, down to two messages at the least, and
      leaves a window of two; one that resends nothing changes neither. */
  lemma LossHalvesTheWindow(calls: seq<Call>, now: u64, room: nat)
    ensures var s, t := Run(calls), Run(calls + [Poll(now, room)]);
            var lossy := exists d :: d in PollDue(s.q, now, room, |s.q.slots|) && d.Resend?;
            && (lossy ==> t.q.cwnd == 512 && 2 * t.q.ssthresh <= Max(s.q.cwnd, 1024) < 2 * t.q.ssthresh + 2)
            && (!lossy ==> t.q.cwnd == s.q.cwnd && t.q.ssthresh == s.q.ssthresh)
  {
    RunOneMore(calls, Poll(now, room));
    var due := PollDue(Run(calls).q, now, room, |Run(calls).q.slots|);
    if d :| d in due && d.Resend? {
      var i :| 0 <= i < |due| && due[i] == d;
    }
  }

  /** Below the threshold every message acknowledged widens the window by one. */
  lemma {:induction false} SlowStartAddsOneEach(cwnd: nat, ssthresh: nat, n: nat)
    requires cwnd + 256 * n <= ssthresh + 255 && cwnd + 256 * n <= CWND_CEILING
    ensures DeliveredTimes(cwnd, ssthresh, n) == cwnd + 256 * n
  {
    if n > 0 { SlowStartAddsOneEach(cwnd, ssthresh, n - 1); }
  }

  /** At or above it, one acknowledged message widens it by one part in as many as it holds. */
  lemma AvoidanceAddsItsShare(cwnd: nat, ssthresh: nat)
    requires CWND_FLOOR <= cwnd <= CWND_CEILING && ssthresh <= cwnd
    ensures var wider := Delivered(cwnd, ssthresh);
            && wider <= CWND_CEILING && (wider - cwnd) * cwnd <= 256 * 256
            && (wider < CWND_CEILING ==> (wider - cwnd + 1) * cwnd > 256 * 256)
  {
    var share := 256 * 256 / cwnd;
    assert share * cwnd <= 256 * 256 < (share + 1) * cwnd;
    assert share >= 1 by { DivAnti(256 * 256, cwnd, CWND_CEILING); }
    var added := Delivered(cwnd, ssthresh) - cwnd;
    if added < share { MulMono(cwnd, added, share); }
  }

  lemma {:induction false} RemovedBy(s: Sender, ack: Ack, n: nat) returns (gs: seq<nat>)
    requires Inv(s) && n <= |s.q.slots|
    ensures |gs| == |AckedIds(s.q.slots, ack, n)|
    ensures forall k :: 0 <= k < |gs| ==>
              gs[k] in Flying(s) && gs[k] % U32 == AckedIds(s.q.slots, ack, n)[k] && HeldBy(s, n, gs[k])
    ensures forall j, k :: 0 <= j < k < |gs| ==> gs[j] != gs[k]
  {
    if n == 0 {
      gs := [];
    } else {
      gs := RemovedBy(s, ack, n - 1);
      StillHeld(s, n, gs);
      if Hit(s.q.slots[n - 1], ack) {
        assert SlotOk(s, s.q.slots[n - 1].value);
        SlotFlies(s, n - 1);
        var g := Issued(s.next, s.q.slots[n - 1].value.id);
        assert Holding(s, n - 1, g);
        gs := gs + [g];
      }
    }
  }

  function SetOf(gs: seq<nat>): set<nat> {
    set g | g in gs
  }

  lemma {:induction false} DistinctSize(gs: seq<nat>)
    requires forall j, k :: 0 <= j < k < |gs| ==> gs[j] != gs[k]
    ensures |SetOf(gs)| == |gs|
  {
    if gs != [] {
      var front, last := gs[..|gs| - 1], gs[|gs| - 1];
      DistinctSize(front);
      assert gs == front + [last] && last !in SetOf(front);
      assert SetOf(gs) == SetOf(front) + {last};
    }
  }

  lemma RemovedOnce(s: Sender, ack: Ack)
    requires Inv(s)
    ensures |set g | g in Flying(s) && g % U32 in AckedIds(s.q.slots, ack, |s.q.slots|)|
            == |AckedIds(s.q.slots, ack, |s.q.slots|)|
  {
    var ids := AckedIds(s.q.slots, ack, |s.q.slots|);
    var gs := RemovedBy(s, ack, |s.q.slots|);
    var removed := set g | g in Flying(s) && g % U32 in ids;
    forall g | g in removed ensures g in gs {
      var k :| 0 <= k < |ids| && ids[k] == g % U32;
      WireOf(s.next, g);
      WireOf(s.next, gs[k]);
    }
    assert removed == SetOf(gs);
    DistinctSize(gs);
  }

  /** An acknowledgement widens the window once for each message it removes. */
  lemma AckWidensOnceEach(calls: seq<Call>, ack: Ack, now: u64)
    ensures var s, t := Run(calls), Run(calls + [OnAck(ack, now)]);
            t.q.cwnd == DeliveredTimes(s.q.cwnd, s.q.ssthresh, |t.acked - s.acked|) && t.q.ssthresh == s.q.ssthresh
  {
    RunInv(calls);
    RunOneMore(calls, OnAck(ack, now));
    var s := Run(calls);
    RemovedOnce(s, ack);
    assert Run(calls + [OnAck(ack, now)]).acked - s.acked
           == set g | g in Flying(s) && g % U32 in AckedIds(s.q.slots, ack, |s.q.slots|);
  }
}
