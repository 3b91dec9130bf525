/** The reliability queue seen as a `Link`: registration, acknowledgement and polling do to
    the sets of messages exactly what the pipeline takes them to do. */
module LinkRuns {
  import opened Bits
  import opened Outcomes
  import opened Dedup
  import opened Retransmit
  import opened SenderRuns
  import Pipeline
  import PipelineRuns

  function LinkOf(s: Sender): Pipeline.Link {
    Pipeline.Link(s.next, Flying(s), s.acked, s.gaveUp.Keys)
  }

  lemma RegisterIsRegistered(s: Sender, now: u64)
    requires Inv(s)
    ensures var t := Step(s, Register(now));
            LinkOf(t) == if RegisterStep(s.q, now).Ok? then LinkOf(s).Registered() else LinkOf(s)
  {
    if RegisterStep(s.q, now).Ok? {
      forall g: nat ensures g in Flying(Step(s, Register(now))) <==> g in Flying(s) + {s.next} {
        RegisterFlying(s, now, g);
      }
    }
  }

  /** The messages in flight that an acknowledgement reports. */
  function Covered(s: Sender, ack: Ack): set<nat> {
    set g | g in Flying(s) && g % U32 in AckedIds(s.q.slots, ack, |s.q.slots|)
  }

  lemma AckIsAcked(s: Sender, ack: Ack, now: u64)
    requires Inv(s)
    ensures Covered(s, ack) <= Flying(s)
    ensures LinkOf(Step(s, OnAck(ack, now))) == LinkOf(s).Acked(Covered(s, ack))
  {
    var t := Step(s, OnAck(ack, now));
    AckKeeps(s, ack, now);
    forall g: nat ensures g in Flying(t) <==> g in Flying(s) - Covered(s, ack) {
      if g in Flying(t) {
        var k := SlotOf(t, g);
        assert s.q.slots[k] == t.q.slots[k];
      }
    }
  }

  /** A reported item, its identifier unwrapped. */
  function Unwrapped(s: Sender, d: Due): Pipeline.Due {
    var g := SaturatingSub(s.next, WrapSub(s.next % U32, d.id));
    if d.Resend? then Pipeline.Resend(g) else Pipeline.GaveUp(g)
  }

  /** What a poll reports, item by item. */
  function Items(s: Sender, now: u64, room: nat): seq<Pipeline.Due> {
    var due := PollDue(s.q, now, room, |s.q.slots|);
    seq(|due|, i requires 0 <= i < |due| => Unwrapped(s, due[i]))
  }

  /** Each reported item names a message in flight. */
  lemma DueFlies(s: Sender, now: u64, room: nat, d: Due)
    requires Inv(s) && d in PollDue(s.q, now, room, |s.q.slots|)
    ensures Unwrapped(s, d).id in Flying(s) && Unwrapped(s, d).id % U32 == d.id
  {
    DueMembers(s.q, now, room, |s.q.slots|, d);
    var i :| 0 <= i < |s.q.slots| && Fires(s.q, now, room, i) && d == Verdict(s.q.slots[i].value, s.q.maxRetries);
    assert SlotOk(s, s.q.slots[i].value);
    SlotFlies(s, i);
  }

  ghost predicate OneEach(due: seq<Due>) {
    forall i, j :: 0 <= i < j < |due| ==> due[i].id != due[j].id
  }

  lemma {:induction false} DueOnce(q: Queue, now: u64, room: nat, n: nat)
    requires n <= |q.slots| && Distinct(q.slots)
    ensures OneEach(PollDue(q, now, room, n))
    ensures forall d <- PollDue(q, now, room, n) :: exists i :: 0 <= i < n && q.slots[i].Some? && q.slots[i].value.id == d.id
  {
    if n > 0 {
      DueOnce(q, now, room, n - 1);
      var front := PollDue(q, now, room, n - 1);
      if Fires(q, now, room, n - 1) {
        var last := Verdict(q.slots[n - 1].value, q.maxRetries);
        forall k | 0 <= k < |front| ensures front[k].id != last.id {
          assert front[k] in front;
          var i :| 0 <= i < n - 1 && q.slots[i].Some? && q.slots[i].value.id == front[k].id;
        }
        assert q.slots[n - 1].Some? && q.slots[n - 1].value.id == last.id;
      }
    }
  }

  /** `due` is what the poll reported, item by item. */
  ghost predicate Names(s: Sender, due: seq<Due>, items: seq<Pipeline.Due>) {
    |items| == |due| && forall i :: 0 <= i < |due| ==> NamesOne(due[i], items[i])
  }

  predicate NamesOne(d: Due, item: Pipeline.Due) {
    d.id == item.id % U32 && (d.Resend? <==> item.Resend?)
  }

  lemma UnwrapDue(s: Sender, now: u64, room: nat)
    requires Inv(s)
    ensures Names(s, PollDue(s.q, now, room, |s.q.slots|), Items(s, now, room))
    ensures PipelineRuns.DueOk(LinkOf(s), Items(s, now, room))
  {
    var due, items := PollDue(s.q, now, room, |s.q.slots|), Items(s, now, room);
    DueOnce(s.q, now, room, |s.q.slots|);
    forall i | 0 <= i < |due| ensures items[i].id in Flying(s) && NamesOne(due[i], items[i]) {
      DueFlies(s, now, room, due[i]);
    }
    forall i, j | 0 <= i < j < |due| ensures items[i].id != items[j].id {
      assert NamesOne(due[i], items[i]) && NamesOne(due[j], items[j]);
    }
  }

  /** A message is given up by the poll exactly when an item says so. */
  lemma GivenUpNamed(s: Sender, now: u64, room: nat, items: seq<Pipeline.Due>, g: nat)
    requires Inv(s) && g in Flying(s)
    requires Names(s, PollDue(s.q, now, room, |s.q.slots|), items) && PipelineRuns.DueOk(LinkOf(s), items)
    ensures g in Pipeline.GaveUpIds(items) <==> GaveUp(g % U32) in PollDue(s.q, now, room, |s.q.slots|)
  {
    var due := PollDue(s.q, now, room, |s.q.slots|);
    if g in Pipeline.GaveUpIds(items) {
      var i :| 0 <= i < |items| && items[i] == Pipeline.GaveUp(g);
      assert NamesOne(due[i], items[i]) && due[i] == GaveUp(g % U32);
    }
    if GaveUp(g % U32) in due {
      var i :| 0 <= i < |due| && due[i] == GaveUp(g % U32);
      assert NamesOne(due[i], items[i]) && items[i].id in Flying(s);
      WireOf(s.next, g);
      WireOf(s.next, items[i].id);
      assert items[i] == Pipeline.GaveUp(g);
    }
  }

  /** Polling reports messages in flight, each once, and gives up the ones it says. */
  lemma PollIsGivenUp(s: Sender, now: u64, room: nat)
    requires Inv(s)
    ensures Names(s, PollDue(s.q, now, room, |s.q.slots|), Items(s, now, room))
    ensures PipelineRuns.DueOk(LinkOf(s), Items(s, now, room))
    ensures LinkOf(Step(s, Poll(now, room))) == LinkOf(s).GivenUp(Pipeline.GaveUpIds(Items(s, now, room)))
  {
    UnwrapDue(s, now, room);
    var items := Items(s, now, room);
    var t := Step(s, Poll(now, room));
    var gone := Pipeline.GaveUpIds(items);
    forall g: nat
      ensures g in gone ==> g in Flying(s)
      ensures g in Flying(t) <==> g in Flying(s) - gone
      ensures g in t.gaveUp.Keys <==> g in s.gaveUp.Keys + gone
    {
      PollFlying(s, now, room, g);
      if g in gone {
        var i :| 0 <= i < |items| && items[i] == Pipeline.GaveUp(g);
      }
      if g in Flying(s) { GivenUpNamed(s, now, room, items, g); }
    }
  }

  /** A new path and a new retry limit leave every message where it was. */
  lemma QuietCalls(s: Sender, attempts: u8)
    ensures LinkOf(Step(s, ForgetPath)) == LinkOf(s) && LinkOf(Step(s, SetMaxRetries(attempts))) == LinkOf(s)
  {
  }

  /** `in_flight()` is zero exactly when nothing is flying. */
  lemma {:induction false} NoneInFlight(s: Sender)
    requires Inv(s)
    ensures Occupied(s.q.slots) == 0 <==> Flying(s) == {}
  {
    EmptySlots(s.q.slots);
    if Flying(s) != {} {
      var g :| g in Flying(s);
      var k := SlotOf(s, g);
    }
    if k :| 0 <= k < |s.q.slots| && s.q.slots[k].Some? { SlotFlies(s, k); }
  }

  lemma {:induction false} EmptySlots(slots: seq<Slot>)
    ensures Occupied(slots) == 0 <==> forall i :: 0 <= i < |slots| ==> slots[i].None?
  {
    if slots != [] { EmptySlots(slots[..|slots| - 1]); }
  }
}
