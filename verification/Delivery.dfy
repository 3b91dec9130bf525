/** What comes out at the other end: the receiver's reassembly, fed the frames it was handed,
    returns every message that was reported delivered. */
module Delivery {
  import opened Bits
  import opened Outcomes
  import Wire
  import Frames
  import Reassembly
  import RR = ReassemblyRuns
  import opened Pipeline
  import Runs = PipelineRuns
  import opened Cuts
  import Arq
  import opened EndToEnd

  // ---- Put back together ----------------------------------------------------------------------

  predicate IsFragment(sent: map<nat, Frame>, id: nat) {
    id in sent && sent[id].fragment.Some? && sent[id].fragment.value.Coherent()
  }

  /** The receiver's reassembly, fed what it was handed: its table, and what the last of it
      completed. */
  function PutTogether(sent: map<nat, Frame>, ids: seq<nat>): (r: (seq<Reassembly.Partial>, Result<Option<seq<Wire.byte>>>))
    ensures Reassembly.Valid(r.0)
  {
    if ids == [] then ([], Ok(None))
    else
      var ps, id := PutTogether(sent, ids[..|ids| - 1]).0, ids[|ids| - 1];
      if !IsFragment(sent, id) then (ps, Ok(None))
      else
        Reassembly.AcceptValid(ps, sent[id].fragment.value, sent[id].data);
        Reassembly.AcceptStep(ps, sent[id].fragment.value, sent[id].data)
  }

  function ArrivalOf(sent: map<nat, Frame>, id: nat): RR.Arrival
    requires IsFragment(sent, id)
  {
    RR.Arrival(sent[id].fragment.value.message, sent[id].fragment.value.index)
  }

  /** The fragments among what it was handed, in its order. */
  function Fragments(sent: map<nat, Frame>, ids: seq<nat>): seq<RR.Arrival> {
    if ids == [] then []
    else
      var id := ids[|ids| - 1];
      Fragments(sent, ids[..|ids| - 1]) + if IsFragment(sent, id) then [ArrivalOf(sent, id)] else []
  }

  lemma {:induction false} FragmentsHave(sent: map<nat, Frame>, ids: seq<nat>, id: nat)
    requires id in ids && IsFragment(sent, id)
    ensures ArrivalOf(sent, id).index in RR.Got(Fragments(sent, ids), ArrivalOf(sent, id).message)
  {
    var front, a := ids[..|ids| - 1], ArrivalOf(sent, id);
    var before, all := Fragments(sent, front), Fragments(sent, ids);
    if ids[|ids| - 1] == id {
      assert all[|all| - 1] == a;
    } else {
      FragmentsHave(sent, front, id);
      var k :| 0 <= k < |before| && before[k].message == a.message && before[k].index == a.index;
      assert all[k] == before[k];
    }
  }

  /** Each fragment sent is one of the message the mail has under its number. */
  ghost predicate Genuine(mail: RR.Mail, sent: map<nat, Frame>)
    requires RR.MailOk(mail)
  {
    forall id: nat :: IsFragment(sent, id) ==> GenuineAt(mail, sent[id])
  }

  predicate GenuineAt(mail: RR.Mail, frame: Frame)
    requires RR.MailOk(mail) && frame.fragment.Some?
  {
    var f := frame.fragment.value;
    && f.message in mail && f.index < mail[f.message].Count()
    && f.count == mail[f.message].Count() && frame.data == mail[f.message].Chunk(f.index)
  }

  lemma LastFragment(sent: map<nat, Frame>, ids: seq<nat>)
    requires ids != [] && IsFragment(sent, ids[|ids| - 1])
    ensures var all := Fragments(sent, ids);
            all != [] && RR.Init(all) == Fragments(sent, ids[..|ids| - 1]) && RR.Last(all) == ArrivalOf(sent, ids[|ids| - 1])
  {
  }

  /** Fed the frames themselves, the table is that of the fragments. */
  lemma {:induction false} TableOfFragments(mail: RR.Mail, sent: map<nat, Frame>, ids: seq<nat>)
    requires RR.MailOk(mail) && Genuine(mail, sent) && RR.AllAcceptable(mail, Fragments(sent, ids))
    ensures PutTogether(sent, ids).0 == RR.Table(mail, Fragments(sent, ids))
    ensures ids != [] && IsFragment(sent, ids[|ids| - 1]) ==>
              Fragments(sent, ids) != [] && PutTogether(sent, ids).1 == RR.Returned(mail, Fragments(sent, ids))
  {
    if ids != [] {
      var front, id := ids[..|ids| - 1], ids[|ids| - 1];
      if IsFragment(sent, id) {
        LastFragment(sent, ids);
        TableOfFragments(mail, sent, front);
        assert GenuineAt(mail, sent[id]);
        assert sent[id].fragment.value == RR.Descriptor(mail, ArrivalOf(sent, id));
      } else {
        assert Fragments(sent, ids) == Fragments(sent, front);
        TableOfFragments(mail, sent, front);
      }
    }
  }

  /** Whether the last of `ids` completed message `m`. */
  ghost predicate Completes(mail: RR.Mail, sent: map<nat, Frame>, ids: seq<nat>, m: u32)
    requires RR.MailOk(mail)
  {
    && ids != [] && IsFragment(sent, ids[|ids| - 1])
    && RR.Complete(mail, Fragments(sent, ids), m) && !RR.Complete(mail, Fragments(sent, ids[..|ids| - 1]), m)
  }

  lemma CompletedByLast(mail: RR.Mail, sent: map<nat, Frame>, ids: seq<nat>, m: u32)
    requires RR.MailOk(mail) && Genuine(mail, sent)
    requires RR.AllAcceptable(mail, Fragments(sent, ids)) && Completes(mail, sent, ids, m)
    ensures PutTogether(sent, ids).1 == Ok(Some(mail[m].data))
  {
    var before, all := Fragments(sent, ids[..|ids| - 1]), Fragments(sent, ids);
    LastFragment(sent, ids);
    RR.GotAppend(before, RR.Last(all), m);
    RR.SplitThenReassemble(mail, all);
    TableOfFragments(mail, sent, ids);
  }

  /** If not, it was complete before. */
  lemma CompleteBefore(mail: RR.Mail, sent: map<nat, Frame>, ids: seq<nat>, m: u32)
    requires RR.MailOk(mail) && RR.AllAcceptable(mail, Fragments(sent, ids)) && RR.Complete(mail, Fragments(sent, ids), m)
    requires !Completes(mail, sent, ids, m)
    ensures ids != [] && RR.Complete(mail, Fragments(sent, ids[..|ids| - 1]), m)
    ensures RR.AllAcceptable(mail, Fragments(sent, ids[..|ids| - 1]))
  {
    assert 0 in RR.Got(Fragments(sent, ids), m);
    if IsFragment(sent, ids[|ids| - 1]) {
      LastFragment(sent, ids);
    } else {
      assert Fragments(sent, ids) == Fragments(sent, ids[..|ids| - 1]);
    }
  }

  /** A message that is complete came out, when the arrival that completed it was handed on. */
  lemma {:induction false} CompleteComesOut(mail: RR.Mail, sent: map<nat, Frame>, ids: seq<nat>, m: u32) returns (n: nat)
    requires RR.MailOk(mail) && Genuine(mail, sent)
    requires RR.AllAcceptable(mail, Fragments(sent, ids)) && RR.Complete(mail, Fragments(sent, ids), m)
    ensures n <= |ids| && PutTogether(sent, ids[..n]).1 == Ok(Some(mail[m].data))
    decreases |ids|
  {
    if Completes(mail, sent, ids, m) {
      n := |ids|;
      assert ids[..n] == ids;
      CompletedByLast(mail, sent, ids, m);
    } else {
      CompleteBefore(mail, sent, ids, m);
      var front := ids[..|ids| - 1];
      n := CompleteComesOut(mail, sent, front, m);
      assert front[..n] == ids[..n];
    }
  }

  // ---- The mail is what was queued --------------------------------------------------------------

  /** At most 2^32 messages queued, and at most three of them reported lost. */
  ghost predicate Few(s: State) {
    Total(s) <= U32 && |LostOnes(s)| <= 3
  }

  function LostOnes(s: State): set<nat> {
    set i: nat | i < |s.log.finished| && !s.log.finished[i].delivered
  }

  ghost function MailOf(s: State): RR.Mail
    requires Total(s) <= U32
  {
    map i: u32 | i < Total(s) :: JobAt(s, i).m
  }

  lemma JobOk(s: State, i: nat)
    requires Runs.Inv(s) && i < Total(s)
    ensures JobAt(s, i).Ok()
  {
    if i < |s.log.finished| { assert s.log.finished[i] in s.log.finished; }
  }

  lemma MailIsOk(s: State)
    requires Runs.Inv(s) && Total(s) <= U32
    ensures RR.MailOk(MailOf(s))
  {
    forall m <- MailOf(s) ensures MailOf(s)[m].Sendable() { JobOk(s, m); }
  }

  /** What went out as the `k`-th identifier of message `i` is its `k`-th fragment. */
  lemma PieceIs(s: State, id: nat, i: nat, k: nat)
    requires Runs.Inv(s) && Counted(s) && Total(s) <= U32 && InMessage(s, id, i, k)
    ensures JobAt(s, i).m.Sendable() && k < JobAt(s, i).m.Count()
    ensures IsFragment(s.log.sent, id) && ArrivalOf(s.log.sent, id) == RR.Arrival(i, k)
    ensures s.log.sent[id].data == JobAt(s, i).m.Chunk(k)
    ensures s.log.sent[id].fragment.value.count == JobAt(s, i).m.Count()
  {
    if i < |s.log.finished| { assert s.log.finished[i] in s.log.finished; }
    assert Runs.WentOut(s, JobAt(s, i), id, k);
    assert JobAt(s, i).message == i % U32;
  }

  lemma PieceOf(s: State, id: nat) returns (i: nat, k: nat)
    requires Runs.Inv(s) && Cut(s) && Total(s) <= U32 && IsFragment(s.log.sent, id)
    ensures InMessage(s, id, i, k) && ArrivalOf(s.log.sent, id) == RR.Arrival(i, k)
  {
    assert IsPiece(s, id) && Traced(s, id);
    i, k :| InMessage(s, id, i, k);
    PieceIs(s, id, i, k);
  }

  lemma OneEach(s: State, x: nat, y: nat)
    requires Runs.Inv(s) && Cut(s) && Total(s) <= U32 && IsFragment(s.log.sent, x) && IsFragment(s.log.sent, y)
    requires ArrivalOf(s.log.sent, x) == ArrivalOf(s.log.sent, y)
    ensures x == y
  {
    var i, k := PieceOf(s, x);
    var j, l := PieceOf(s, y);
  }

  lemma AllGenuine(s: State)
    requires Runs.Inv(s) && Cut(s) && Total(s) <= U32
    ensures RR.MailOk(MailOf(s)) && Genuine(MailOf(s), s.log.sent)
  {
    MailIsOk(s);
    forall id: nat | IsFragment(s.log.sent, id) ensures GenuineAt(MailOf(s), s.log.sent[id]) {
      var i, k := PieceOf(s, id);
      PieceIs(s, id, i, k);
    }
  }

  // ---- Every arrival is acceptable ----------------------------------------------------------------

  lemma {:induction false} GotFrom(sent: map<nat, Frame>, ids: seq<nat>, m: u32, k: nat) returns (id: nat)
    requires k in RR.Got(Fragments(sent, ids), m)
    ensures id in ids && IsFragment(sent, id) && ArrivalOf(sent, id) == RR.Arrival(m, k)
  {
    var all := Fragments(sent, ids);
    var j :| 0 <= j < |all| && all[j].message == m && all[j].index == k;
    var front, last := ids[..|ids| - 1], ids[|ids| - 1];
    if j < |Fragments(sent, front)| {
      assert Fragments(sent, front)[j] == all[j];
      id := GotFrom(sent, front, m, k);
    } else {
      id := last;
    }
  }

  /** Everything the sender has had acknowledged was handed on. */
  ghost predicate AckedCame(s: State, delivered: seq<nat>) {
    forall id <- s.link.acked :: id in delivered
  }

  lemma DeliveredIsComplete(s: State, delivered: seq<nat>, i: nat)
    requires Runs.Inv(s) && Cut(s) && Total(s) <= U32 && AckedCame(s, delivered)
    requires i < |s.log.finished| && s.log.finished[i].delivered
    ensures RR.MailOk(MailOf(s)) && RR.Complete(MailOf(s), Fragments(s.log.sent, delivered), i)
  {
    MailIsOk(s);
    var d := s.log.finished[i];
    assert d in s.log.finished && Runs.DoneOk(s, d);
    forall k: nat | k < d.job.m.Count() ensures k in RR.Got(Fragments(s.log.sent, delivered), i) {
      assert InMessage(s, d.ids[k], i, k);
      PieceIs(s, d.ids[k], i, k);
      FragmentsHave(s.log.sent, delivered, d.ids[k]);
    }
  }

  /** Unfinished at the receiver are only messages reported lost, and the one being fed. */
  lemma LiveOnes(s: State, delivered: seq<nat>, m: u32)
    requires Runs.Inv(s) && Cut(s) && Total(s) <= U32 && AckedCame(s, delivered)
    requires RR.MailOk(MailOf(s)) && RR.IsLive(MailOf(s), Fragments(s.log.sent, delivered), m)
    ensures m in LostOnes(s) || m == |s.log.finished|
  {
    var got := RR.Got(Fragments(s.log.sent, delivered), m);
    var k :| k in got;
    var id := GotFrom(s.log.sent, delivered, m, k);
    var i, l := PieceOf(s, id);
    if m < |s.log.finished| && s.log.finished[m].delivered { DeliveredIsComplete(s, delivered, m); }
  }

  lemma LiveAreFew(s: State, delivered: seq<nat>, m: u32)
    requires Runs.Inv(s) && Cut(s) && Few(s) && AckedCame(s, delivered)
    requires RR.MailOk(MailOf(s)) && RR.Got(Fragments(s.log.sent, delivered), m) == {}
    requires m in LostOnes(s) || m == |s.log.finished|
    ensures |RR.Live(MailOf(s), Fragments(s.log.sent, delivered))| < 4
  {
    var live: set<nat> := set x | x in RR.Live(MailOf(s), Fragments(s.log.sent, delivered));
    var all := LostOnes(s) + {|s.log.finished|};
    forall x <- live ensures x in all - {m as nat} {
      LiveOnes(s, delivered, x);
    }
    SubsetSize(live, all - {m});
    assert |all - {m}| == |all| - 1 && |all| <= |LostOnes(s)| + 1;
    assert live == RR.Live(MailOf(s), Fragments(s.log.sent, delivered));
  }

  lemma NewOneAcceptable(s: State, delivered: seq<nat>, g: nat)
    requires Runs.Inv(s) && Cut(s) && Few(s) && AckedCame(s, delivered)
    requires g !in delivered && IsFragment(s.log.sent, g)
    ensures RR.MailOk(MailOf(s))
    ensures RR.Acceptable(MailOf(s), Fragments(s.log.sent, delivered), ArrivalOf(s.log.sent, g))
  {
    AllGenuine(s);
    var i, k := PieceOf(s, g);
    PieceIs(s, g, i, k);
    var before := Fragments(s.log.sent, delivered);
    if k in RR.Got(before, i) {
      var id := GotFrom(s.log.sent, delivered, i, k);
      OneEach(s, id, g);
    }
    if RR.Got(before, i) == {} {
      if i < |s.log.finished| && s.log.finished[i].delivered { DeliveredIsComplete(s, delivered, i); }
      LiveAreFew(s, delivered, i);
    }
  }

  // ---- As the run goes on --------------------------------------------------------------------------

  ghost predicate Grew(mail: RR.Mail, more: RR.Mail) {
    forall m <- mail :: m in more && more[m] == mail[m]
  }

  /** Every arrival is of a message in the mail. */
  lemma {:induction false} GotInMail(mail: RR.Mail, arrivals: seq<RR.Arrival>, m: u32)
    requires RR.MailOk(mail) && RR.AllAcceptable(mail, arrivals) && RR.Got(arrivals, m) != {}
    ensures m in mail
  {
    var k :| k in RR.Got(arrivals, m);
    var before := RR.Init(arrivals);
    assert arrivals == before + [RR.Last(arrivals)];
    RR.GotAppend(before, RR.Last(arrivals), m);
    if RR.Got(before, m) != {} { GotInMail(mail, before, m); }
  }

  lemma {:induction false} StillAcceptable(mail: RR.Mail, more: RR.Mail, arrivals: seq<RR.Arrival>)
    requires RR.MailOk(mail) && RR.MailOk(more) && Grew(mail, more) && RR.AllAcceptable(mail, arrivals)
    ensures RR.AllAcceptable(more, arrivals)
  {
    if arrivals != [] {
      var before := RR.Init(arrivals);
      StillAcceptable(mail, more, before);
      forall m: u32 ensures m in RR.Live(more, before) <==> m in RR.Live(mail, before) {
        if RR.Got(before, m) != {} { GotInMail(mail, before, m); }
      }
      assert RR.Live(more, before) == RR.Live(mail, before);
    }
  }

  lemma {:induction false} SameFragments(s: State, t: State, ids: seq<nat>)
    requires Grown(s, t) && forall i :: 0 <= i < |ids| ==> ids[i] < s.link.next
    ensures Fragments(t.log.sent, ids) == Fragments(s.log.sent, ids)
  {
    if ids != [] {
      SameFragments(s, t, ids[..|ids| - 1]);
      assert SentAlike(s, t, ids[|ids| - 1]);
    }
  }

  lemma FewBefore(s: State, t: State)
    requires Grown(s, t) && Few(t)
    ensures Few(s)
  {
    SubsetSize(LostOnes(s), LostOnes(t));
  }

  lemma MailGrew(s: State, t: State)
    requires Grown(s, t) && Total(t) <= U32
    ensures Grew(MailOf(s), MailOf(t))
  {
  }

  /** Every fragment handed to the receiver so far was acceptable when it came. */
  ghost predicate TookAll(s: State, delivered: seq<nat>) {
    && Total(s) <= U32 && RR.MailOk(MailOf(s))
    && RR.AllAcceptable(MailOf(s), Fragments(s.log.sent, delivered))
  }

  lemma TookStill(s: State, t: State, delivered: seq<nat>)
    requires Runs.Inv(t) && Grown(s, t) && Few(t) && TookAll(s, delivered)
    requires forall i :: 0 <= i < |delivered| ==> delivered[i] < s.link.next
    ensures TookAll(t, delivered)
  {
    MailIsOk(t);
    MailGrew(s, t);
    SameFragments(s, t, delivered);
    StillAcceptable(MailOf(s), MailOf(t), Fragments(s.log.sent, delivered));
  }

  lemma TookOneMore(s: State, delivered: seq<nat>, g: nat)
    requires Runs.Inv(s) && Cut(s) && Few(s) && AckedCame(s, delivered) && g !in delivered && TookAll(s, delivered)
    ensures TookAll(s, delivered + [g])
  {
    var ids := delivered + [g];
    assert ids[..|ids| - 1] == delivered;
    if IsFragment(s.log.sent, g) {
      NewOneAcceptable(s, delivered, g);
      LastFragment(s.log.sent, ids);
    } else {
      assert Fragments(s.log.sent, ids) == Fragments(s.log.sent, delivered);
    }
  }

  // ---- Every run -------------------------------------------------------------------------------------

  lemma HandsNothingOn(y: Arq.System, e: Arq.Event)
    requires !e.Arrive?
    ensures Arq.Step(y, e).delivered == y.delivered
  {
  }

  lemma OneMoreBelow(below: seq<Arq.Event>, es: seq<Arq.Event>)
    requires es != []
    ensures Arq.Run(below + es) == Arq.Step(Arq.Run(below + es[..|es| - 1]), es[|es| - 1])
  {
    LastApart(below, es);
    RunBelow(below + es[..|es| - 1], es[|es| - 1]);
  }

  lemma LastApart(below: seq<Arq.Event>, es: seq<Arq.Event>)
    requires es != []
    ensures below + es == below + es[..|es| - 1] + [es[|es| - 1]]
  {
  }

  lemma {:induction false} NothingArrives(below: seq<Arq.Event>, es: seq<Arq.Event>)
    requires forall i :: 0 <= i < |es| ==> !es[i].Arrive?
    ensures Arq.Run(below + es).delivered == Arq.Run(below).delivered
  {
    if es == [] {
      assert below + es == below;
    } else {
      var front := es[..|es| - 1];
      NothingArrives(below, front);
      OneMoreBelow(below, es);
      HandsNothingOn(Arq.Run(below + front), es[|es| - 1]);
    }
  }

  predicate Registers(e: Arq.Event) {
    e.Send? || e.Lost?
  }

  lemma {:induction false} FeedingSends(s: State, now: u64, open: nat -> bool, sent: nat -> bool, k: nat)
    requires s.queue != [] && s.queue[0].Ok()
    ensures forall i :: 0 <= i < |Feeding(s, now, open, sent, k)| ==> Registers(Feeding(s, now, open, sent, k)[i])
    decreases s.queue[0].m.Count() - s.queue[0].next
  {
    var job := s.queue[0];
    if !job.lost && job.next < job.m.Count() && open(k) && sent(k) { FeedingSends(Fed(s, true), now, open, sent, k + 1); }
  }

  predicate Arrival(h: Happening) {
    h.Elsewhere? && h.e.Arrive?
  }

  lemma OnlyArrivalsArrive(y: Arq.System, s: State, h: Happening)
    requires (s.queue != [] ==> s.queue[0].Ok()) && !Arrival(h)
    ensures forall i :: 0 <= i < |Below(y, s, h)| ==> !Below(y, s, h)[i].Arrive?
  {
    if h.Drive? && s.queue != [] { FeedingSends(TakeLost(s), h.now, OpenAt(y.sender, h.now), h.sent, 0); }
  }

  lemma PlainAbove(y: Arq.System, h: Happening)
    ensures |Above(y, h)| <= 1 && forall i :: 0 <= i < |Above(y, h)| ==> Plain(Above(y, h)[i])
  {
  }

  lemma {:induction false} AllPlain(hs: seq<Happening>)
    ensures forall i :: 0 <= i < |Played(hs).above| ==> Plain(Played(hs).above[i])
  {
    if hs != [] {
      AllPlain(hs[..|hs| - 1]);
      PlainAbove(System(hs[..|hs| - 1]), hs[|hs| - 1]);
    }
  }

  lemma SideIsCut(hs: seq<Happening>)
    ensures Cut(Side(hs))
  {
    AllPlain(hs);
    RunCut(Played(hs).above);
  }

  lemma {:induction false} TimelyBefore(below: seq<Arq.Event>, es: seq<Arq.Event>)
    requires Arq.TimelyRun(below + es)
    ensures Arq.TimelyRun(below)
  {
    forall i | 0 <= i < |below| ensures Arq.Timely(Arq.Run(below[..i]), below[i]) {
      assert (below + es)[..i] == below[..i] && (below + es)[i] == below[i];
    }
  }

  /** Any one happening takes the sending side forward. */
  lemma SideGrows(p: Play, h: Happening)
    requires Good(p) && Good(Next(p, h))
    ensures Grown(Runs.Run(p.above), Runs.Run(Next(p, h).above))
  {
    var es := Above(Arq.Run(p.below), h);
    PlainAbove(Arq.Run(p.below), h);
    if es == [] {
      assert p.above + es == p.above;
    } else {
      OneEvent(p.above, es);
    }
  }

  lemma LastWasOk(above: seq<Runs.Event>, e: Runs.Event)
    requires Runs.RunOk(above + [e])
    ensures Runs.RunOk(above) && Runs.EventOk(Runs.Run(above), e)
  {
    assert (above + [e])[..|above|] == above;
  }

  lemma OneEvent(above: seq<Runs.Event>, es: seq<Runs.Event>)
    requires Runs.RunOk(above) && Runs.RunOk(above + es) && |es| == 1
    ensures Grown(Runs.Run(above), Runs.Run(above + es))
  {
    var e := es[0];
    assert es == [e];
    LastWasOk(above, e);
    StepGrows(Runs.Run(above), e);
    Runs.RunExtended(above, e);
  }

  lemma DeliveredWereSent(below: seq<Arq.Event>, above: seq<Runs.Event>)
    requires InStep(below, above) && Arq.TimelyRun(below)
    ensures var y, s := Arq.Run(below), Runs.Run(above);
            && AckedCame(s, y.delivered) && Arq.Unique(y.delivered)
            && forall i :: 0 <= i < |y.delivered| ==> y.delivered[i] < s.link.next
  {
    Arq.ExactlyWhatWasSent(below);
    forall i | 0 <= i < |Arq.Run(below).delivered| ensures Arq.Run(below).delivered[i] < Runs.Run(above).link.next {
      assert Arq.Run(below).delivered[i] in Arq.Run(below).delivered;
    }
  }

  /** An arrival hands on at most one message, and one that was not handed on before. */
  lemma ArrivalTakes(below: seq<Arq.Event>, above: seq<Runs.Event>, e: Arq.Event)
    requires InStep(below, above) && InStep(below + [e], above) && e.Arrive? && Arq.TimelyRun(below + [e])
    requires Cut(Runs.Run(above)) && Few(Runs.Run(above)) && TookAll(Runs.Run(above), Arq.Run(below).delivered)
    ensures TookAll(Runs.Run(above), Arq.Run(below + [e]).delivered)
  {
    TimelyBefore(below, [e]);
    DeliveredWereSent(below, above);
    DeliveredWereSent(below + [e], above);
    RunBelow(below, e);
    HandsOnOne(Arq.Run(below), e);
    var before, after := Arq.Run(below).delivered, Arq.Run(below + [e]).delivered;
    if after != before {
      var g := after[|after| - 1];
      NotBefore(before, g);
      TookOneMore(Runs.Run(above), before, g);
    }
  }

  lemma HandsOnOne(y: Arq.System, e: Arq.Event)
    requires e.Arrive?
    ensures var before, after := y.delivered, Arq.Step(y, e).delivered;
            after == before || (|after| > 0 && after == before + [after[|after| - 1]])
  {
  }

  lemma NotBefore(before: seq<nat>, g: nat)
    requires Arq.Unique(before + [g])
    ensures g !in before
  {
    forall i | 0 <= i < |before| ensures before[i] != g {
      assert (before + [g])[i] == before[i] && (before + [g])[|before|] == g;
    }
  }

  lemma NextTakes(p: Play, h: Happening)
    requires Good(p) && Good(Next(p, h)) && Arq.TimelyRun(Next(p, h).below)
    requires Cut(Runs.Run(Next(p, h).above)) && Few(Runs.Run(Next(p, h).above))
    requires TookAll(Runs.Run(p.above), Arq.Run(p.below).delivered)
    ensures TookAll(Runs.Run(Next(p, h).above), Arq.Run(Next(p, h).below).delivered)
  {
    var q := Next(p, h);
    var es := Below(Arq.Run(p.below), Runs.Run(p.above), h);
    TimelyBefore(p.below, es);
    if Arrival(h) {
      assert p.above + [] == p.above && es == [h.e];
      ArrivalTakes(p.below, p.above, h.e);
    } else {
      OnlyArrivalsArrive(Arq.Run(p.below), Runs.Run(p.above), h);
      NothingArrives(p.below, es);
      SideGrows(p, h);
      DeliveredWereSent(p.below, p.above);
      TookStill(Runs.Run(p.above), Runs.Run(q.above), Arq.Run(p.below).delivered);
    }
  }

  lemma NothingYet()
    ensures TookAll(Side([]), System([]).delivered)
  {
    assert MailOf(START) == map[];
  }

  lemma OneHappening(hs: seq<Happening>)
    requires hs != []
    ensures var p := Played(hs[..|hs| - 1]); Good(p) && Played(hs) == Next(p, hs[|hs| - 1]) && Good(Played(hs))
  {
  }

  lemma TimelyFew(p: Play, h: Happening)
    requires Good(p) && Good(Next(p, h)) && Arq.TimelyRun(Next(p, h).below) && Few(Runs.Run(Next(p, h).above))
    ensures Arq.TimelyRun(p.below) && Few(Runs.Run(p.above))
  {
    TimelyBefore(p.below, Below(Arq.Run(p.below), Runs.Run(p.above), h));
    SideGrows(p, h);
    FewBefore(Runs.Run(p.above), Runs.Run(Next(p, h).above));
  }

  /** While few messages are lost, the receiver has room for every fragment as it comes, and
      none comes after its message is complete. */
  lemma {:induction false} EveryArrivalAcceptable(hs: seq<Happening>)
    requires Arq.TimelyRun(Played(hs).below) && Few(Side(hs))
    ensures TookAll(Side(hs), System(hs).delivered)
  {
    if hs == [] {
      NothingYet();
    } else {
      var front, h := hs[..|hs| - 1], hs[|hs| - 1];
      OneHappening(hs);
      TimelyFew(Played(front), h);
      EveryArrivalAcceptable(front);
      SideIsCut(hs);
      NextTakes(Played(front), h);
    }
  }

  /** A message reported delivered came out whole at the other end: something handed to the
      receiver's reassembly made it return the payload, byte for byte. */
  lemma DeliveredCameOutWhole(hs: seq<Happening>, d: Done) returns (n: nat)
    requires Arq.TimelyRun(Played(hs).below) && Few(Side(hs)) && d in Side(hs).log.finished && d.delivered
    ensures n <= |System(hs).delivered|
    ensures PutTogether(Side(hs).log.sent, System(hs).delivered[..n]).1 == Ok(Some(d.job.m.data))
  {
    EveryArrivalAcceptable(hs);
    SideIsCut(hs);
    DeliveredWereSent(Played(hs).below, Played(hs).above);
    n := ComesOut(Side(hs), System(hs).delivered, d);
  }

  lemma ComesOut(s: State, delivered: seq<nat>, d: Done) returns (n: nat)
    requires Runs.Inv(s) && Cut(s) && Few(s) && AckedCame(s, delivered) && TookAll(s, delivered)
    requires d in s.log.finished && d.delivered
    ensures n <= |delivered| && PutTogether(s.log.sent, delivered[..n]).1 == Ok(Some(d.job.m.data))
  {
    var i :| 0 <= i < |s.log.finished| && s.log.finished[i] == d;
    DeliveredIsComplete(s, delivered, i);
    AllGenuine(s);
    n := CompleteComesOut(MailOf(s), s.log.sent, delivered, i);
  }
}
