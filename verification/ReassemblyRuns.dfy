/** Splitting a message and putting it back together, for several messages at once
    in any order. */
module ReassemblyRuns {
  import opened Bits
  import opened Outcomes
  import opened Wire
  import opened Frames
  import opened Reassembly
  import opened Strides

  /** A payload and the fragment size it was cut for. */
  datatype Message = Message(data: seq<byte>, per: nat) {
    predicate Sendable() { FragmentsNeeded(|data|, per).Some? }

    function Count(): u16
      requires Sendable()
    {
      FragmentsNeeded(|data|, per).value
    }

    /** The bytes of fragment `i`. */
    function Chunk(i: nat): seq<byte> {
      var start := Offset(i, per);
      var end := if start + per < |data| then start + per else |data|;
      if start <= end then data[start..end] else []
    }
  }

  lemma CeilDiv(len: nat, per: nat)
    requires per > 0
    ensures var c := (len + per - 1) / per;
            len <= c * per < len + per
  {
    var x := len + per - 1;
    assert x == per * (x / per) + x % per;
  }

  /** The cut covers the payload: every fragment but the last is full, and the last
      takes what is left. */
  lemma Covered(m: Message)
    requires m.Sendable()
    ensures Offset(m.Count() - 1, m.per) <= |m.data| <= Offset(m.Count(), m.per)
  {
    CeilDiv(|m.data|, m.per);
    OffsetIsProduct(m.Count(), m.per);
    OffsetIsProduct(m.Count() - 1, m.per);
    var c := (|m.data| + m.per - 1) / m.per;
    if c >= 1 { assert c * m.per == (c - 1) * m.per + m.per; }
  }

  lemma ChunkLengths(m: Message, i: nat)
    requires m.Sendable() && i < m.Count()
    ensures Offset(i, m.per) <= |m.data|
    ensures i + 1 < m.Count() ==> |m.Chunk(i)| == m.per
    ensures |m.Chunk(i)| + Offset(i, m.per) <= |m.data|
    ensures i + 1 == m.Count() ==> |m.Chunk(i)| + Offset(i, m.per) == |m.data|
  {
    Covered(m);
    if i + 1 < m.Count() { SlotFits(i, m.Count() - 1, m.per); }
  }

  function ChunkMap(m: Message, got: set<nat>): map<nat, seq<byte>> {
    map i | i in got :: m.Chunk(i)
  }

  /** Where fragment `n` begins, or the end of the payload after the last one. */
  function Begin(m: Message, n: nat): (x: nat)
    ensures x <= |m.data|
  {
    if Offset(n, m.per) < |m.data| then Offset(n, m.per) else |m.data|
  }

  lemma ChunkBetween(m: Message, i: nat)
    requires m.Sendable() && i < m.Count()
    ensures Begin(m, i) <= Begin(m, i + 1) && m.Chunk(i) == m.data[Begin(m, i)..Begin(m, i + 1)]
  {
    ChunkLengths(m, i);
  }

  lemma {:induction false} ChunksTile(m: Message, got: set<nat>, n: nat)
    requires m.Sendable() && n <= m.Count() && AllOf(m.Count(), got)
    ensures Concat(ChunkMap(m, got), n) == m.data[..Begin(m, n)]
  {
    if n > 0 {
      ChunksTile(m, got, n - 1);
      ChunkBetween(m, n - 1);
      TakeMore(m.data, Begin(m, n - 1), Begin(m, n) - Begin(m, n - 1));
    }
  }

  /** The fragments tile the payload. */
  lemma SplitIsWhole(m: Message, got: set<nat>)
    requires m.Sendable() && AllOf(m.Count(), got)
    ensures Concat(ChunkMap(m, got), m.Count()) == m.data
  {
    ChunksTile(m, got, m.Count());
    Covered(m);
  }

  // ---- Arrivals -------------------------------------------------------------------

  datatype Arrival = Arrival(message: u32, index: nat)

  type Mail = map<u32, Message>

  predicate MailOk(mail: Mail) {
    forall m <- mail :: mail[m].Sendable()
  }

  function Got(arrivals: seq<Arrival>, m: u32): set<nat> {
    set k | 0 <= k < |arrivals| && arrivals[k].message == m :: arrivals[k].index
  }

  predicate AllOf(n: nat, got: set<nat>) {
    forall i: nat | i < n :: i in got
  }

  predicate Complete(mail: Mail, arrivals: seq<Arrival>, m: u32)
    requires MailOk(mail)
  {
    m in mail && AllOf(mail[m].Count(), Got(arrivals, m))
  }

  /** Begun and not finished. */
  predicate IsLive(mail: Mail, arrivals: seq<Arrival>, m: u32)
    requires MailOk(mail)
  {
    m in mail && Got(arrivals, m) != {} && !Complete(mail, arrivals, m)
  }

  function Live(mail: Mail, arrivals: seq<Arrival>): set<u32>
    requires MailOk(mail)
  {
    set m | m in mail && IsLive(mail, arrivals, m)
  }

  /** The arrival is a fragment of a message in the mail that is not finished yet,
      and at most four messages are unfinished at once. */
  predicate Acceptable(mail: Mail, before: seq<Arrival>, a: Arrival)
    requires MailOk(mail)
  {
    && a.message in mail && a.index < mail[a.message].Count()
    && !Complete(mail, before, a.message)
    && (Got(before, a.message) == {} ==> |Live(mail, before)| < 4)
  }

  /** Every arrival is acceptable after those before it. */
  predicate AllAcceptable(mail: Mail, arrivals: seq<Arrival>)
    requires MailOk(mail)
  {
    arrivals == [] ||
    (AllAcceptable(mail, Init(arrivals)) && Acceptable(mail, Init(arrivals), Last(arrivals)))
  }

  function Init(arrivals: seq<Arrival>): seq<Arrival>
    requires arrivals != []
  {
    arrivals[..|arrivals| - 1]
  }

  function Last(arrivals: seq<Arrival>): Arrival
    requires arrivals != []
  {
    arrivals[|arrivals| - 1]
  }

  function Descriptor(mail: Mail, a: Arrival): (f: Fragment)
    requires MailOk(mail) && a.message in mail && a.index < mail[a.message].Count()
    ensures f.Coherent()
  {
    Fragment(a.message, a.index, mail[a.message].Count())
  }

  /** The table holds exactly the live messages, each with the fragments that came. */
  ghost predicate Holding(mail: Mail, arrivals: seq<Arrival>, ps: seq<Partial>)
    requires MailOk(mail)
  {
    Valid(ps) && forall m: u32 :: HoldsFor(mail, arrivals, ps, m)
  }

  predicate HoldsFor(mail: Mail, arrivals: seq<Arrival>, ps: seq<Partial>, m: u32)
    requires MailOk(mail)
  {
    match Lookup(ps, m)
    case None => !IsLive(mail, arrivals, m)
    case Some(p) => IsLive(mail, arrivals, m) && Kept(mail[m], Got(arrivals, m), p)
  }

  predicate Kept(m: Message, got: set<nat>, p: Partial) {
    && m.Sendable() && Shape(p)
    && p.count == m.Count() && Reassembly.Pieces(p) == ChunkMap(m, got)
  }

  lemma ChunkMapAdd(m: Message, got: set<nat>, i: nat)
    ensures ChunkMap(m, got)[i := m.Chunk(i)] == ChunkMap(m, got + {i})
  {
  }

  lemma FullIff(m: Message, got: set<nat>, n: nat)
    ensures Full(ChunkMap(m, got), n) <==> AllOf(n, got)
  {
    forall i: nat | i < n ensures i in ChunkMap(m, got) <==> i in got {}
  }

  lemma StrideIsPer(m: Message, got: set<nat>, p: Partial)
    requires Kept(m, got, p) && p.stride.Some?
    ensures p.stride.value == m.per
  {
    var j :| 0 <= j < p.count - 1 && p.have[j];
    SlotFits(j, p.count - 1, p.stride.value);
    ChunkLengths(m, j);
    assert Reassembly.Pieces(p)[j] == p.Piece(j) == m.Chunk(j);
  }

  lemma TailIsLast(m: Message, got: set<nat>, p: Partial)
    requires Kept(m, got, p)
    ensures |p.tail| + Offset(m.Count() - 1, m.per) <= |m.data|
  {
    ChunkLengths(m, m.Count() - 1);
    if p.have[p.count - 1] { assert Reassembly.Pieces(p)[p.count - 1] == m.Chunk(p.count - 1); }
  }

  /** A genuine fragment is never refused, and never takes the partial over its bound. */
  lemma GenuineFits(m: Message, got: set<nat>, p: Partial, f: Fragment)
    requires Kept(m, got, p) && f.Coherent() && f.count == p.count
    ensures InsertStep(p, f, m.Chunk(f.index)).1.Ok?
    ensures InsertStep(p, f, m.Chunk(f.index)).0.Held() <= MAX_MESSAGE_LEN
  {
    var data := m.Chunk(f.index);
    ChunkLengths(m, f.index);
    ChunkLengths(m, m.Count() - 1);
    TailIsLast(m, got, p);
    if p.stride.Some? { StrideIsPer(m, got, p); }
  }

  lemma GotAppend(arrivals: seq<Arrival>, a: Arrival, m: u32)
    ensures Got(arrivals + [a], m) == Got(arrivals, m) + if a.message == m then {a.index} else {}
  {
    var all := arrivals + [a];
    assert all[|arrivals|] == a;
    assert forall k :: 0 <= k < |arrivals| ==> all[k] == arrivals[k];
    forall i ensures i in Got(all, m) <==> i in Got(arrivals, m) || (a.message == m && i == a.index) {
      if i in Got(arrivals, m) {
        var k :| 0 <= k < |arrivals| && arrivals[k].message == m && arrivals[k].index == i;
        assert all[k].message == m && all[k].index == i;
      }
    }
  }

  lemma {:induction false} AsManyMessages(ps: seq<Partial>, live: set<u32>)
    requires Separate(ps) && forall k :: 0 <= k < |ps| ==> ps[k].message in live
    ensures |ps| <= |live|
  {
    if ps != [] {
      var last := ps[|ps| - 1];
      AsManyMessages(ps[..|ps| - 1], live - {last.message});
    }
  }

  lemma RoomForNew(mail: Mail, before: seq<Arrival>, ps: seq<Partial>, a: Arrival, m: u32)
    requires MailOk(mail) && Holding(mail, before, ps) && Acceptable(mail, before, a)
    ensures !Evicts(ps, Descriptor(mail, a), m)
  {
    if Lookup(ps, a.message).None? {
      forall k | 0 <= k < |ps| ensures ps[k].message in Live(mail, before) {
        LookupAt(ps, k);
        assert HoldsFor(mail, before, ps, ps[k].message);
      }
      assert HoldsFor(mail, before, ps, a.message);
      AsManyMessages(ps, Live(mail, before));
    }
  }

  lemma OwnDuplicate(m: Message, got: set<nat>, p: Partial, f: Fragment)
    requires Kept(m, got, p) && p.received < p.count && f.Coherent() && f.count == p.count && p.have[f.index]
    ensures f.index in got && !AllOf(m.Count(), got)
  {
    assert f.index as nat in Reassembly.Pieces(p);
    StillMissing(p, p.count);
    FullIff(m, got, p.count);
  }

  /** The partial a genuine fragment leaves behind, or the message it completes. */
  lemma OwnFragment(m: Message, got: set<nat>, p: Partial, f: Fragment)
    requires Kept(m, got, p) && p.received < p.count && f.Coherent() && f.count == p.count
    ensures var (p', r) := InsertStep(p, f, m.Chunk(f.index));
            var got' := got + {f.index as nat};
            && r == Ok(if AllOf(m.Count(), got') then Some(m.data) else None)
            && (!AllOf(m.Count(), got') ==> Kept(m, got', p'))
  {
    var got' := got + {f.index as nat};
    GenuineFits(m, got, p, f);
    InsertMeans(p, f, m.Chunk(f.index));
    if p.have[f.index] {
      OwnDuplicate(m, got, p, f);
      assert got' == got;
    } else {
      ChunkMapAdd(m, got, f.index);
      FullIff(m, got', p.count);
      if AllOf(m.Count(), got') { SplitIsWhole(m, got'); }
    }
  }

  /** The partial the next fragment of a message goes into. */
  lemma StartingPoint(mail: Mail, before: seq<Arrival>, ps: seq<Partial>, a: Arrival)
    requires MailOk(mail) && Holding(mail, before, ps) && Acceptable(mail, before, a)
    ensures var p := Lookup(ps, a.message).GetOr(NewPartial(a.message, mail[a.message].Count()));
            Kept(mail[a.message], Got(before, a.message), p) && p.received < p.count
  {
    var m := a.message;
    assert HoldsFor(mail, before, ps, m);
    NewPartialShape(m, mail[m].Count());
    if Lookup(ps, m).None? {
      assert Got(before, m) == {};
      assert ChunkMap(mail[m], {}) == map[];
    } else {
      assert PartialOk(Lookup(ps, m).value);
    }
  }

  lemma ArrivalOwn(mail: Mail, before: seq<Arrival>, ps: seq<Partial>, a: Arrival)
    requires MailOk(mail) && Holding(mail, before, ps) && Acceptable(mail, before, a)
    ensures var after := before + [a];
            var (qs, r) := AcceptStep(ps, Descriptor(mail, a), mail[a.message].Chunk(a.index));
            && r == Ok(if Complete(mail, after, a.message) then Some(mail[a.message].data) else None)
            && HoldsFor(mail, after, qs, a.message)
  {
    var m := a.message;
    var f := Descriptor(mail, a);
    var p := Lookup(ps, m).GetOr(NewPartial(m, f.count));
    GotAppend(before, a, m);
    StartingPoint(mail, before, ps, a);
    assert Lookup(ps, m).Some? ==> Lookup(ps, m).value.count == f.count;
    GenuineFits(mail[m], Got(before, m), p, f);
    OwnFragment(mail[m], Got(before, m), p, f);
    InsertedInto(ps, f, mail[m].Chunk(a.index));
    AcceptLookup(ps, f, mail[m].Chunk(a.index), m);
  }

  lemma ArrivalOther(mail: Mail, before: seq<Arrival>, ps: seq<Partial>, a: Arrival, n: u32)
    requires MailOk(mail) && Holding(mail, before, ps) && Acceptable(mail, before, a) && n != a.message
    ensures HoldsFor(mail, before + [a], AcceptStep(ps, Descriptor(mail, a), mail[a.message].Chunk(a.index)).0, n)
  {
    GotAppend(before, a, n);
    RoomForNew(mail, before, ps, a, n);
    AcceptLookup(ps, Descriptor(mail, a), mail[a.message].Chunk(a.index), n);
    assert HoldsFor(mail, before, ps, n);
  }

  /** One genuine fragment: the message comes back whole when this was the last
      fragment missing, and otherwise the table goes on holding what came. */
  lemma ArrivalKeeps(mail: Mail, before: seq<Arrival>, ps: seq<Partial>, a: Arrival)
    requires MailOk(mail) && Holding(mail, before, ps) && Acceptable(mail, before, a)
    ensures var after := before + [a];
            var (qs, r) := AcceptStep(ps, Descriptor(mail, a), mail[a.message].Chunk(a.index));
            && r == Ok(if Complete(mail, after, a.message) then Some(mail[a.message].data) else None)
            && Holding(mail, after, qs)
  {
    var f, data := Descriptor(mail, a), mail[a.message].Chunk(a.index);
    var qs := AcceptStep(ps, f, data).0;
    AcceptValid(ps, f, data);
    forall n: u32 ensures HoldsFor(mail, before + [a], qs, n) {
      if n == a.message { ArrivalOwn(mail, before, ps, a); } else { ArrivalOther(mail, before, ps, a, n); }
    }
    ArrivalOwn(mail, before, ps, a);
  }

  function Deliver(mail: Mail, ps: seq<Partial>, a: Arrival): (r: (seq<Partial>, Result<Option<seq<byte>>>))
    requires MailOk(mail) && Valid(ps) && a.message in mail && a.index < mail[a.message].Count()
    ensures Valid(r.0)
  {
    AcceptValid(ps, Descriptor(mail, a), mail[a.message].Chunk(a.index));
    AcceptStep(ps, Descriptor(mail, a), mail[a.message].Chunk(a.index))
  }

  /** The table after the arrivals. */
  function Table(mail: Mail, arrivals: seq<Arrival>): (ps: seq<Partial>)
    requires MailOk(mail) && AllAcceptable(mail, arrivals)
    ensures Valid(ps)
  {
    if arrivals == [] then [] else Deliver(mail, Table(mail, Init(arrivals)), Last(arrivals)).0
  }

  /** What the call for the last arrival returned. */
  function Returned(mail: Mail, arrivals: seq<Arrival>): Result<Option<seq<byte>>>
    requires MailOk(mail) && AllAcceptable(mail, arrivals) && arrivals != []
  {
    Deliver(mail, Table(mail, Init(arrivals)), Last(arrivals)).1
  }

  lemma {:induction false} TableHolds(mail: Mail, arrivals: seq<Arrival>)
    requires MailOk(mail) && AllAcceptable(mail, arrivals)
    ensures Holding(mail, arrivals, Table(mail, arrivals))
  {
    if arrivals == [] {
      forall m: u32 ensures HoldsFor(mail, [], [], m) {}
    } else {
      TableHolds(mail, Init(arrivals));
      ArrivalKeeps(mail, Init(arrivals), Table(mail, Init(arrivals)), Last(arrivals));
      Rejoined(arrivals);
    }
  }

  lemma Rejoined(arrivals: seq<Arrival>)
    requires arrivals != []
    ensures Init(arrivals) + [Last(arrivals)] == arrivals
  {
  }

  /** Split, shuffle and reassemble: with at most four messages unfinished at any
      time and no fragment after its message is finished, the arrival that
      completes a message returns exactly its payload and no other arrival returns
      anything. */
  lemma SplitThenReassemble(mail: Mail, arrivals: seq<Arrival>)
    requires MailOk(mail) && AllAcceptable(mail, arrivals) && arrivals != []
    ensures var m := Last(arrivals).message;
            Returned(mail, arrivals) == Ok(if Complete(mail, arrivals, m) then Some(mail[m].data) else None)
  {
    TableHolds(mail, Init(arrivals));
    Rejoined(arrivals);
    ArrivalReturns(mail, arrivals, Init(arrivals), Table(mail, Init(arrivals)), Last(arrivals));
  }

  lemma ArrivalReturns(mail: Mail, arrivals: seq<Arrival>, before: seq<Arrival>, ps: seq<Partial>, a: Arrival)
    requires MailOk(mail) && arrivals == before + [a] && Acceptable(mail, before, a) && Holding(mail, before, ps)
    ensures Deliver(mail, ps, a).1 == Ok(if Complete(mail, arrivals, a.message) then Some(mail[a.message].data) else None)
  {
    ArrivalKeeps(mail, before, ps, a);
  }

  /** The table holds exactly the unfinished messages, so it is empty once every
      message begun has arrived in full. */
  lemma NothingLeftBehind(mail: Mail, arrivals: seq<Arrival>)
    requires MailOk(mail) && AllAcceptable(mail, arrivals)
    ensures forall m: u32 :: Lookup(Table(mail, arrivals), m).Some? <==> IsLive(mail, arrivals, m)
    ensures Live(mail, arrivals) == {} ==> Table(mail, arrivals) == []
  {
    TableHolds(mail, arrivals);
    var ps := Table(mail, arrivals);
    forall m: u32 ensures Lookup(ps, m).Some? <==> IsLive(mail, arrivals, m) {
      assert HoldsFor(mail, arrivals, ps, m);
    }
    if ps != [] {
      LookupAt(ps, 0);
      assert ps[0].message in Live(mail, arrivals);
    }
  }
}
