/** Every run of path MTU discovery. */
module PmtuRuns {
  import opened Bits
  import opened Outcomes
  import opened Pmtu

  datatype Event =
    | Due(now: nat, retry: nat, tokens: nat -> Token)
    | Answer(token: Token, now: nat)
    | Suspect(now: nat)
    | Reset(now: nat)

  /** The state, with what the search in progress started from, whether anything it
      sent was answered, whether a search has finished since the last reset, the sizes
      answered since then, and the probes sent since the search began. */
  datatype Hist = Hist(pm: State, start: nat, heard: bool, done: bool, confirmed: set<nat>, asked: seq<Ask>)

  function Start(cap: nat, now: nat): Hist {
    Hist(NewState(cap, now), Min(BASE, cap), false, false, {}, [])
  }

  function Step(h: Hist, e: Event): Hist {
    match e
    case Due(now, retry, tokens) =>
      var (pm, asks) := DueStep(h.pm, now, retry, tokens);
      var h1 := if SearchDue(h.pm, now) then h.(start := h.pm.current, heard := false, asked := []) else h;
      h1.(pm := pm, done := h.done || (h.pm.probes != [] && pm.probes == []), asked := h1.asked + asks)
    case Answer(token, now) =>
      var k := Find(h.pm.probes, token);
      var pm := AnsweredStep(h.pm, token, now).0;
      if k == |h.pm.probes| then h
      else h.(pm := pm, heard := true, done := h.done || pm.probes == [],
              confirmed := h.confirmed + {h.pm.probes[k].size})
    case Suspect(now) => h.(pm := SuspectStep(h.pm, now))
    case Reset(now) => Hist(ResetStep(h.pm, now), Min(BASE, h.pm.cap), false, false, {}, [])
  }

  function Run(cap: nat, t0: nat, events: seq<Event>): Hist {
    if events == [] then Start(cap, t0)
    else Step(Run(cap, t0, events[..|events| - 1]), events[|events| - 1])
  }

  // ---- The sizes of a search --------------------------------------------------------

  /** What a search from `start` asks about. */
  predicate Candidate(start: nat, cap: nat, x: nat) {
    && (x in [1280, 1400, 1452, 1472] || x == cap || x == start)
    && x <= cap
    && (if start > 1200 then x >= start else x > start)
  }

  lemma {:induction false} InsertMember(sizes: seq<nat>, x: nat, y: nat)
    ensures y in Insert(sizes, x) <==> y == x || y in sizes
  {
    if sizes != [] && x > sizes[0] { InsertMember(sizes[1..], x, y); }
  }

  lemma {:induction false} SortedMember(sizes: seq<nat>, y: nat)
    ensures y in Sorted(sizes) <==> y in sizes
  {
    if sizes != [] {
      SortedMember(sizes[1..], y);
      InsertMember(Sorted(sizes[1..]), sizes[0], y);
    }
  }

  lemma {:induction false} WithinMember(sizes: seq<nat>, floor: int, cap: nat, y: nat)
    ensures y in Within(sizes, floor, cap) <==> y in sizes && floor < y <= cap
  {
    if sizes != [] { WithinMember(sizes[1..], floor, cap, y); }
  }

  lemma SizesMember(start: nat, cap: nat, x: nat)
    ensures x in Sizes(start, cap) <==> Candidate(start, cap, x)
  {
    var validating := start > BASE;
    var floor := if validating then start - 1 else start;
    var all := LADDER + [cap] + if validating then [start] else [];
    SortedMember(Within(all, floor, cap), x);
    WithinMember(all, floor, cap, x);
    assert x in all <==> x in LADDER || x == cap || (validating && x == start);
  }

  lemma {:induction false} RetainedMember(probes: seq<Probe>, now: nat, retry: nat, p: Probe)
    ensures p in Retained(probes, now, retry) <==>
            exists i :: 0 <= i < |probes| && !GivenUp(probes[i], now, retry) && p == Passed(probes[i], now, retry)
  {
    if probes != [] { RetainedMember(probes[..|probes| - 1], now, retry, p); }
  }

  lemma {:induction false} LargerMember(probes: seq<Probe>, size: nat, p: Probe)
    ensures p in Larger(probes, size) <==> p in probes && p.size > size
  {
    if probes != [] { LargerMember(probes[..|probes| - 1], size, p); }
  }

  // ---- What every run keeps -----------------------------------------------------------

  /** Nothing at or below this is still being asked about. */
  function Bottom(h: Hist): int {
    if h.heard then h.pm.current else if h.start > BASE then h.start - 1 else h.start
  }

  predicate ProbeOk(h: Hist, p: Probe) {
    Candidate(h.start, h.pm.cap, p.size) && p.size > Bottom(h) && 1 <= p.tries <= PROBE_TRIES
  }

  predicate Inv(h: Hist) {
    var s := h.pm;
    && Min(BASE, s.cap) <= s.current <= s.cap
    && (s.cap > BASE ==> s.probes != [] || s.nextSearch.Some?)
    && (s.cap <= BASE ==> s.probes == [] && s.nextSearch.None?)
    && (s.probes != [] ==> s.nextSearch.None?)
    && (s.validating <==> s.probes != [] && !h.heard && h.start > BASE)
    && (s.probes != [] && !h.heard ==> s.current == h.start)
    && (s.probes != [] ==> h.start >= Min(BASE, s.cap))
    && (forall p <- s.probes :: ProbeOk(h, p))
    && (s.current == Min(BASE, s.cap) || s.current in h.confirmed)
  }

  lemma StartOk(cap: nat, now: nat)
    ensures Inv(Start(cap, now))
  {
  }

  /** A search that begins asks about something, and everything it asks about is sent. */
  lemma BeginKeeps(h: Hist, now: nat, retry: nat, tokens: nat -> Token)
    requires Inv(h) && SearchDue(h.pm, now)
    ensures var t := Step(h, Due(now, retry, tokens));
            Inv(t) && t.pm.probes != [] && t.pm.current == h.pm.current && !t.heard && t.done == h.done
    ensures forall x :: Candidate(h.pm.current, h.pm.cap, x) <==>
              exists p <- Step(h, Due(now, retry, tokens)).pm.probes :: p.size == x
  {
    var s := h.pm;
    var sizes := Sizes(s.current, s.cap);
    var begun := Fresh(sizes, tokens, now);
    var kept := Retained(begun, now, retry);
    forall p | p in kept
      ensures Candidate(s.current, s.cap, p.size) && p.tries == 1
    {
      RetainedMember(begun, now, retry, p);
      SizesMember(s.current, s.cap, p.size);
    }
    forall x | Candidate(s.current, s.cap, x)
      ensures exists p <- kept :: p.size == x
    {
      SizesMember(s.current, s.cap, x);
      var i :| 0 <= i < |sizes| && sizes[i] == x;
      RetainedMember(begun, now, retry, Passed(begun[i], now, retry));
    }
    assert Candidate(s.current, s.cap, s.cap);
    var t := Step(h, Due(now, retry, tokens));
    assert t.pm.probes == kept;
  }

  lemma PassKeeps(h: Hist, now: nat, retry: nat, tokens: nat -> Token)
    requires Inv(h) && !SearchDue(h.pm, now)
    ensures Inv(Step(h, Due(now, retry, tokens)))
  {
    var s := h.pm;
    var kept := Retained(s.probes, now, retry);
    forall p | p in kept ensures ProbeOk(h, p) {
      RetainedMember(s.probes, now, retry, p);
      var i :| 0 <= i < |s.probes| && !GivenUp(s.probes[i], now, retry) && p == Passed(s.probes[i], now, retry);
      assert s.probes[i] in s.probes;
    }
    if s.probes == [] { assert kept == []; }
  }

  lemma AnswerKeeps(h: Hist, token: Token, now: nat)
    requires Inv(h)
    ensures Inv(Step(h, Answer(token, now)))
  {
    var s := h.pm;
    var k := Find(s.probes, token);
    if k < |s.probes| {
      var size := s.probes[k].size;
      assert s.probes[k] in s.probes;
      var t := Step(h, Answer(token, now));
      forall p | p in Larger(s.probes, size) ensures ProbeOk(t, p) {
        LargerMember(s.probes, size, p);
      }
    }
  }

  lemma StepKeeps(h: Hist, e: Event)
    requires Inv(h)
    ensures Inv(Step(h, e)) && Step(h, e).pm.cap == h.pm.cap
  {
    match e
    case Due(now, retry, tokens) =>
      if SearchDue(h.pm, now) { BeginKeeps(h, now, retry, tokens); } else { PassKeeps(h, now, retry, tokens); }
    case Answer(token, now) => AnswerKeeps(h, token, now);
    case Suspect(_) =>
    case Reset(_) =>
  }

  lemma {:induction false} RunInv(cap: nat, t0: nat, events: seq<Event>)
    ensures Inv(Run(cap, t0, events)) && Run(cap, t0, events).pm.cap == cap
  {
    if events == [] {
      StartOk(cap, t0);
    } else {
      RunInv(cap, t0, events[..|events| - 1]);
      StepKeeps(Run(cap, t0, events[..|events| - 1]), events[|events| - 1]);
    }
  }

  /** Never stuck and never out of bounds, over every run: the size in use is the
      base or one that was answered, never above the cap, and while the cap is
      above the base a probe is in flight or a search is planned. */
  lemma NeverStuck(cap: nat, t0: nat, events: seq<Event>)
    ensures var h := Run(cap, t0, events);
            && Min(BASE, cap) <= h.pm.current <= cap
            && (h.pm.current == Min(BASE, cap) || h.pm.current in h.confirmed)
            && (cap > BASE <==> h.pm.probes != [] || h.pm.nextSearch.Some?)
            && (forall p <- h.pm.probes :: 1 <= p.tries <= 3)
  {
    RunInv(cap, t0, events);
  }

  /** The size in use drops in exactly one way besides a reset: a search that was
      checking it ends with nothing it sent answered, and then it drops to the
      base. */
  lemma FallsBackOnlyUnanswered(cap: nat, t0: nat, events: seq<Event>, e: Event)
    requires !e.Reset?
    ensures var h := Run(cap, t0, events);
            var t := Step(h, e);
            && (t.pm.current < h.pm.current <==>
                  h.pm.probes != [] && t.pm.probes == [] && !t.heard && h.start > BASE)
            && (t.pm.current < h.pm.current ==> t.pm.current == BASE && h.pm.current == h.start)
  {
    RunInv(cap, t0, events);
    var h := Run(cap, t0, events);
    StepKeeps(h, e);
    if e.Answer? {
      var k := Find(h.pm.probes, e.token);
      if k < |h.pm.probes| { assert h.pm.probes[k] in h.pm.probes; }
    } else if e.Due? && SearchDue(h.pm, e.now) {
      BeginKeeps(h, e.now, e.retry, e.tokens);
    }
  }

  // ---- What is sent ---------------------------------------------------------------------

  ghost predicate Rising(sizes: seq<nat>) {
    forall i, j :: 0 <= i < j < |sizes| ==> sizes[i] < sizes[j]
  }

  lemma {:induction false} InsertRises(sizes: seq<nat>, x: nat)
    requires Rising(sizes)
    ensures Rising(Insert(sizes, x))
  {
    if sizes != [] && x > sizes[0] {
      InsertRises(sizes[1..], x);
      var rest := Insert(sizes[1..], x);
      forall j | 0 <= j < |rest| ensures sizes[0] < rest[j] {
        InsertMember(sizes[1..], x, rest[j]);
      }
    }
  }

  lemma {:induction false} SortedRises(sizes: seq<nat>)
    ensures Rising(Sorted(sizes))
  {
    if sizes != [] {
      SortedRises(sizes[1..]);
      InsertRises(Sorted(sizes[1..]), sizes[0]);
    }
  }

  /** No two probes for one size. */
  ghost predicate RisingProbes(probes: seq<Probe>) {
    forall i, j :: 0 <= i < j < |probes| ==> probes[i].size < probes[j].size
  }

  function Count(asks: seq<Ask>, a: Ask): nat {
    if asks == [] then 0 else Count(asks[..|asks| - 1], a) + if asks[|asks| - 1] == a then 1 else 0
  }

  lemma {:induction false} CountBoth(a: seq<Ask>, b: seq<Ask>, x: Ask)
    ensures Count(a + b, x) == Count(a, x) + Count(b, x)
  {
    if b == [] {
      assert a + b == a;
    } else {
      CountBoth(a, b[..|b| - 1], x);
      assert (a + b)[..|a + b| - 1] == a + b[..|b| - 1];
    }
  }

  function AskOf(p: Probe): Ask {
    Ask(p.size, p.token)
  }

  predicate Sends(p: Probe, now: nat, retry: nat) {
    !Waits(p, now, retry) && p.tries < PROBE_TRIES
  }

  lemma {:induction false} NotAsked(probes: seq<Probe>, now: nat, retry: nat, a: Ask)
    requires forall i :: 0 <= i < |probes| ==> probes[i].size != a.size
    ensures Count(Asked(probes, now, retry), a) == 0
  {
    if probes != [] {
      var front := probes[..|probes| - 1];
      NotAsked(front, now, retry, a);
      var asks := Asked(probes, now, retry);
      if asks != Asked(front, now, retry) { assert asks[..|asks| - 1] == Asked(front, now, retry); }
    }
  }

  /** A pass sends each probe it neither waits for nor gives up, once. */
  lemma {:induction false} AskedOnce(probes: seq<Probe>, now: nat, retry: nat, i: nat)
    requires RisingProbes(probes) && i < |probes|
    ensures Count(Asked(probes, now, retry), AskOf(probes[i])) == if Sends(probes[i], now, retry) then 1 else 0
  {
    var front, last := probes[..|probes| - 1], probes[|probes| - 1];
    if i < |front| {
      AskedOnce(front, now, retry, i);
    } else {
      NotAsked(front, now, retry, AskOf(probes[i]));
    }
    var asks := Asked(probes, now, retry);
    if Sends(last, now, retry) { assert asks[..|asks| - 1] == Asked(front, now, retry); }
  }

  lemma {:induction false} RetainedRises(probes: seq<Probe>, now: nat, retry: nat)
    requires RisingProbes(probes)
    ensures RisingProbes(Retained(probes, now, retry))
  {
    if probes != [] {
      var front, last := probes[..|probes| - 1], probes[|probes| - 1];
      RetainedRises(front, now, retry);
      var rest := Retained(front, now, retry);
      forall j | 0 <= j < |rest| ensures rest[j].size < last.size {
        assert rest[j] in rest;
        RetainedMember(front, now, retry, rest[j]);
      }
    }
  }

  lemma {:induction false} LargerRises(probes: seq<Probe>, size: nat)
    requires RisingProbes(probes)
    ensures RisingProbes(Larger(probes, size))
  {
    if probes != [] {
      var front, last := probes[..|probes| - 1], probes[|probes| - 1];
      LargerRises(front, size);
      var rest := Larger(front, size);
      forall j | 0 <= j < |rest| ensures rest[j].size < last.size {
        assert rest[j] in rest;
        LargerMember(front, size, rest[j]);
      }
    }
  }

  /** Each probe outstanding was sent as often as it says. */
  ghost predicate Tallied(h: Hist) {
    RisingProbes(h.pm.probes) && forall p <- h.pm.probes :: Count(h.asked, AskOf(p)) == p.tries
  }

  /** One pass over `probes`, of which each was sent as often as it says in `asked`. */
  lemma PassTallied(probes: seq<Probe>, asked: seq<Ask>, now: nat, retry: nat)
    requires RisingProbes(probes) && forall p <- probes :: Count(asked, AskOf(p)) == p.tries
    ensures forall p <- Retained(probes, now, retry) :: Count(asked + Asked(probes, now, retry), AskOf(p)) == p.tries
  {
    forall p <- Retained(probes, now, retry) ensures Count(asked + Asked(probes, now, retry), AskOf(p)) == p.tries {
      RetainedMember(probes, now, retry, p);
      var i :| 0 <= i < |probes| && !GivenUp(probes[i], now, retry) && p == Passed(probes[i], now, retry);
      assert probes[i] in probes;
      AskedOnce(probes, now, retry, i);
      CountBoth(asked, Asked(probes, now, retry), AskOf(p));
    }
  }

  lemma DueTallied(h: Hist, now: nat, retry: nat, tokens: nat -> Token)
    requires Inv(h) && Tallied(h)
    ensures Tallied(Step(h, Due(now, retry, tokens)))
  {
    var b := Begun(h.pm, now, tokens);
    if SearchDue(h.pm, now) {
      SortedRises(Within(LADDER + [h.pm.cap] + if h.pm.current > BASE then [h.pm.current] else [],
                         if h.pm.current > BASE then h.pm.current - 1 else h.pm.current, h.pm.cap));
      PassTallied(b.probes, [], now, retry);
    } else {
      PassTallied(b.probes, h.asked, now, retry);
    }
    RetainedRises(b.probes, now, retry);
  }

  lemma StepTallied(h: Hist, e: Event)
    requires Inv(h) && Tallied(h)
    ensures Tallied(Step(h, e))
  {
    match e
    case Due(now, retry, tokens) => DueTallied(h, now, retry, tokens);
    case Answer(token, now) =>
      var k := Find(h.pm.probes, token);
      if k < |h.pm.probes| {
        LargerRises(h.pm.probes, h.pm.probes[k].size);
        forall p <- Larger(h.pm.probes, h.pm.probes[k].size) ensures Count(h.asked, AskOf(p)) == p.tries {
          LargerMember(h.pm.probes, h.pm.probes[k].size, p);
        }
      }
    case _ =>
  }

  /** Over every run, each probe outstanding has been sent exactly as often as its count of
      tries, since its search began. */
  lemma {:induction false} ProbesAreSent(cap: nat, t0: nat, events: seq<Event>)
    ensures Tallied(Run(cap, t0, events))
  {
    if events != [] {
      var front := events[..|events| - 1];
      ProbesAreSent(cap, t0, front);
      RunInv(cap, t0, front);
      StepTallied(Run(cap, t0, front), events[|events| - 1]);
    }
  }

  lemma {:induction false} AskedFrom(probes: seq<Probe>, now: nat, retry: nat, i: nat) returns (k: nat)
    requires i < |Asked(probes, now, retry)|
    ensures k < |probes| && Asked(probes, now, retry)[i] == AskOf(probes[k]) && Sends(probes[k], now, retry)
  {
    var front := probes[..|probes| - 1];
    if i < |Asked(front, now, retry)| {
      k := AskedFrom(front, now, retry, i);
    } else {
      k := |probes| - 1;
    }
  }

  /** Nothing is sent for a size that is not being asked about after the pass. */
  lemma OnlyProbesAreSent(cap: nat, t0: nat, events: seq<Event>, now: nat, retry: nat, tokens: nat -> Token, a: Ask)
    requires a in DueStep(Run(cap, t0, events).pm, now, retry, tokens).1
    ensures exists p <- Run(cap, t0, events + [Due(now, retry, tokens)]).pm.probes :: AskOf(p) == a
  {
    RunUnfolds(cap, t0, events + [Due(now, retry, tokens)], events, Due(now, retry, tokens));
    var b := Begun(Run(cap, t0, events).pm, now, tokens);
    var asks := Asked(b.probes, now, retry);
    var i :| 0 <= i < |asks| && asks[i] == a;
    var k := AskedFrom(b.probes, now, retry, i);
    var p := Passed(b.probes[k], now, retry);
    RetainedMember(b.probes, now, retry, p);
    assert AskOf(p) == a;
  }

  lemma {:induction false} AllFreshAsked(probes: seq<Probe>, now: nat, retry: nat)
    requires forall i :: 0 <= i < |probes| ==> probes[i].tries == 0
    ensures |Asked(probes, now, retry)| == |probes|
    ensures forall i :: 0 <= i < |probes| ==> Asked(probes, now, retry)[i] == AskOf(probes[i])
  {
    if probes != [] { AllFreshAsked(probes[..|probes| - 1], now, retry); }
  }

  /** The pass that begins a search sends one probe for each size there is to ask about, from the
      smallest up, each under its own token. */
  lemma SearchAsks(cap: nat, t0: nat, events: seq<Event>, now: nat, retry: nat, tokens: nat -> Token)
    requires SearchDue(Run(cap, t0, events).pm, now)
    ensures var h := Run(cap, t0, events);
            var asks := DueStep(h.pm, now, retry, tokens).1;
            && (forall i, j :: 0 <= i < j < |asks| ==> asks[i].size < asks[j].size)
            && (forall i :: 0 <= i < |asks| ==> asks[i].token == tokens(asks[i].size))
            && (forall x: nat :: Candidate(h.pm.current, cap, x) <==> Ask(x, tokens(x)) in asks)
  {
    RunInv(cap, t0, events);
    var s := Run(cap, t0, events).pm;
    var sizes := Sizes(s.current, s.cap);
    SortedRises(Within(LADDER + [s.cap] + if s.current > BASE then [s.current] else [],
                       if s.current > BASE then s.current - 1 else s.current, s.cap));
    var begun := Fresh(sizes, tokens, now);
    AllFreshAsked(begun, now, retry);
    forall x: nat ensures Candidate(s.current, cap, x) <==> Ask(x, tokens(x)) in Asked(begun, now, retry) {
      SizesMember(s.current, s.cap, x);
      if x in sizes {
        var i :| 0 <= i < |sizes| && sizes[i] == x;
        assert Asked(begun, now, retry)[i] == Ask(x, tokens(x));
      }
    }
  }

  /** A probe outstanding is sent again by a pass exactly when it has been sent fewer than three
      times and its answer has been awaited for the retry time, or a quarter of a second if that
      is longer. */
  lemma ProbesArePaced(cap: nat, t0: nat, events: seq<Event>, now: nat, retry: nat, tokens: nat -> Token, p: Probe)
    requires p in Run(cap, t0, events).pm.probes
    ensures var asks := DueStep(Run(cap, t0, events).pm, now, retry, tokens).1;
            Ask(p.size, p.token) in asks <==> p.tries < 3 && now >= p.last + (if retry > 250 then retry else 250)
  {
    RunInv(cap, t0, events);
    ProbesAreSent(cap, t0, events);
    var h := Run(cap, t0, events);
    assert ProbeOk(h, p);
    var i :| 0 <= i < |h.pm.probes| && h.pm.probes[i] == p;
    AskedOnce(h.pm.probes, now, retry, i);
    CountIsMember(Asked(h.pm.probes, now, retry), AskOf(p));
  }

  lemma {:induction false} CountIsMember(asks: seq<Ask>, a: Ask)
    ensures a in asks <==> Count(asks, a) > 0
  {
    if asks != [] { CountIsMember(asks[..|asks| - 1], a); }
  }

  /** An answer is reported as a change exactly when the size in use is another, which it never is
      for a token nothing outstanding was sent under. */
  lemma ChangesAreReported(cap: nat, t0: nat, events: seq<Event>, token: Token, now: nat)
    ensures var h, t := Run(cap, t0, events), Run(cap, t0, events + [Answer(token, now)]);
            && (AnsweredStep(h.pm, token, now).1 <==> t.pm.current != h.pm.current)
            && ((forall p <- h.pm.probes :: p.token != token) ==> t == h)
  {
    RunUnfolds(cap, t0, events + [Answer(token, now)], events, Answer(token, now));
    var h := Run(cap, t0, events);
    var k := Find(h.pm.probes, token);
    if k < |h.pm.probes| { assert h.pm.probes[k] in h.pm.probes; }
  }

  /** A search under way, and what it is checking. */
  predicate Searching(s: State) {
    s.cap > 1200 && s.probes != [] && s.nextSearch.None? && (s.validating ==> s.current > 1200)
  }

  predicate Planned(s: State, t: State, now: nat) {
    t.nextSearch == Some(now + if t.current < s.current then 60_000 else 600_000)
  }

  lemma DuePlans(s: State, now: nat, retry: nat, tokens: nat -> Token)
    requires Searching(s) && DueStep(s, now, retry, tokens).0.probes == []
    ensures Planned(s, DueStep(s, now, retry, tokens).0, now)
  {
  }

  lemma AnswerPlans(s: State, token: Token, now: nat)
    requires Searching(s) && AnsweredStep(s, token, now).0.probes == []
    ensures Planned(s, AnsweredStep(s, token, now).0, now)
  {
  }

  /** When a search ends, the next is planned: ten minutes on, or one minute after it fell back. */
  lemma NextSearchIsPlanned(cap: nat, t0: nat, events: seq<Event>, e: Event)
    requires (e.Due? || e.Answer?) && Run(cap, t0, events).pm.probes != [] && Step(Run(cap, t0, events), e).pm.probes == []
    ensures var h, t := Run(cap, t0, events), Step(Run(cap, t0, events), e);
            t.pm.nextSearch == Some(e.now + if t.pm.current < h.pm.current then 60_000 else 600_000)
  {
    RunInv(cap, t0, events);
    var s := Run(cap, t0, events).pm;
    if e.Due? { DuePlans(s, e.now, e.retry, e.tokens); } else { AnswerPlans(s, e.token, e.now); }
  }

  /** A new path starts again from the base, with a search of everything above it at once. */
  lemma NewPathIsSearched(cap: nat, t0: nat, events: seq<Event>, now: nat, later: nat, retry: nat, tokens: nat -> Token, x: nat)
    requires later >= now && cap > 1200
    ensures var t := Run(cap, t0, events + [Reset(now)]);
            && t.pm.current == 1200
            && (Candidate(1200, cap, x) <==> Ask(x, tokens(x)) in DueStep(t.pm, later, retry, tokens).1)
  {
    RunUnfolds(cap, t0, events + [Reset(now)], events, Reset(now));
    RunInv(cap, t0, events);
    SearchAsks(cap, t0, events + [Reset(now)], later, retry, tokens);
  }

  /** Suspicion has the size in use checked by the next pass, unless that size is the base or a
      search is under way already, when it changes nothing. */
  lemma SuspicionIsFollowedUp(cap: nat, t0: nat, events: seq<Event>, now: nat, later: nat, retry: nat, tokens: nat -> Token)
    requires later >= now
    ensures var h, t := Run(cap, t0, events), Run(cap, t0, events + [Suspect(now)]);
            if h.pm.current > BASE && h.pm.probes == []
            then Ask(h.pm.current, tokens(h.pm.current)) in DueStep(t.pm, later, retry, tokens).1
            else t == h
  {
    RunUnfolds(cap, t0, events + [Suspect(now)], events, Suspect(now));
    RunInv(cap, t0, events);
    var h := Run(cap, t0, events);
    if h.pm.current > BASE && h.pm.probes == [] {
      SearchAsks(cap, t0, events + [Suspect(now)], later, retry, tokens);
    }
  }

  // ---- Every search ends ----------------------------------------------------------------

  /** A pass by which every probe's answer is overdue. */
  predicate Overdue(h: Hist, e: Event) {
    e.Due? && forall p <- h.pm.probes :: !Waits(p, e.now, e.retry)
  }

  function OverduePasses(cap: nat, t0: nat, events: seq<Event>, more: seq<Event>): nat {
    if more == [] then 0
    else
      var front := more[..|more| - 1];
      OverduePasses(cap, t0, events, front) +
      if Overdue(Run(cap, t0, events + front), more[|more| - 1]) then 1 else 0
  }

  predicate TriedAll(probes: seq<Probe>, n: nat) {
    forall p <- probes :: p.tries >= n
  }

  lemma StepTries(h: Hist, e: Event, n: nat)
    requires h.pm.probes != [] && TriedAll(h.pm.probes, n)
    ensures TriedAll(Step(h, e).pm.probes, if Overdue(h, e) then n + 1 else n)
  {
    var t := Step(h, e);
    forall p <- t.pm.probes ensures p.tries >= if Overdue(h, e) then n + 1 else n {
      match e
      case Due(now, retry, _) =>
        RetainedMember(h.pm.probes, now, retry, p);
        var i :| 0 <= i < |h.pm.probes| && p == Passed(h.pm.probes[i], now, retry);
        assert h.pm.probes[i] in h.pm.probes;
      case Answer(token, now) =>
        var k := Find(h.pm.probes, token);
        if k < |h.pm.probes| { LargerMember(h.pm.probes, h.pm.probes[k].size, p); }
      case _ =>
    }
  }

  lemma RunUnfolds(cap: nat, t0: nat, all: seq<Event>, front: seq<Event>, e: Event)
    requires all == front + [e]
    ensures Run(cap, t0, all) == Step(Run(cap, t0, front), e)
  {
    assert all[..|all| - 1] == front;
  }

  lemma LastApart(events: seq<Event>, more: seq<Event>)
    requires more != []
    ensures events + more == events + more[..|more| - 1] + [more[|more| - 1]]
  {
  }

  lemma {:induction false} EndsOrTries(cap: nat, t0: nat, events: seq<Event>, more: seq<Event>) returns (n: Option<nat>)
    requires Run(cap, t0, events).pm.probes != []
    ensures n.Some? ==> n.value <= |more| && Run(cap, t0, events + more[..n.value]).pm.probes == []
    ensures n.None? ==> var h := Run(cap, t0, events + more);
                        h.pm.probes != [] && TriedAll(h.pm.probes, 1 + OverduePasses(cap, t0, events, more))
    decreases |more|
  {
    if more == [] {
      n := None;
      assert events + more == events;
      RunInv(cap, t0, events);
    } else {
      var front := more[..|more| - 1];
      n := EndsOrTries(cap, t0, events, front);
      if n.Some? {
        assert front[..n.value] == more[..n.value];
      } else {
        LastApart(events, more);
        RunUnfolds(cap, t0, events + more, events + front, more[|more| - 1]);
        StepTries(Run(cap, t0, events + front), more[|more| - 1], 1 + OverduePasses(cap, t0, events, front));
        if Run(cap, t0, events + more).pm.probes == [] {
          n := Some(|more|);
          assert more[..|more|] == more;
        }
      }
    }
  }

  /** No search goes on for ever: whatever else happens, by the third pass at which every answer
      still awaited is overdue it has ended, and the next one is planned. */
  lemma SearchEnds(cap: nat, t0: nat, events: seq<Event>, more: seq<Event>) returns (n: nat)
    requires Run(cap, t0, events).pm.probes != [] && OverduePasses(cap, t0, events, more) >= 3
    ensures n <= |more|
    ensures var s := Run(cap, t0, events + more[..n]).pm; s.probes == [] && s.nextSearch.Some?
  {
    var end := EndsOrTries(cap, t0, events, more);
    RunInv(cap, t0, events);
    NotTriedMore(cap, t0, events + more);
    n := end.value;
    RunInv(cap, t0, events + more[..n]);
  }

  lemma NotTriedMore(cap: nat, t0: nat, events: seq<Event>)
    ensures var probes := Run(cap, t0, events).pm.probes; probes != [] ==> !TriedAll(probes, PROBE_TRIES + 1)
  {
    RunInv(cap, t0, events);
    var h := Run(cap, t0, events);
    if h.pm.probes != [] { assert h.pm.probes[0] in h.pm.probes && ProbeOk(h, h.pm.probes[0]); }
  }

  // ---- On a path that carries sizes up to `limit` ---------------------------------------

  /** What the path promises: only what it carries is answered, and what it carries is
      answered before it is given up. */
  predicate Carried(h: Hist, e: Event, limit: nat) {
    match e
    case Due(now, retry, _) => forall p <- h.pm.probes :: p.size <= limit ==> !GivenUp(p, now, retry)
    case Answer(token, _) =>
      var k := Find(h.pm.probes, token);
      k < |h.pm.probes| ==> h.pm.probes[k].size <= limit
    case _ => true
  }

  predicate CarriedRun(cap: nat, t0: nat, events: seq<Event>, limit: nat) {
    forall i :: 0 <= i < |events| ==> Carried(Run(cap, t0, events[..i]), events[i], limit)
  }

  /** The sizes discovery can settle on. */
  predicate Ranked(cap: nat, x: nat) {
    (x == BASE || x in LADDER || x == cap) && x <= cap
  }

  /** `x` is the largest size discovery can settle on that the path carries. */
  ghost predicate Best(cap: nat, limit: nat, x: nat) {
    Ranked(cap, x) && x <= limit && forall y: nat | Ranked(cap, y) && y <= limit :: y <= x
  }

  ghost predicate OnPath(h: Hist, limit: nat) {
    && (h.pm.probes != [] ==>
          forall x: nat | Candidate(h.start, h.pm.cap, x) && Bottom(h) < x <= limit ::
            exists p <- h.pm.probes :: p.size == x)
    && (h.heard && h.pm.probes != [] ==> Candidate(h.start, h.pm.cap, h.pm.current) && h.pm.current <= limit)
    && Ranked(h.pm.cap, h.pm.current) && h.pm.current <= limit
    && (h.pm.probes != [] ==> Ranked(h.pm.cap, h.start) && h.start <= limit)
    && (h.done ==> Best(h.pm.cap, limit, h.pm.current))
    && (h.done && h.pm.probes != [] ==> Best(h.pm.cap, limit, h.start))
  }

  lemma BeginOnPath(h: Hist, limit: nat, now: nat, retry: nat, tokens: nat -> Token)
    requires Inv(h) && OnPath(h, limit) && SearchDue(h.pm, now)
    ensures OnPath(Step(h, Due(now, retry, tokens)), limit)
  {
    BeginKeeps(h, now, retry, tokens);
  }

  /** A search that ends without giving up anything the path carries has found the best. */
  lemma SettledIsBest(h: Hist, limit: nat, x: nat)
    requires Inv(h) && OnPath(h, limit) && h.pm.probes != [] && h.pm.cap > BASE && limit >= BASE
    requires Ranked(h.pm.cap, x) && x <= limit && x >= h.pm.current
    requires forall p <- h.pm.probes :: p.size <= limit ==> p.size <= x
    ensures Best(h.pm.cap, limit, x)
  {
    forall y: nat | Ranked(h.pm.cap, y) && y <= limit
      ensures y <= x
    {
      if y > x {
        assert Candidate(h.start, h.pm.cap, y);
      }
    }
  }

  lemma PassOnPath(h: Hist, limit: nat, now: nat, retry: nat, tokens: nat -> Token)
    requires Inv(h) && OnPath(h, limit) && !SearchDue(h.pm, now) && h.pm.cap > BASE && limit >= BASE
    requires Carried(h, Due(now, retry, tokens), limit)
    ensures OnPath(Step(h, Due(now, retry, tokens)), limit)
  {
    var s := h.pm;
    var kept := Retained(s.probes, now, retry);
    forall p | p in s.probes && p.size <= limit
      ensures exists q <- kept :: q.size == p.size
    {
      var i :| 0 <= i < |s.probes| && s.probes[i] == p;
      RetainedMember(s.probes, now, retry, Passed(p, now, retry));
    }
    if s.probes != [] && kept == [] {
      assert forall p <- s.probes :: p.size > limit;
      SettledIsBest(h, limit, s.current);
      if s.validating { assert Candidate(h.start, s.cap, h.start); }
    }
  }

  lemma AnswerOnPath(h: Hist, limit: nat, token: Token, now: nat)
    requires Inv(h) && OnPath(h, limit) && h.pm.cap > BASE && limit >= BASE
    requires Carried(h, Answer(token, now), limit)
    ensures OnPath(Step(h, Answer(token, now)), limit)
  {
    var s := h.pm;
    var k := Find(s.probes, token);
    if k < |s.probes| {
      var size := s.probes[k].size;
      assert s.probes[k] in s.probes;
      var t := Step(h, Answer(token, now));
      forall p | p in s.probes && p.size > size ensures p in Larger(s.probes, size) { LargerMember(s.probes, size, p); }
      if t.pm.probes == [] {
        SettledIsBest(h, limit, size);
      } else if h.done {
        assert Ranked(s.cap, size);
      }
    }
  }

  lemma StepOnPath(h: Hist, limit: nat, e: Event)
    requires Inv(h) && OnPath(h, limit) && h.pm.cap > BASE && limit >= BASE && Carried(h, e, limit)
    ensures OnPath(Step(h, e), limit)
  {
    match e
    case Due(now, retry, tokens) =>
      if SearchDue(h.pm, now) { BeginOnPath(h, limit, now, retry, tokens); }
      else { PassOnPath(h, limit, now, retry, tokens); }
    case Answer(token, now) => AnswerOnPath(h, limit, token, now);
    case Suspect(_) =>
    case Reset(_) =>
  }

  /** Discovery is correct on every path that carries at least the base: once a first
      search has finished, the size in use is the largest of the base, the ladder
      and the cap that the path carries, and it stays that; before then, what is
      in use is always carried. */
  lemma {:induction false} FindsTheLargestCarried(cap: nat, t0: nat, events: seq<Event>, limit: nat)
    requires cap > BASE && limit >= BASE && CarriedRun(cap, t0, events, limit)
    ensures var h := Run(cap, t0, events);
            && h.pm.current <= limit
            && (h.done ==> Best(cap, limit, h.pm.current))
            && OnPath(h, limit)
  {
    RunInv(cap, t0, events);
    if events != [] {
      var before := events[..|events| - 1];
      forall i | 0 <= i < |before| ensures Carried(Run(cap, t0, before[..i]), before[i], limit) {
        assert before[..i] == events[..i];
      }
      FindsTheLargestCarried(cap, t0, before, limit);
      RunInv(cap, t0, before);
      assert Carried(Run(cap, t0, before), events[|events| - 1], limit);
      StepOnPath(Run(cap, t0, before), limit, events[|events| - 1]);
    }
  }
}
