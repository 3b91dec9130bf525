/** What the rendezvous keeps true over every run. */
module RendezvousRuns {
  import opened Bits
  import opened Outcomes
  import opened Rendezvous

  // ---- The invariant ----------------------------------------------------------------------

  /** `clients` and `byKey` are inverse to each other, and a client's key is its session's. */
  ghost predicate Inverse(keyOf: PeerId -> Key, clients: map<PeerId, Client>, byKey: map<Key, PeerId>) {
    && (forall p <- clients :: clients[p].key == keyOf(p) && keyOf(p) in byKey && byKey[keyOf(p)] == p)
    && (forall k <- byKey :: byKey[k] in clients && clients[byKey[k]].key == k)
  }

  predicate Uses(intro: Intro, n: nat) {
    intro.mine == n || intro.theirs == n
  }

  predicate Unspent(intros: seq<Intro>, n: nat) {
    forall i :: 0 <= i < |intros| ==> !Uses(intros[i], n)
  }

  /** Each side asked for the other; the second request came as the first was still within
      the window. */
  predicate IntroOk(asks: seq<Ask>, intro: Intro) {
    && intro.mine < |asks| && intro.theirs < |asks|
    && asks[intro.mine].from == asks[intro.theirs].target
    && asks[intro.mine].target == asks[intro.theirs].from
    && asks[intro.mine].from != asks[intro.mine].target
    && asks[intro.mine].at == intro.at
    && Since(intro.at, asks[intro.theirs].at) <= intro.window
  }

  /** No request is used by two introductions. */
  predicate Apart(a: Intro, b: Intro) {
    !Uses(b, a.mine) && !Uses(b, a.theirs)
  }

  ghost predicate IntrosOk(asks: seq<Ask>, intros: seq<Intro>) {
    && (forall i :: 0 <= i < |intros| ==> IntroOk(asks, intros[i]))
    && (forall i, j :: 0 <= i < j < |intros| ==> Apart(intros[i], intros[j]))
  }

  /** Each entry of `asked` stands for a request that was made then and not used since. */
  ghost predicate AsksOk(asked: map<(Key, Key), nat>, log: Log) {
    && log.standing.Keys == asked.Keys
    && (forall a <- log.standing :: StandsFor(log.asks, log.intros, a, asked[a], log.standing[a]))
  }

  predicate StandsFor(asks: seq<Ask>, intros: seq<Intro>, a: (Key, Key), at: nat, n: nat) {
    n < |asks| && asks[n] == Ask(a.0, a.1, at) && Unspent(intros, n)
  }

  ghost predicate RelaysOk(relays: map<(Key, Key), set<Ip>>) {
    |relays| <= MAX_RELAYS && forall ip: Ip :: |RelaysAt(relays, ip)| <= MAX_RELAYS_PER_IP
  }

  ghost predicate GroupsOk(groups: map<Tag, seq<Row>>) {
    && (forall tag <- groups :: groups[tag] != [] && ListOk(groups[tag]))
    && (forall p: PeerId :: |GroupsOf(groups, p)| <= MAX_GROUPS)
  }

  predicate ListOk(rows: seq<Row>) {
    |rows| <= MAX_GROUP_MEMBERS && Distinct(rows)
  }

  /** The introduction is between these two. */
  predicate Between(asks: seq<Ask>, intro: Intro, a: Key, b: Key) {
    && intro.mine < |asks|
    && ((asks[intro.mine].from == a && asks[intro.mine].target == b)
        || (asks[intro.mine].from == b && asks[intro.mine].target == a))
  }

  /** Introduction `n` was made, and is between the two of the pair. */
  predicate Backed(asks: seq<Ask>, intros: seq<Intro>, pair: (Key, Key), n: nat) {
    n < |intros| && Between(asks, intros[n], pair.0, pair.1)
  }

  /** Each entry of `introduced` is an introduction that was made then. */
  ghost predicate IntroducedOk(introduced: map<(Key, Key), nat>, log: Log) {
    forall p <- introduced ::
      p in log.made && Backed(log.asks, log.intros, p, log.made[p]) && log.intros[log.made[p]].at == introduced[p]
  }

  predicate GrantOk(asks: seq<Ask>, intros: seq<Intro>, pair: (Key, Key), g: Grant) {
    Backed(asks, intros, pair, g.intro) && Since(g.at, intros[g.intro].at) <= RELAY_WINDOW
  }

  /** Each relay was opened within the relay window of an introduction of its pair. */
  ghost predicate GrantsOk(relays: map<(Key, Key), set<Ip>>, log: Log) {
    forall p <- relays :: p in log.grants && GrantOk(log.asks, log.intros, p, log.grants[p])
  }

  ghost predicate MailOk(keyOf: PeerId -> Key, asks: seq<Ask>, intros: seq<Intro>, m: Mail) {
    && (m.note.Introduction? ==>
          exists i :: 0 <= i < |intros| && Between(asks, intros[i], keyOf(m.to), m.note.key))
    && (m.note.Members? ==> ListOk(m.note.rows))
  }

  ghost predicate OutboxOk(keyOf: PeerId -> Key, asks: seq<Ask>, intros: seq<Intro>, outbox: seq<Mail>) {
    forall i :: 0 <= i < |outbox| ==> MailOk(keyOf, asks, intros, outbox[i])
  }

  ghost predicate Inv(keyOf: PeerId -> Key, s: State) {
    && Inverse(keyOf, s.clients, s.byKey) && AsksOk(s.asked, s.log) && IntrosOk(s.log.asks, s.log.intros)
    && RelaysOk(s.relays) && GroupsOk(s.groups) && OutboxOk(keyOf, s.log.asks, s.log.intros, s.outbox)
    && IntroducedOk(s.introduced, s.log) && GrantsOk(s.relays, s.log)
  }

  lemma EmptyOk(keyOf: PeerId -> Key)
    ensures Inv(keyOf, EMPTY)
  {
    assert forall ip: Ip :: RelaysAt(map[], ip) == {};
    assert forall p: PeerId :: GroupsOf(map[], p) == {};
  }

  // ---- Mail -----------------------------------------------------------------------------------

  lemma PostedOk(keyOf: PeerId -> Key, asks: seq<Ask>, intros: seq<Intro>, outbox: seq<Mail>, m: Mail)
    requires OutboxOk(keyOf, asks, intros, outbox) && MailOk(keyOf, asks, intros, m)
    ensures OutboxOk(keyOf, asks, intros, outbox + [m])
  {
  }

  /** Mail that needs no introduction leaves everything else as it was. */
  lemma PostKeeps(keyOf: PeerId -> Key, s: State, to: PeerId, note: Note)
    requires Inv(keyOf, s) && !note.Introduction? && (note.Members? ==> ListOk(note.rows))
    ensures Inv(keyOf, Post(s, to, note))
  {
    PostedOk(keyOf, s.log.asks, s.log.intros, s.outbox, Mail(to, note));
  }

  lemma OutboxGrows(keyOf: PeerId -> Key, asks: seq<Ask>, intros: seq<Intro>, outbox: seq<Mail>,
                    asks': seq<Ask>, intros': seq<Intro>)
    requires OutboxOk(keyOf, asks, intros, outbox) && asks <= asks' && intros <= intros'
    ensures OutboxOk(keyOf, asks', intros', outbox)
  {
    forall i | 0 <= i < |outbox| ensures MailOk(keyOf, asks', intros', outbox[i]) {
      var m := outbox[i];
      assert MailOk(keyOf, asks, intros, m);
      if m.note.Introduction? {
        var k :| 0 <= k < |intros| && Between(asks, intros[k], keyOf(m.to), m.note.key);
        assert intros'[k] == intros[k] && Between(asks', intros'[k], keyOf(m.to), m.note.key);
      }
    }
  }

  lemma BackedStays(asks: seq<Ask>, intros: seq<Intro>, asks': seq<Ask>, intros': seq<Intro>, pair: (Key, Key), n: nat)
    requires Backed(asks, intros, pair, n) && asks <= asks' && intros <= intros'
    ensures Backed(asks', intros', pair, n) && intros'[n] == intros[n]
  {
  }

  /** Requests and introductions added take nothing from what earlier ones back. */
  lemma GrantsGrow(s: State, t: State)
    requires GrantsOk(s.relays, s.log) && s.log.asks <= t.log.asks && s.log.intros <= t.log.intros && t.relays == s.relays && t.log.grants == s.log.grants
    ensures GrantsOk(t.relays, t.log)
  {
    forall p <- t.relays ensures GrantOk(t.log.asks, t.log.intros, p, t.log.grants[p]) {
      BackedStays(s.log.asks, s.log.intros, t.log.asks, t.log.intros, p, s.log.grants[p].intro);
    }
  }

  lemma IntroducedGrow(s: State, t: State, p: (Key, Key))
    requires IntroducedOk(s.introduced, s.log) && s.log.asks <= t.log.asks && s.log.intros <= t.log.intros
    requires p in s.introduced && p in t.log.made && t.log.made[p] == s.log.made[p]
    ensures Backed(t.log.asks, t.log.intros, p, t.log.made[p]) && t.log.intros[t.log.made[p]].at == s.introduced[p]
  {
    BackedStays(s.log.asks, s.log.intros, t.log.asks, t.log.intros, p, s.log.made[p]);
  }

  // ---- Registration -----------------------------------------------------------------------------

  lemma RegisterKeeps(w: World, s: State, peer: PeerId)
    requires Inv(w.keyOf, s)
    ensures Inv(w.keyOf, Register(s, w, peer))
  {
    var t := Register(s, w, peer);
    if t != s {
      PostedOk(w.keyOf, s.log.asks, s.log.intros, s.outbox, Mail(peer, Observed(w.addrOf(peer).value)));
    }
  }

  ghost predicate WithinCap(clients: map<PeerId, Client>) {
    forall ip: Ip :: |AtIp(clients, ip)| <= MAX_CLIENTS_PER_IP
  }

  /** A client already registered whose session has moved to an address that is full. */
  predicate MovesIntoFull(s: State, w: World, peer: PeerId) {
    && peer in s.clients && w.addrOf(peer).Some?
    && s.clients[peer].addr.ip != w.addrOf(peer).value.ip
    && |AtIp(s.clients, w.addrOf(peer).value.ip)| == MAX_CLIENTS_PER_IP
  }

  lemma AtIpAfter(clients: map<PeerId, Client>, gone: set<PeerId>, peer: PeerId, client: Client, ip: Ip)
    ensures AtIp((clients - gone)[peer := client], ip) <= AtIp(clients, ip) + (if client.addr.ip == ip then {peer} else {})
  {
  }

  lemma RegisteredAt(s: State, w: World, peer: PeerId, ip: Ip)
    requires Inv(w.keyOf, s) && WithinCap(s.clients) && Register(s, w, peer) != s && !MovesIntoFull(s, w, peer)
    ensures |AtIp(Register(s, w, peer).clients, ip)| <= MAX_CLIENTS_PER_IP
  {
    var t := Register(s, w, peer);
    var before, after := AtIp(s.clients, ip), AtIp(t.clients, ip);
    var key := w.keyOf(peer);
    var gone := if key in s.byKey && s.byKey[key] != peer then {s.byKey[key]} else {};
    assert s.clients - {} == s.clients;
    AtIpAfter(s.clients, gone, peer, t.clients[peer], ip);
    if ip == w.addrOf(peer).value.ip && peer !in before {
      SubsetSize(after, before + {peer});
    } else {
      SubsetSize(after, before);
    }
  }

  /** The cap on clients at one address survives a registration exactly when the registration
      is not that of a client moving into a full address: only new clients are counted. */
  lemma CapSurvivesUnlessMoved(s: State, w: World, peer: PeerId)
    requires Inv(w.keyOf, s) && WithinCap(s.clients)
    ensures WithinCap(Register(s, w, peer).clients) <==> !MovesIntoFull(s, w, peer)
  {
    var t := Register(s, w, peer);
    if MovesIntoFull(s, w, peer) {
      var ip := w.addrOf(peer).value.ip;
      assert AtIp(t.clients, ip) == AtIp(s.clients, ip) + {peer};
      assert |AtIp(t.clients, ip)| == MAX_CLIENTS_PER_IP + 1;
    } else if t != s {
      forall ip: Ip ensures |AtIp(t.clients, ip)| <= MAX_CLIENTS_PER_IP { RegisteredAt(s, w, peer, ip); }
    }
  }

  lemma UnregisterKeeps(keyOf: PeerId -> Key, s: State, peer: PeerId)
    requires Inv(keyOf, s)
    ensures Inv(keyOf, Unregister(s, peer))
  {
  }

  // ---- Introductions --------------------------------------------------------------------------------

  lemma RecordedKeeps(keyOf: PeerId -> Key, s: State, from: Key, target: Key, now: nat)
    requires Inv(keyOf, s)
    ensures Inv(keyOf, Recorded(s, from, target, now))
  {
    var t := Recorded(s, from, target, now);
    OutboxGrows(keyOf, s.log.asks, s.log.intros, s.outbox, t.log.asks, t.log.intros);
    forall i | 0 <= i < |t.log.intros| ensures IntroOk(t.log.asks, t.log.intros[i]) && !Uses(t.log.intros[i], |s.log.asks|) {
      assert IntroOk(s.log.asks, s.log.intros[i]);
    }
    forall a <- t.log.standing ensures StandsFor(t.log.asks, t.log.intros, a, t.asked[a], t.log.standing[a]) {
      assert a != (from, target) ==> StandsFor(s.log.asks, s.log.intros, a, s.asked[a], s.log.standing[a]);
    }
    GrantsGrow(s, t);
    forall p <- t.introduced ensures Backed(t.log.asks, t.log.intros, p, t.log.made[p]) && t.log.intros[t.log.made[p]].at == t.introduced[p] {
      IntroducedGrow(s, t, p);
    }
  }

  lemma IntroAdded(asks: seq<Ask>, intros: seq<Intro>, intro: Intro)
    requires IntrosOk(asks, intros) && IntroOk(asks, intro)
    requires Unspent(intros, intro.mine) && Unspent(intros, intro.theirs)
    ensures IntrosOk(asks, intros + [intro])
  {
    forall i | 0 <= i < |intros| ensures Apart(intros[i], intro) {
      assert !Uses(intros[i], intro.mine) && !Uses(intros[i], intro.theirs);
    }
  }

  lemma StillStanding(asks: seq<Ask>, intros: seq<Intro>, intro: Intro, a: (Key, Key), at: nat, n: nat)
    requires StandsFor(asks, intros, a, at, n) && IntroOk(asks, intro)
    requires a != (asks[intro.mine].from, asks[intro.mine].target) && a != (asks[intro.theirs].from, asks[intro.theirs].target)
    ensures StandsFor(asks, intros + [intro], a, at, n)
  {
  }

  /** The tables an introduction leaves, but for the mail. */
  lemma IntroducedTables(s: State, t: State, from: Key, target: Key, now: nat, window: nat)
    requires AsksOk(s.asked, s.log) && IntrosOk(s.log.asks, s.log.intros) && IntroducedOk(s.introduced, s.log) && GrantsOk(s.relays, s.log) && from != target
    requires (from, target) in s.log.standing && (target, from) in s.log.standing
    requires s.asked[(from, target)] == now && Since(now, s.asked[(target, from)]) <= window
    requires t == s.(asked := s.asked - {(from, target), (target, from)},
                     introduced := s.introduced[Pair(from, target) := now],
                     log := s.log.(standing := s.log.standing - {(from, target), (target, from)},
                                   intros := s.log.intros + [Intro(s.log.standing[(from, target)], s.log.standing[(target, from)], now, window)],
                                   made := s.log.made[Pair(from, target) := |s.log.intros|]))
    ensures AsksOk(t.asked, t.log) && IntrosOk(t.log.asks, t.log.intros) && IntroducedOk(t.introduced, t.log) && GrantsOk(t.relays, t.log)
    ensures Between(t.log.asks, t.log.intros[|s.log.intros|], from, target)
  {
    var mine, theirs := (from, target), (target, from);
    var intro := Intro(s.log.standing[mine], s.log.standing[theirs], now, window);
    assert StandsFor(s.log.asks, s.log.intros, mine, s.asked[mine], s.log.standing[mine]);
    assert StandsFor(s.log.asks, s.log.intros, theirs, s.asked[theirs], s.log.standing[theirs]);
    assert IntroOk(s.log.asks, intro);
    IntroAdded(s.log.asks, s.log.intros, intro);
    forall a <- t.log.standing ensures StandsFor(t.log.asks, t.log.intros, a, t.asked[a], t.log.standing[a]) {
      StillStanding(s.log.asks, s.log.intros, intro, a, s.asked[a], s.log.standing[a]);
    }
    GrantsGrow(s, t);
    forall p <- t.introduced ensures Backed(t.log.asks, t.log.intros, p, t.log.made[p]) && t.log.intros[t.log.made[p]].at == t.introduced[p] {
      if p != Pair(from, target) { IntroducedGrow(s, t, p); }
    }
  }

  lemma IntroducedKeeps(keyOf: PeerId -> Key, s: State, peer: PeerId, other: PeerId, from: Key, target: Key,
                        here: Address, there: Address, now: nat, window: nat)
    requires Inv(keyOf, s) && from != target && keyOf(peer) == from && keyOf(other) == target
    requires (from, target) in s.log.standing && (target, from) in s.log.standing
    requires s.asked[(from, target)] == now && Since(now, s.asked[(target, from)]) <= window
    ensures Inv(keyOf, Introduced(s, peer, other, from, target, here, there, now, window))
  {
    var t := Introduced(s, peer, other, from, target, here, there, now, window);
    IntroducedTables(s, t.(outbox := s.outbox), from, target, now, window);
    OutboxGrows(keyOf, s.log.asks, s.log.intros, s.outbox, t.log.asks, t.log.intros);
    assert Between(t.log.asks, t.log.intros[|s.log.intros|], target, from);
    var first := Mail(peer, Introduction(target, there));
    PostedOk(keyOf, t.log.asks, t.log.intros, s.outbox, first);
    PostedOk(keyOf, t.log.asks, t.log.intros, s.outbox + [first], Mail(other, Introduction(from, here)));
  }

  lemma IntroduceKeeps(w: World, s: State, peer: PeerId, target: Key, now: nat, window: nat)
    requires Inv(w.keyOf, s)
    ensures Inv(w.keyOf, Introduce(s, w, peer, target, now, window))
  {
    if peer in s.clients && target != s.clients[peer].key {
      var from := s.clients[peer].key;
      if !w.policy(from, target) {
        PostKeeps(w.keyOf, s, peer, Unavailable(target, Refused));
      } else {
        RecordedKeeps(w.keyOf, s, from, target, now);
        var t := Recorded(s, from, target, now);
        if target in t.byKey && Mutual(t, from, target, now, window) {
          var other := t.byKey[target];
          var here, there := w.addrOf(peer), w.addrOf(other);
          if here.Some? && there.Some? {
            IntroducedKeeps(w.keyOf, t, peer, other, from, target, here.value, there.value, now, window);
          }
        }
      }
    }
  }

  /** What it takes to be introduced: both registered and reachable, the policy's leave, and
      the other's request still within the window. */
  predicate Ripe(s: State, w: World, peer: PeerId, target: Key, now: nat, window: nat) {
    && peer in s.clients && target != s.clients[peer].key && target in s.byKey
    && w.policy(s.clients[peer].key, target)
    && w.addrOf(peer).Some? && w.addrOf(s.byKey[target]).Some?
    && (target, s.clients[peer].key) in s.asked && SaturatingSub(now, s.asked[(target, s.clients[peer].key)]) <= window
  }

  /** The second request introduces the two, each told where the other is now, exactly when
      all of that holds; and both requests are then gone. */
  lemma RipeRequestsAreIntroduced(s: State, w: World, peer: PeerId, target: Key, now: nat, window: nat)
    requires AsksOk(s.asked, s.log)
    ensures var t := Introduce(s, w, peer, target, now, window);
            if Ripe(s, w, peer, target, now, window) then
              var from, other := s.clients[peer].key, s.byKey[target];
              && t.outbox == s.outbox + [Mail(peer, Introduction(target, w.addrOf(other).value)),
                                         Mail(other, Introduction(from, w.addrOf(peer).value))]
              && (from, target) !in t.asked && (target, from) !in t.asked
              && |t.log.intros| == |s.log.intros| + 1
            else t.log.intros == s.log.intros
  {
    if peer in s.clients && target != s.clients[peer].key {
      var from := s.clients[peer].key;
      var r := Recorded(s, from, target, now);
      assert Mutual(r, from, target, now, window) == Mutual(s, from, target, now, window);
      assert forall a: Mail, b: Mail :: s.outbox + [a] + [b] == s.outbox + [a, b];
    }
  }

  // ---- Relays -----------------------------------------------------------------------------------------

  lemma ToldBothKeeps(keyOf: PeerId -> Key, s: State, from: Key, target: Key, a: Note, b: Note)
    requires Inv(keyOf, s)
    requires !a.Introduction? && !a.Members? && !b.Introduction? && !b.Members?
    ensures Inv(keyOf, ToldBoth(s, from, target, a, b))
  {
    var t := if from in s.byKey then Post(s, s.byKey[from], a) else s;
    if from in s.byKey { PostKeeps(keyOf, s, s.byKey[from], a); }
    if target in t.byKey { PostKeeps(keyOf, t, t.byKey[target], b); }
  }

  lemma OneMoreAt(relays: map<(Key, Key), set<Ip>>, pair: (Key, Key), ips: set<Ip>, ip: Ip)
    requires pair !in relays && |RelaysAt(relays, ip)| <= MAX_RELAYS_PER_IP && !Crowded(relays, ips)
    ensures |RelaysAt(relays[pair := ips], ip)| <= MAX_RELAYS_PER_IP
  {
    assert RelaysAt(relays[pair := ips], ip) == RelaysAt(relays, ip) + (if ip in ips then {pair} else {});
  }

  /** A new allocation stays within both bounds. */
  lemma AllocationFits(relays: map<(Key, Key), set<Ip>>, pair: (Key, Key), ips: set<Ip>)
    requires RelaysOk(relays) && pair !in relays && |relays| < MAX_RELAYS && !Crowded(relays, ips)
    ensures RelaysOk(relays[pair := ips])
  {
    var after := relays[pair := ips];
    assert |after| == |relays| + 1 by {
      assert after.Keys == relays.Keys + {pair};
      assert |after| == |after.Keys| && |relays| == |relays.Keys|;
    }
    forall ip: Ip ensures |RelaysAt(after, ip)| <= MAX_RELAYS_PER_IP {
      OneMoreAt(relays, pair, ips, ip);
    }
  }

  lemma OpenedKeeps(keyOf: PeerId -> Key, s: State, pair: (Key, Key), ips: set<Ip>, now: nat)
    requires Inv(keyOf, s) && pair !in s.relays && |s.relays| < MAX_RELAYS && !Crowded(s.relays, ips)
    requires Recent(s, pair, now)
    ensures Inv(keyOf, Opened(s, pair, ips, now))
  {
    AllocationFits(s.relays, pair, ips);
    assert GrantOk(s.log.asks, s.log.intros, pair, Grant(now, s.log.made[pair]));
  }

  lemma OfferKeeps(keyOf: PeerId -> Key, s: State, pair: (Key, Key))
    requires Inv(keyOf, s)
    ensures Inv(keyOf, Offer(s, pair))
  {
    ToldBothKeeps(keyOf, s, pair.0, pair.1, RelayOffer(pair.1), RelayOffer(pair.0));
  }

  lemma RelayKeeps(w: World, s: State, peer: PeerId, target: Key, now: nat, opens: bool)
    requires Inv(w.keyOf, s)
    ensures Inv(w.keyOf, Relay(s, w, peer, target, now, opens))
  {
    if peer in s.clients {
      var from := s.clients[peer].key;
      var pair := Pair(from, target);
      if target !in s.byKey {
        PostKeeps(w.keyOf, s, peer, Unavailable(target, NotRegistered));
      } else if !Recent(s, pair, now) {
        PostKeeps(w.keyOf, s, peer, Unavailable(target, NoRelay));
      } else {
        RecentRelayKeeps(w, s, peer, target, now, opens);
      }
    }
  }

  lemma RecentRelayKeeps(w: World, s: State, peer: PeerId, target: Key, now: nat, opens: bool)
    requires Inv(w.keyOf, s) && peer in s.clients && target in s.byKey && Recent(s, Pair(s.clients[peer].key, target), now)
    ensures Inv(w.keyOf, Relay(s, w, peer, target, now, opens))
  {
    var from := s.clients[peer].key;
    var pair := Pair(from, target);
    var ips := IpsOf(s, peer, s.byKey[target]);
    var t := Relay(s, w, peer, target, now, opens);
    if w.policy(from, target) && pair in s.relays {
      assert t == Offer(s, pair);
      OfferKeeps(w.keyOf, s, pair);
    } else if w.policy(from, target) && |s.relays| < MAX_RELAYS && !Crowded(s.relays, ips) && opens {
      assert t == Offer(Opened(s, pair, ips, now), pair);
      OpenedKeeps(w.keyOf, s, pair, ips, now);
      OfferKeeps(w.keyOf, Opened(s, pair, ips, now), pair);
    } else {
      assert t == RefuseRelay(s, from, target);
      ToldBothKeeps(w.keyOf, s, from, target, Unavailable(target, NoRelay), Unavailable(from, NoRelay));
    }
  }

  // ---- Groups --------------------------------------------------------------------------------------------

  lemma {:induction false} ToldOk(keyOf: PeerId -> Key, s: State, tag: Tag, rows: seq<Row>, n: nat)
    requires OutboxOk(keyOf, s.log.asks, s.log.intros, s.outbox) && ListOk(rows) && n <= |rows|
    ensures OutboxOk(keyOf, s.log.asks, s.log.intros, Told(s, tag, rows, n).outbox)
  {
    if n > 0 {
      ToldOk(keyOf, s, tag, rows, n - 1);
      PostedOk(keyOf, s.log.asks, s.log.intros, Told(s, tag, rows, n - 1).outbox, Mail(rows[n - 1].peer, Members(tag, rows)));
    }
  }

  lemma ToldKeeps(keyOf: PeerId -> Key, s: State, tag: Tag, rows: seq<Row>, n: nat)
    requires Inv(keyOf, s) && ListOk(rows) && n <= |rows|
    ensures Inv(keyOf, Told(s, tag, rows, n))
  {
    ToldOk(keyOf, s, tag, rows, n);
  }

  /** A list replaced by part of it puts nobody in more groups. */
  lemma ShrunkGroups(groups: map<Tag, seq<Row>>, tag: Tag, rows: seq<Row>)
    requires GroupsOk(groups) && tag in groups && ListOk(rows)
    requires forall x :: x in rows ==> x in groups[tag]
    ensures GroupsOk(if rows == [] then groups - {tag} else groups[tag := rows])
  {
    var after := if rows == [] then groups - {tag} else groups[tag := rows];
    forall p: PeerId ensures |GroupsOf(after, p)| <= MAX_GROUPS {
      forall t | t in GroupsOf(after, p) ensures t in GroupsOf(groups, p) {
        if t == tag { SubsetInGroup(groups[tag], rows, p); }
      }
      SubsetSize(GroupsOf(after, p), GroupsOf(groups, p));
    }
  }

  lemma SubsetInGroup(all: seq<Row>, rows: seq<Row>, p: PeerId)
    requires InGroup(rows, p) && forall x :: x in rows ==> x in all
    ensures InGroup(all, p)
  {
    var i :| 0 <= i < |rows| && rows[i].peer == p;
    assert rows[i] in all;
  }

  lemma Regrouped(keyOf: PeerId -> Key, s: State, groups: map<Tag, seq<Row>>)
    requires Inv(keyOf, s) && GroupsOk(groups)
    ensures Inv(keyOf, s.(groups := groups))
  {
  }

  lemma LeaveKeeps(keyOf: PeerId -> Key, s: State, peer: PeerId, tag: Tag)
    requires Inv(keyOf, s)
    ensures Inv(keyOf, Leave(s, peer, tag))
  {
    if tag in s.groups && InGroup(s.groups[tag], peer) {
      var rows := Others(s.groups[tag], peer, None);
      ShrunkGroups(s.groups, tag, rows);
      var groups := if rows == [] then s.groups - {tag} else s.groups[tag := rows];
      Regrouped(keyOf, s, groups);
      if rows != [] { ToldKeeps(keyOf, s.(groups := groups), tag, rows, |rows|); }
    }
  }

  lemma GrownFor(groups: map<Tag, seq<Row>>, tag: Tag, rows: seq<Row>, row: Row, p: PeerId)
    requires forall x :: x in rows ==> tag in groups && x in groups[tag]
    requires |GroupsOf(groups, row.peer) - {tag}| < MAX_GROUPS && |GroupsOf(groups, p)| <= MAX_GROUPS
    ensures |GroupsOf(groups[tag := rows + [row]], p)| <= MAX_GROUPS
  {
    var all := rows + [row];
    var after := groups[tag := all];
    if p == row.peer {
      assert all[|rows|].peer == p;
      assert GroupsOf(after, p) == (GroupsOf(groups, p) - {tag}) + {tag};
    } else {
      forall t | t in GroupsOf(after, p) ensures t in GroupsOf(groups, p) {
        if t == tag { WasThere(groups, tag, rows, row, p); }
      }
      SubsetSize(GroupsOf(after, p), GroupsOf(groups, p));
    }
  }

  lemma GrownList(rows: seq<Row>, row: Row)
    requires |rows| < MAX_GROUP_MEMBERS && Distinct(rows)
    requires forall x :: x in rows ==> x.peer != row.peer && x.key != row.key
    ensures ListOk(rows + [row])
  {
    forall i | 0 <= i < |rows| ensures rows[i].peer != row.peer && rows[i].key != row.key { assert rows[i] in rows; }
  }

  /** One more member, in one more group. */
  lemma GrownGroups(groups: map<Tag, seq<Row>>, tag: Tag, rows: seq<Row>, row: Row)
    requires GroupsOk(groups) && |rows| < MAX_GROUP_MEMBERS && Distinct(rows)
    requires forall x :: x in rows ==> tag in groups && x in groups[tag] && x.peer != row.peer && x.key != row.key
    requires |GroupsOf(groups, row.peer) - {tag}| < MAX_GROUPS
    ensures ListOk(rows + [row]) && GroupsOk(groups[tag := rows + [row]])
  {
    GrownList(rows, row);
    var after := groups[tag := rows + [row]];
    forall p: PeerId ensures |GroupsOf(after, p)| <= MAX_GROUPS {
      GrownFor(groups, tag, rows, row, p);
    }
  }

  lemma WasThere(groups: map<Tag, seq<Row>>, tag: Tag, rows: seq<Row>, row: Row, p: PeerId)
    requires InGroup(rows + [row], p) && p != row.peer
    requires forall x :: x in rows ==> tag in groups && x in groups[tag]
    ensures tag in groups && InGroup(groups[tag], p)
  {
    var i :| 0 <= i < |rows + [row]| && (rows + [row])[i].peer == p;
    assert rows[i] in rows;
  }

  lemma RestOk(s: State, peer: PeerId, tag: Tag)
    requires GroupsOk(s.groups) && peer in s.clients
    ensures ListOk(Rest(s, peer, tag))
    ensures forall x :: x in Rest(s, peer, tag) ==>
              tag in s.groups && x in s.groups[tag] && x.peer != peer && x.key != s.clients[peer].key
  {
  }

  lemma RefusedGroups(s: State, peer: PeerId, tag: Tag)
    requires GroupsOk(s.groups) && peer in s.clients
    ensures var rows := Rest(s, peer, tag);
            GroupsOk(if rows == [] then s.groups - {tag} else s.groups[tag := rows])
  {
    RestOk(s, peer, tag);
    if tag in s.groups { ShrunkGroups(s.groups, tag, Rest(s, peer, tag)); } else { assert s.groups - {tag} == s.groups; }
  }

  lemma JoinKeeps(keyOf: PeerId -> Key, s: State, peer: PeerId, tag: Tag, mac: nat)
    requires Inv(keyOf, s)
    ensures Inv(keyOf, Join(s, peer, tag, mac))
  {
    if peer in s.clients {
      var rows := Rest(s, peer, tag);
      RestOk(s, peer, tag);
      if Admits(s, peer, tag) {
        var row := Row(peer, s.clients[peer].key, mac);
        GrownGroups(s.groups, tag, rows, row);
        Regrouped(keyOf, s, s.groups[tag := rows + [row]]);
        ToldKeeps(keyOf, s.(groups := s.groups[tag := rows + [row]]), tag, rows + [row], |rows| + 1);
      } else {
        RefusedGroups(s, peer, tag);
        Regrouped(keyOf, s, if rows == [] then s.groups - {tag} else s.groups[tag := rows]);
      }
    }
  }

  lemma {:induction false} ForgetKeeps(keyOf: PeerId -> Key, s: State, peer: PeerId, tags: seq<Tag>)
    requires Inv(keyOf, s)
    ensures Inv(keyOf, Forget(s, peer, tags))
  {
    if tags == [] {
      UnregisterKeeps(keyOf, s, peer);
    } else {
      ForgetKeeps(keyOf, s, peer, tags[..|tags| - 1]);
      LeaveKeeps(keyOf, Forget(s, peer, tags[..|tags| - 1]), peer, tags[|tags| - 1]);
    }
  }

  /** Everyone listed is sent the whole list. */
  lemma {:induction false} GroupIsTold(s: State, tag: Tag, rows: seq<Row>, n: nat, i: nat)
    requires i < n <= |rows|
    ensures Mail(rows[i].peer, Members(tag, rows)) in Told(s, tag, rows, n).outbox
  {
    if i < n - 1 { GroupIsTold(s, tag, rows, n - 1, i); }
  }

  /** A joiner there is room for is listed, once, in place of any earlier listing of theirs, the
      rest of the list kept; everyone on it is told; and no other group changes. */
  lemma JoinerIsListed(s: State, peer: PeerId, tag: Tag, mac: nat)
    requires peer in s.clients && Admits(s, peer, tag)
    ensures var t := Join(s, peer, tag, mac);
            var row := Row(peer, s.clients[peer].key, mac);
            && tag in t.groups && t.groups == s.groups[tag := t.groups[tag]]
            && (forall x :: x in t.groups[tag] <==>
                  x == row || (tag in s.groups && x in s.groups[tag] && x.peer != peer && x.key != row.key))
            && (forall x :: x in t.groups[tag] ==> Mail(x.peer, Members(tag, t.groups[tag])) in t.outbox)
  {
    var row := Row(peer, s.clients[peer].key, mac);
    var all := Rest(s, peer, tag) + [row];
    var grown := s.(groups := s.groups[tag := all]);
    forall x | x in all ensures Mail(x.peer, Members(tag, all)) in Told(grown, tag, all, |all|).outbox {
      var i :| 0 <= i < |all| && all[i] == x;
      GroupIsTold(grown, tag, all, |all|, i);
    }
  }

  lemma NotAmongOthers(rows: seq<Row>, peer: PeerId, p: PeerId)
    ensures InGroup(Others(rows, peer, None), p) <==> p != peer && InGroup(rows, p)
  {
    var rest := Others(rows, peer, None);
    if InGroup(rest, p) {
      var i :| 0 <= i < |rest| && rest[i].peer == p;
      assert rest[i] in rest && rest[i] in rows;
    }
    if p != peer && InGroup(rows, p) {
      var i :| 0 <= i < |rows| && rows[i].peer == p;
      assert rows[i] in rest;
    }
  }

  lemma LeftGroups(groups: map<Tag, seq<Row>>, peer: PeerId, tag: Tag, p: PeerId, t: Tag)
    requires tag in groups && InGroup(groups[tag], peer)
    ensures var rows := Others(groups[tag], peer, None);
            var after := if rows == [] then groups - {tag} else groups[tag := rows];
            t in GroupsOf(after, p) <==> t in GroupsOf(groups, p) && !(p == peer && t == tag)
  {
    var rows := Others(groups[tag], peer, None);
    if t == tag {
      NotAmongOthers(groups[tag], peer, p);
      assert rows == [] ==> !InGroup(rows, p);
    }
  }

  lemma LeaveGroups(s: State, peer: PeerId, tag: Tag)
    requires tag in s.groups && InGroup(s.groups[tag], peer)
    ensures var rows := Others(s.groups[tag], peer, None);
            Leave(s, peer, tag).groups == if rows == [] then s.groups - {tag} else s.groups[tag := rows]
    ensures Leave(s, peer, tag).clients == s.clients
  {
    var rows := Others(s.groups[tag], peer, None);
    if rows != [] {
      var t := s.(groups := s.groups[tag := rows]);
      assert Leave(s, peer, tag) == Told(t, tag, rows, |rows|);
    }
  }

  /** Leaving takes a client out of that group, out of no other, and nobody else out of any. */
  lemma LeaverIsGone(s: State, peer: PeerId, tag: Tag, p: PeerId)
    ensures GroupsOf(Leave(s, peer, tag).groups, p) ==
            if p == peer then GroupsOf(s.groups, p) - {tag} else GroupsOf(s.groups, p)
    ensures Leave(s, peer, tag).clients == s.clients
  {
    if tag in s.groups && InGroup(s.groups[tag], peer) {
      LeaveGroups(s, peer, tag);
      var after := Leave(s, peer, tag).groups;
      forall t: Tag ensures t in GroupsOf(after, p) <==> t in GroupsOf(s.groups, p) && !(p == peer && t == tag) {
        LeftGroups(s.groups, peer, tag, p, t);
      }
    }
  }

  lemma {:induction false} ForgottenFrom(s: State, peer: PeerId, tags: seq<Tag>)
    ensures GroupsOf(Forget(s, peer, tags).groups, peer) == GroupsOf(s.groups, peer) - (set t | t in tags)
    ensures Forget(s, peer, tags).clients == s.clients - {peer}
  {
    if tags != [] {
      var front, last := tags[..|tags| - 1], tags[|tags| - 1];
      ForgottenFrom(s, peer, front);
      LeaverIsGone(Forget(s, peer, front), peer, last, peer);
      assert tags == front + [last];
      assert (set t | t in tags) == (set t | t in front) + {last};
    }
  }

  /** A client that has gone is in no table and no group. */
  lemma ForgottenIsGone(keyOf: PeerId -> Key, s: State, peer: PeerId, tags: seq<Tag>)
    requires Inv(keyOf, s) && forall t <- GroupsOf(s.groups, peer) :: t in tags
    ensures var t := Forget(s, peer, tags);
            peer !in t.clients && (forall k <- t.byKey :: t.byKey[k] != peer) && GroupsOf(t.groups, peer) == {}
  {
    ForgottenFrom(s, peer, tags);
    ForgetKeeps(keyOf, s, peer, tags);
  }

  // ---- Time ------------------------------------------------------------------------------------------------

  lemma {:induction false} NotifiedKeeps(keyOf: PeerId -> Key, s: State, expired: seq<(Key, Key)>)
    requires Inv(keyOf, s)
    ensures Inv(keyOf, Notified(s, expired))
  {
    if expired != [] {
      var front := expired[..|expired| - 1];
      NotifiedKeeps(keyOf, s, front);
      var t := Notified(s, front);
      var (from, target) := expired[|expired| - 1];
      if from in t.byKey {
        PostKeeps(keyOf, t, t.byKey[from], Unavailable(target, if target in t.byKey then NotAsked else NotRegistered));
      }
    }
  }

  lemma FewerRelays(relays: map<(Key, Key), set<Ip>>, idle: set<(Key, Key)>)
    requires RelaysOk(relays)
    ensures RelaysOk(relays - idle)
  {
    var after := relays - idle;
    SubsetSize(after.Keys, relays.Keys);
    assert |after| == |after.Keys| && |relays| == |relays.Keys|;
    forall ip: Ip ensures |RelaysAt(after, ip)| <= MAX_RELAYS_PER_IP {
      SubsetSize(RelaysAt(after, ip), RelaysAt(relays, ip));
    }
  }

  lemma ExpireKeeps(w: World, s: State, now: nat, window: nat, expired: seq<(Key, Key)>)
    requires Inv(w.keyOf, s)
    ensures Inv(w.keyOf, Expire(s, w, now, window, expired))
  {
    var idle := Idle(s.relays, w, now);
    FewerRelays(s.relays, idle);
    var live := Within(s.asked, now, window);
    var t := s.(asked := live, introduced := Within(s.introduced, now, RELAY_WINDOW), relays := s.relays - idle,
                log := s.log.(standing := StandingIn(s.log.standing, live)));
    forall a <- t.log.standing ensures StandsFor(t.log.asks, t.log.intros, a, t.asked[a], t.log.standing[a]) {
      assert StandsFor(s.log.asks, s.log.intros, a, s.asked[a], s.log.standing[a]);
    }
    NotifiedKeeps(w.keyOf, t, expired);
  }

  // ---- Every run ---------------------------------------------------------------------------------------------

  datatype Event =
    | Registers(peer: PeerId)
    | Asks(peer: PeerId, target: Key, now: nat, window: nat)
    | WantsRelay(peer: PeerId, target: Key, now: nat, opens: bool)
    | OverBudget(peer: PeerId, target: Key)
    | Joins(peer: PeerId, tag: Tag, mac: nat)
    | Leaves(peer: PeerId, tag: Tag)
    | Goes(peer: PeerId, tags: seq<Tag>)
    | TimePasses(now: nat, window: nat, expired: seq<(Key, Key)>)

  /** The lists in an event are of what the tables hold. */
  ghost predicate Proper(s: State, e: Event) {
    match e
    case Goes(peer, tags) => Lists(tags, GroupsOf(s.groups, peer))
    case TimePasses(now, window, expired) => Lists(expired, Stale(s.asked, now, window))
    case _ => true
  }

  /** An event that is not proper does nothing. */
  ghost function Step(w: World, s: State, e: Event): (t: State)
    requires Inv(w.keyOf, s)
    ensures Inv(w.keyOf, t)
  {
    if !Proper(s, e) then s
    else
    match e
    case Registers(peer) => RegisterKeeps(w, s, peer); Register(s, w, peer)
    case Asks(peer, target, now, window) =>
      IntroduceKeeps(w, s, peer, target, now, window); Introduce(s, w, peer, target, now, window)
    case WantsRelay(peer, target, now, opens) =>
      RelayKeeps(w, s, peer, target, now, opens); Relay(s, w, peer, target, now, opens)
    case OverBudget(peer, target) =>
      PostKeeps(w.keyOf, s, peer, Unavailable(target, Refused)); Post(s, peer, Unavailable(target, Refused))
    case Joins(peer, tag, mac) => JoinKeeps(w.keyOf, s, peer, tag, mac); Join(s, peer, tag, mac)
    case Leaves(peer, tag) => LeaveKeeps(w.keyOf, s, peer, tag); Leave(s, peer, tag)
    case Goes(peer, tags) => ForgetKeeps(w.keyOf, s, peer, tags); Forget(s, peer, tags)
    case TimePasses(now, window, expired) =>
      ExpireKeeps(w, s, now, window, expired); Expire(s, w, now, window, expired)
  }

  /** Any messages in any order, addresses and policy free to change between them. */
  ghost function Run(keyOf: PeerId -> Key, events: seq<(World, Event)>): (s: State)
    requires forall e <- events :: e.0.keyOf == keyOf
    ensures Inv(keyOf, s)
  {
    if events == [] then EmptyOk(keyOf); EMPTY
    else
      var last := events[|events| - 1];
      assert last in events;
      Step(last.0, Run(keyOf, events[..|events| - 1]), last.1)
  }

  /** Introductions are mutual in every run: a client is told where another is only when each
      had asked for the other, the earlier request still within the window when the later
      came; and no two introductions use the same request. */
  lemma IntroductionsAreMutual(keyOf: PeerId -> Key, events: seq<(World, Event)>, m: Mail)
    requires forall e <- events :: e.0.keyOf == keyOf
    requires m in Run(keyOf, events).outbox && m.note.Introduction?
    ensures var s := Run(keyOf, events);
            exists i :: && 0 <= i < |s.log.intros| && IntroOk(s.log.asks, s.log.intros[i])
                        && Between(s.log.asks, s.log.intros[i], keyOf(m.to), m.note.key)
                        && forall j :: 0 <= j < |s.log.intros| && j != i ==> Apart(s.log.intros[i], s.log.intros[j])
  {
    var s := Run(keyOf, events);
    assert MailOk(keyOf, s.log.asks, s.log.intros, m);
    var i :| 0 <= i < |s.log.intros| && Between(s.log.asks, s.log.intros[i], keyOf(m.to), m.note.key);
    forall j | 0 <= j < |s.log.intros| && j != i ensures Apart(s.log.intros[i], s.log.intros[j]) {
      assert Apart(s.log.intros[if i < j then i else j], s.log.intros[if i < j then j else i]);
    }
  }

  /** Relays are only for the introduced, in every run: the pair of every relay there is had each
      asked for the other and been introduced, and the relay was opened within the relay window
      of that. */
  lemma RelayOnlyAfterIntroduction(keyOf: PeerId -> Key, events: seq<(World, Event)>, pair: (Key, Key))
    requires forall e <- events :: e.0.keyOf == keyOf
    requires pair in Run(keyOf, events).relays
    ensures var s := Run(keyOf, events);
            && pair in s.log.grants && s.log.grants[pair].intro < |s.log.intros|
            && var intro := s.log.intros[s.log.grants[pair].intro];
               && IntroOk(s.log.asks, intro) && Between(s.log.asks, intro, pair.0, pair.1)
               && Since(s.log.grants[pair].at, intro.at) <= RELAY_WINDOW
  {
    var s := Run(keyOf, events);
    assert GrantOk(s.log.asks, s.log.intros, pair, s.log.grants[pair]);
  }

  /** The tables stay consistent and bounded in every run. */
  lemma TablesAgree(keyOf: PeerId -> Key, events: seq<(World, Event)>, peer: PeerId, ip: Ip)
    requires forall e <- events :: e.0.keyOf == keyOf
    ensures var s := Run(keyOf, events);
            && (forall k: Key, p: PeerId :: k in s.byKey && s.byKey[k] == p <==> p in s.clients && s.clients[p].key == k)
            && |s.relays| <= MAX_RELAYS && |RelaysAt(s.relays, ip)| <= MAX_RELAYS_PER_IP
            && |GroupsOf(s.groups, peer)| <= MAX_GROUPS
            && (forall m <- s.outbox :: m.note.Members? ==> |m.note.rows| <= MAX_GROUP_MEMBERS)
  {
    var s := Run(keyOf, events);
    forall m <- s.outbox ensures m.note.Members? ==> |m.note.rows| <= MAX_GROUP_MEMBERS {
      assert MailOk(keyOf, s.log.asks, s.log.intros, m);
    }
  }

  // ---- A cap exceeded -------------------------------------------------------------------------

  function FirstIds(n: nat): (r: set<nat>)
    ensures |r| == n && forall p: nat :: p in r <==> p < n
  {
    if n == 0 then {} else FirstIds(n - 1) + {n - 1}
  }

  const OWN: PeerId -> Key := p => p

  /** Where each session is at first: thirty-two at address 1, the others at address 2. */
  function FirstAt(p: PeerId): Address {
    Address(if p < MAX_CLIENTS_PER_IP then 1 else 2, 0)
  }

  ghost predicate AtFirst(w: World) {
    w.keyOf == OWN && forall p: PeerId :: w.addrOf(p) == Some(FirstAt(p))
  }

  function Crowd(n: nat): map<PeerId, Client> {
    map p | p in FirstIds(n) :: Client(p, FirstAt(p))
  }

  function Keys(n: nat): map<Key, PeerId> {
    map k | k in FirstIds(n) :: k
  }

  lemma CrowdAt(n: nat)
    requires n <= 33
    ensures AtIp(Crowd(n), 1) == FirstIds(if n < 32 then n else 32)
    ensures AtIp(Crowd(n), 2) == if n == 33 then {32} else {}
    ensures forall ip: Ip :: ip != 1 && ip != 2 ==> AtIp(Crowd(n), ip) == {}
  {
  }

  lemma CrowdGrows(n: nat)
    ensures Crowd(n)[n := Client(n, FirstAt(n))] == Crowd(n + 1)
    ensures Keys(n)[n := n] == Keys(n + 1)
  {
  }

  lemma NewArrival(s: State, w: World, peer: PeerId, key: Key, addr: Address)
    requires w.addrOf(peer) == Some(addr) && w.keyOf(peer) == key
    requires peer !in s.clients && key !in s.byKey && |AtIp(s.clients, addr.ip)| < MAX_CLIENTS_PER_IP
    ensures Register(s, w, peer).clients == s.clients[peer := Client(key, addr)]
    ensures Register(s, w, peer).byKey == s.byKey[key := peer]
  {
  }

  lemma OneMoreArrives(s: State, w: World, n: nat)
    requires n <= 32 && s.clients == Crowd(n) && s.byKey == Keys(n) && AtFirst(w)
    ensures Register(s, w, n).clients == Crowd(n + 1) && Register(s, w, n).byKey == Keys(n + 1)
  {
    CrowdAt(n);
    NewArrival(s, w, n, n, FirstAt(n));
    CrowdGrows(n);
  }

  lemma RunOneMore(keyOf: PeerId -> Key, events: seq<(World, Event)>, last: (World, Event))
    requires (forall e <- events :: e.0.keyOf == keyOf) && last.0.keyOf == keyOf
    ensures forall e <- events + [last] :: e.0.keyOf == keyOf
    ensures Run(keyOf, events + [last]) == Step(last.0, Run(keyOf, events), last.1)
  {
    assert (events + [last])[..|events|] == events;
  }

  ghost predicate Arrived(events: seq<(World, Event)>, n: nat) {
    && (forall e <- events :: e.0.keyOf == OWN)
    && Run(OWN, events).clients == Crowd(n) && Run(OWN, events).byKey == Keys(n)
  }

  lemma ArrivesNext(events: seq<(World, Event)>, w: World, n: nat)
    requires n <= 32 && AtFirst(w) && Arrived(events, n)
    ensures Arrived(events + [(w, Registers(n))], n + 1)
  {
    RunOneMore(OWN, events, (w, Registers(n)));
    OneMoreArrives(Run(OWN, events), w, n);
  }

  lemma NoneArrived()
    ensures Arrived([], 0)
  {
  }

  /** The first `n` sessions register, one after the other. */
  lemma {:induction false} CrowdArrives(w: World, n: nat) returns (events: seq<(World, Event)>)
    requires n <= 33 && AtFirst(w)
    ensures Arrived(events, n)
  {
    if n == 0 {
      events := [];
      NoneArrived();
    } else {
      var before := CrowdArrives(w, n - 1);
      ArrivesNext(before, w, n - 1);
      events := before + [(w, Registers(n - 1))];
    }
  }

  lemma CrowdWithinCap()
    ensures WithinCap(Crowd(33)) && |AtIp(Crowd(33), 1)| == MAX_CLIENTS_PER_IP
  {
    CrowdAt(33);
    forall ip: Ip ensures |AtIp(Crowd(33), ip)| <= MAX_CLIENTS_PER_IP {
      if ip != 1 && ip != 2 { assert AtIp(Crowd(33), ip) == {}; }
    }
  }

  lemma MovesOver(s: State, moved: World)
    requires Inv(OWN, s) && s.clients == Crowd(33)
    requires moved.keyOf == OWN && moved.addrOf(32) == Some(Address(1, 0))
    ensures !WithinCap(Register(s, moved, 32).clients)
  {
    CrowdWithinCap();
    assert s.clients[32].addr.ip == 2;
    assert MovesIntoFull(s, moved, 32);
    CapSurvivesUnlessMoved(s, moved, 32);
  }

  lemma RunMovesOver(events: seq<(World, Event)>, moved: World)
    requires Arrived(events, 33) && moved.keyOf == OWN && moved.addrOf(32) == Some(Address(1, 0))
    ensures forall e <- events + [(moved, Registers(32))] :: e.0.keyOf == OWN
    ensures WithinCap(Run(OWN, events).clients)
    ensures !WithinCap(Run(OWN, events + [(moved, Registers(32))]).clients)
  {
    CrowdWithinCap();
    RunOneMore(OWN, events, (moved, Registers(32)));
    MovesOver(Run(OWN, events), moved);
  }

  /** The cap exceeded by a run: thirty-three sessions register from two addresses, within the
      cap, and the last, having moved to the first address, registers again. */
  lemma MovedClientExceedsTheCap() returns (events: seq<(World, Event)>, last: (World, Event))
    ensures last.1 == Registers(32)
    ensures (forall e <- events :: e.0.keyOf == OWN) && forall e <- events + [last] :: e.0.keyOf == OWN
    ensures WithinCap(Run(OWN, events).clients) && !WithinCap(Run(OWN, events + [last]).clients)
  {
    var first := World(OWN, (p: PeerId) => Some(FirstAt(p)), (a: Key, b: Key) => true, (pair: (Key, Key)) => 0);
    events := CrowdArrives(first, 33);
    var moved := World(OWN, (p: PeerId) => Some(Address(1, 0)), (a: Key, b: Key) => true, (pair: (Key, Key)) => 0);
    last := (moved, Registers(32));
    RunMovesOver(events, moved);
  }
}
