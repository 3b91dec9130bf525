/** The third party that introduces clients to each other, relays for pairs that cannot
    reach each other, and keeps groups: its bookkeeping, message by message.

    Keys are numbers here, ordered as the byte strings they stand for. What the endpoint
    underneath knows of a session, its key and its present address, comes in as `World`, and
    so does when each relay last forwarded something, which its own threads record. */
module Rendezvous {
  import opened Bits
  import opened Outcomes
  import Control

  const RELAY_WINDOW: nat := 60_000
  const RELAY_IDLE: nat := 60_000
  const MAX_RELAYS: nat := 64
  const MAX_RELAYS_PER_IP: nat := 4
  const MAX_CLIENTS_PER_IP: nat := 32
  const MAX_GROUP_MEMBERS: nat := Control.MAX_GROUP_MEMBERS
  const MAX_GROUPS: nat := 8

  type Key = nat
  type PeerId = nat
  type Ip = nat
  type Tag = nat

  datatype Address = Address(ip: Ip, port: nat)

  datatype World = World(
    keyOf: PeerId -> Key,
    addrOf: PeerId -> Option<Address>,
    policy: (Key, Key) -> bool,
    forwarded: ((Key, Key)) -> nat)

  datatype Client = Client(key: Key, addr: Address)

  datatype Row = Row(peer: PeerId, key: Key, mac: nat)

  datatype Reason = NotRegistered | Refused | NoRelay | NotAsked

  datatype Note =
    | Observed(addr: Address)
    | Introduction(key: Key, there: Address)
    | Unavailable(about: Key, reason: Reason)
    | RelayOffer(other: Key)
    | Members(tag: Tag, rows: seq<Row>)

  datatype Mail = Mail(to: PeerId, note: Note)

  /** One request to be introduced, as it was made. */
  datatype Ask = Ask(from: Key, target: Key, at: nat)

  /** One introduction: the two requests it used up, when, and the window then in force. */
  datatype Intro = Intro(mine: nat, theirs: nat, at: nat, window: nat)

  /** A relay's opening: when, and on the strength of which introduction. */
  datatype Grant = Grant(at: nat, intro: nat)

  /** History: every request and introduction, and which of them the tables' entries stand for. */
  datatype Log = Log(
    asks: seq<Ask>,
    standing: map<(Key, Key), nat>,   // the request each entry of `asked` stands for
    intros: seq<Intro>,
    made: map<(Key, Key), nat>,       // the introduction each entry of `introduced` stands for
    grants: map<(Key, Key), Grant>)

  datatype State = State(
    clients: map<PeerId, Client>,
    byKey: map<Key, PeerId>,
    asked: map<(Key, Key), nat>,
    introduced: map<(Key, Key), nat>,
    relays: map<(Key, Key), set<Ip>>,
    groups: map<Tag, seq<Row>>,
    outbox: seq<Mail>,
    log: Log)

  const EMPTY: State := State(map[], map[], map[], map[], map[], map[], [], Log([], map[], [], map[], map[]))

  function Pair(a: Key, b: Key): (Key, Key) {
    if a < b then (a, b) else (b, a)
  }

  function Since(now: nat, at: nat): nat {
    SaturatingSub(now, at)
  }

  function Post(s: State, to: PeerId, note: Note): State {
    s.(outbox := s.outbox + [Mail(to, note)])
  }

  // ---- Registration -----------------------------------------------------------------------

  function AtIp(clients: map<PeerId, Client>, ip: Ip): set<PeerId> {
    set p | p in clients && clients[p].addr.ip == ip
  }

  function Register(s: State, w: World, peer: PeerId): State {
    var addr := w.addrOf(peer);
    if addr.None? then s
    else if peer !in s.clients && |AtIp(s.clients, addr.value.ip)| >= MAX_CLIENTS_PER_IP then s
    else
      var key := w.keyOf(peer);
      var kept := if key in s.byKey && s.byKey[key] != peer then s.clients - {s.byKey[key]} else s.clients;
      Post(s.(byKey := s.byKey[key := peer], clients := kept[peer := Client(key, addr.value)]),
           peer, Observed(addr.value))
  }

  function Unregister(s: State, peer: PeerId): State {
    if peer !in s.clients then s
    else
      var key := s.clients[peer].key;
      s.(clients := s.clients - {peer},
         byKey := if key in s.byKey && s.byKey[key] == peer then s.byKey - {key} else s.byKey)
  }

  // ---- Introductions ------------------------------------------------------------------------

  function Recorded(s: State, from: Key, target: Key, now: nat): State {
    s.(asked := s.asked[(from, target) := now],
       log := s.log.(asks := s.log.asks + [Ask(from, target, now)],
                     standing := s.log.standing[(from, target) := |s.log.asks|]))
  }

  predicate Mutual(s: State, from: Key, target: Key, now: nat, window: nat) {
    (target, from) in s.asked && Since(now, s.asked[(target, from)]) <= window
  }

  /** Spends both requests and posts two introductions. */
  function Introduced(s: State, peer: PeerId, other: PeerId, from: Key, target: Key,
                      here: Address, there: Address, now: nat, window: nat): State
    requires (from, target) in s.log.standing && (target, from) in s.log.standing
  {
    var intro := Intro(s.log.standing[(from, target)], s.log.standing[(target, from)], now, window);
    var t := s.(asked := s.asked - {(from, target), (target, from)},
                introduced := s.introduced[Pair(from, target) := now],
                log := s.log.(standing := s.log.standing - {(from, target), (target, from)},
                              intros := s.log.intros + [intro],
                              made := s.log.made[Pair(from, target) := |s.log.intros|]));
    Post(Post(t, peer, Introduction(target, there)), other, Introduction(from, here))
  }

  function Introduce(s: State, w: World, peer: PeerId, target: Key, now: nat, window: nat): State
    requires s.log.standing.Keys == s.asked.Keys
  {
    if peer !in s.clients || target == s.clients[peer].key then s
    else
      var from := s.clients[peer].key;
      if !w.policy(from, target) then Post(s, peer, Unavailable(target, Refused))
      else
        var t := Recorded(s, from, target, now);
        if target !in t.byKey || !Mutual(t, from, target, now, window) then t
        else
          var other := t.byKey[target];
          var here, there := w.addrOf(peer), w.addrOf(other);
          if here.None? || there.None? then t
          else Introduced(t, peer, other, from, target, here.value, there.value, now, window)
  }

  // ---- Relays ----------------------------------------------------------------------------------

  /** The allocations counted against one address. */
  function RelaysAt(relays: map<(Key, Key), set<Ip>>, ip: Ip): set<(Key, Key)> {
    set pair | pair in relays && ip in relays[pair]
  }

  predicate Crowded(relays: map<(Key, Key), set<Ip>>, ips: set<Ip>) {
    exists ip <- ips :: |RelaysAt(relays, ip)| >= MAX_RELAYS_PER_IP
  }

  function IpsOf(s: State, peer: PeerId, other: PeerId): set<Ip> {
    (if peer in s.clients then {s.clients[peer].addr.ip} else {}) +
    (if other in s.clients then {s.clients[other].addr.ip} else {})
  }

  function ToldBoth(s: State, from: Key, target: Key, a: Note, b: Note): (r: State)
    ensures r == s.(outbox := r.outbox)
  {
    var t := if from in s.byKey then Post(s, s.byKey[from], a) else s;
    if target in t.byKey then Post(t, t.byKey[target], b) else t
  }

  function RefuseRelay(s: State, from: Key, target: Key): State {
    ToldBoth(s, from, target, Unavailable(target, NoRelay), Unavailable(from, NoRelay))
  }

  predicate Recent(s: State, pair: (Key, Key), now: nat) {
    pair in s.introduced && Since(now, s.introduced[pair]) <= RELAY_WINDOW
  }

  /** `opens` says whether two ports could be opened and there is an address to advertise. */
  function Relay(s: State, w: World, peer: PeerId, target: Key, now: nat, opens: bool): State {
    if peer !in s.clients then s
    else
      var from := s.clients[peer].key;
      var pair := Pair(from, target);
      if target !in s.byKey then Post(s, peer, Unavailable(target, NotRegistered))
      else if !Recent(s, pair, now) then Post(s, peer, Unavailable(target, NoRelay))
      else if !w.policy(from, target) then RefuseRelay(s, from, target)
      else if pair in s.relays then Offer(s, pair)
      else
        var ips := IpsOf(s, peer, s.byKey[target]);
        if |s.relays| >= MAX_RELAYS || Crowded(s.relays, ips) || !opens then RefuseRelay(s, from, target)
        else Offer(Opened(s, pair, ips, now), pair)
  }

  function Opened(s: State, pair: (Key, Key), ips: set<Ip>, now: nat): State {
    s.(relays := s.relays[pair := ips],
       log := s.log.(grants := s.log.grants[pair := Grant(now, if pair in s.log.made then s.log.made[pair] else 0)]))
  }

  function Offer(s: State, pair: (Key, Key)): State {
    ToldBoth(s, pair.0, pair.1, RelayOffer(pair.1), RelayOffer(pair.0))
  }

  // ---- Groups -----------------------------------------------------------------------------------

  predicate InGroup(rows: seq<Row>, peer: PeerId) {
    exists i :: 0 <= i < |rows| && rows[i].peer == peer
  }

  function GroupsOf(groups: map<Tag, seq<Row>>, peer: PeerId): set<Tag> {
    set tag | tag in groups && InGroup(groups[tag], peer)
  }

  /** The rows neither of `peer` nor, when one is given, of `key`. */
  function Others(rows: seq<Row>, peer: PeerId, key: Option<Key>): (r: seq<Row>)
    ensures |r| <= |rows| && forall x :: x in r ==> x in rows
    ensures forall x :: x in r <==> x in rows && x.peer != peer && Some(x.key) != key
    ensures Distinct(rows) ==> Distinct(r)
  {
    if rows == [] then []
    else
      var front, last := rows[..|rows| - 1], rows[|rows| - 1];
      assert rows == front + [last];
      var kept := Others(front, peer, key);
      assert Distinct(rows) ==> Distinct(front) && forall x <- front :: x.peer != last.peer && x.key != last.key;
      if last.peer == peer || Some(last.key) == key then kept else kept + [last]
  }

  /** No peer and no key twice. */
  predicate Distinct(rows: seq<Row>) {
    forall i, j :: 0 <= i < j < |rows| ==> rows[i].peer != rows[j].peer && rows[i].key != rows[j].key
  }

  function Told(s: State, tag: Tag, rows: seq<Row>, n: nat): (r: State)
    requires n <= |rows|
    ensures r == s.(outbox := r.outbox)
  {
    if n == 0 then s else Post(Told(s, tag, rows, n - 1), rows[n - 1].peer, Members(tag, rows))
  }

  /** The group as it would be without the joiner, whether filed by session or by key. */
  function Rest(s: State, peer: PeerId, tag: Tag): seq<Row>
    requires peer in s.clients
  {
    Others(if tag in s.groups then s.groups[tag] else [], peer, Some(s.clients[peer].key))
  }

  /** Bounded both ways: members of a group, and groups of a member. */
  predicate Admits(s: State, peer: PeerId, tag: Tag)
    requires peer in s.clients
  {
    |Rest(s, peer, tag)| < MAX_GROUP_MEMBERS && |GroupsOf(s.groups, peer) - {tag}| < MAX_GROUPS
  }

  function Join(s: State, peer: PeerId, tag: Tag, mac: nat): State {
    if peer !in s.clients then s
    else
      var rows := Rest(s, peer, tag);
      if !Admits(s, peer, tag) then
        s.(groups := if rows == [] then s.groups - {tag} else s.groups[tag := rows])
      else
        var all := rows + [Row(peer, s.clients[peer].key, mac)];
        Told(s.(groups := s.groups[tag := all]), tag, all, |all|)
  }

  function Leave(s: State, peer: PeerId, tag: Tag): State {
    if tag !in s.groups || !InGroup(s.groups[tag], peer) then s
    else
      var rows := Others(s.groups[tag], peer, None);
      if rows == [] then s.(groups := s.groups - {tag})
      else Told(s.(groups := s.groups[tag := rows]), tag, rows, |rows|)
  }

  /** A client that has gone: unregistered, and out of its groups, in any order. */
  function Forget(s: State, peer: PeerId, tags: seq<Tag>): State {
    if tags == [] then Unregister(s, peer)
    else Leave(Forget(s, peer, tags[..|tags| - 1]), peer, tags[|tags| - 1])
  }

  // ---- Time ---------------------------------------------------------------------------------------

  /** The askers of requests that ran out are told why, in any order. */
  function Notified(s: State, expired: seq<(Key, Key)>): State {
    if expired == [] then s
    else
      var t := Notified(s, expired[..|expired| - 1]);
      var (from, target) := expired[|expired| - 1];
      if from !in t.byKey then t
      else Post(t, t.byKey[from], Unavailable(target, if target in t.byKey then NotAsked else NotRegistered))
  }

  function Within(times: map<(Key, Key), nat>, now: nat, window: nat): map<(Key, Key), nat> {
    map p | p in times && Since(now, times[p]) <= window :: times[p]
  }

  function StandingIn(standing: map<(Key, Key), nat>, asked: map<(Key, Key), nat>): map<(Key, Key), nat> {
    map ask | ask in standing && ask in asked :: standing[ask]
  }

  /** The requests that have run out. */
  function Stale(asked: map<(Key, Key), nat>, now: nat, window: nat): set<(Key, Key)> {
    set a | a in asked && Since(now, asked[a]) > window
  }

  function Idle(relays: map<(Key, Key), set<Ip>>, w: World, now: nat): set<(Key, Key)> {
    set pair | pair in relays && Since(now, w.forwarded(pair)) > RELAY_IDLE
  }

  /** Every member of `s`, once, in the order a table happens to be gone through. */
  predicate Lists<T(==)>(list: seq<T>, s: set<T>) {
    && (forall i :: 0 <= i < |list| ==> list[i] in s) && (forall x <- s :: x in list)
    && (forall i, j :: 0 <= i < j < |list| ==> list[i] != list[j])
  }

  /** Releases what has run out: requests, old introductions and idle relays. `expired` lists
      the requests. */
  function Expire(s: State, w: World, now: nat, window: nat, expired: seq<(Key, Key)>): State {
    var live := Within(s.asked, now, window);
    Notified(s.(asked := live,
                introduced := Within(s.introduced, now, RELAY_WINDOW),
                relays := s.relays - Idle(s.relays, w, now),
                log := s.log.(standing := StandingIn(s.log.standing, live))), expired)
  }
}
