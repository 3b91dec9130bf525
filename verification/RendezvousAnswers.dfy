/** What each request to the rendezvous comes to: who is told what, and which entries change. */
module RendezvousAnswers {
  import opened Bits
  import opened Outcomes
  import opened Rendezvous
  import Runs = RendezvousRuns

  lemma PostedTwice(outbox: seq<Mail>, a: Mail, b: Mail)
    ensures outbox + [a] + [b] == outbox + [a, b]
  {
  }

  // ---- Registration ----------------------------------------------------------------------------

  /** Registered at the address the session is at: a newcomer if fewer than 32 are there, and in
      place of any other session with its key. Told what that address is. */
  lemma RegistrationAnswer(s: State, w: World, peer: PeerId)
    ensures var t, at := Register(s, w, peer), w.addrOf(peer);
            if at.Some? && (peer in s.clients || |set p | p in s.clients && s.clients[p].addr.ip == at.value.ip| < 32) then
              && t.outbox == s.outbox + [Mail(peer, Observed(at.value))]
              && t.byKey == s.byKey[w.keyOf(peer) := peer]
              && peer in t.clients && t.clients[peer] == Client(w.keyOf(peer), at.value)
              && (forall p :: p in t.clients && p != peer <==>
                    p in s.clients && p != peer && !(w.keyOf(peer) in s.byKey && s.byKey[w.keyOf(peer)] == p))
              && (forall p <- t.clients :: p != peer ==> t.clients[p] == s.clients[p])
            else t == s
  {
    if w.addrOf(peer).Some? {
      assert AtIp(s.clients, w.addrOf(peer).value.ip) ==
             set p | p in s.clients && s.clients[p].addr.ip == w.addrOf(peer).value.ip;
    }
  }

  // ---- Introductions ------------------------------------------------------------------------------

  /** A request the policy refuses is answered so and leaves nothing behind; any other is recorded,
      and stays so, unanswered, until the other side asks too. */
  lemma RequestAnswer(s: State, w: World, peer: PeerId, target: Key, now: nat, window: nat)
    requires Runs.AsksOk(s.asked, s.log) && peer in s.clients && target != s.clients[peer].key
    ensures var t, from := Introduce(s, w, peer, target, now, window), s.clients[peer].key;
            if !w.policy(from, target) then
              t == s.(outbox := s.outbox + [Mail(peer, Unavailable(target, Refused))])
            else if Runs.Ripe(s, w, peer, target, now, window) then
              t.introduced == s.introduced[Pair(from, target) := now] && t.asked == s.asked - {(from, target), (target, from)}
            else t.asked == s.asked[(from, target) := now] && t.outbox == s.outbox && t.introduced == s.introduced
  {
    var from := s.clients[peer].key;
    var r := Recorded(s, from, target, now);
    assert Mutual(r, from, target, now, window) == Mutual(s, from, target, now, window);
    assert r.asked - {(from, target), (target, from)} == s.asked - {(from, target), (target, from)};
  }

  // ---- Relays ---------------------------------------------------------------------------------------

  /** Introduced to each other in the last minute. */
  predicate JustIntroduced(s: State, a: Key, b: Key, now: nat) {
    var pair := if a < b then (a, b) else (b, a);
    pair in s.introduced && SaturatingSub(now, s.introduced[pair]) <= 60_000
  }

  /** Room for one relay more, in all and at an address. */
  predicate RoomAt(relays: map<(Key, Key), set<Ip>>, ip: Ip) {
    |set pair | pair in relays && ip in relays[pair]| < 4
  }

  /** Whether a relay can be had: by two who are registered and were just introduced, with the
      policy's leave, and who have one already or can be given one. */
  predicate Grantable(s: State, w: World, peer: PeerId, target: Key, now: nat, opens: bool)
    requires peer in s.clients && target in s.byKey && s.byKey[target] in s.clients
  {
    var from := s.clients[peer].key;
    && JustIntroduced(s, from, target, now) && w.policy(from, target)
    && (Pair(from, target) in s.relays ||
        (|s.relays| < 64 && RoomAt(s.relays, s.clients[peer].addr.ip)
         && RoomAt(s.relays, s.clients[s.byKey[target]].addr.ip) && opens))
  }

  lemma CrowdedIs(s: State, peer: PeerId, other: PeerId)
    requires peer in s.clients && other in s.clients
    ensures Crowded(s.relays, IpsOf(s, peer, other)) <==>
            !RoomAt(s.relays, s.clients[peer].addr.ip) || !RoomAt(s.relays, s.clients[other].addr.ip)
  {
    var a, b := s.clients[peer].addr.ip, s.clients[other].addr.ip;
    assert IpsOf(s, peer, other) == {a, b};
    assert forall ip :: RelaysAt(s.relays, ip) == set pair | pair in s.relays && ip in s.relays[pair];
    if Crowded(s.relays, {a, b}) {
      var ip :| ip in {a, b} && |RelaysAt(s.relays, ip)| >= MAX_RELAYS_PER_IP;
    }
  }

  lemma TellsBoth(s: State, from: Key, target: Key, a: Note, b: Note)
    requires from in s.byKey && target in s.byKey
    ensures ToldBoth(s, from, target, a, b) == s.(outbox := s.outbox + [Mail(s.byKey[from], a), Mail(s.byKey[target], b)])
  {
    PostedTwice(s.outbox, Mail(s.byKey[from], a), Mail(s.byKey[target], b));
  }

  /** With the relay there is, or with a new one. */
  function WithRelay(s: State, pair: (Key, Key), ips: set<Ip>, now: nat): State {
    if pair in s.relays then s else Opened(s, pair, ips, now)
  }

  lemma GrantedIsOffered(w: World, s: State, peer: PeerId, target: Key, now: nat, opens: bool)
    requires peer in s.clients && target in s.byKey && s.byKey[target] in s.clients
    requires Grantable(s, w, peer, target, now, opens)
    ensures var pair := Pair(s.clients[peer].key, target);
            Relay(s, w, peer, target, now, opens) ==
            Offer(WithRelay(s, pair, {s.clients[peer].addr.ip, s.clients[s.byKey[target]].addr.ip}, now), pair)
  {
    CrowdedIs(s, peer, s.byKey[target]);
    assert IpsOf(s, peer, s.byKey[target]) == {s.clients[peer].addr.ip, s.clients[s.byKey[target]].addr.ip};
  }

  lemma OneRelay(s: State, pair: (Key, Key), ips: set<Ip>, now: nat)
    ensures var t := WithRelay(s, pair, ips, now);
            && pair in t.relays && t.relays - {pair} == s.relays - {pair}
            && t.relays[pair] == (if pair in s.relays then s.relays[pair] else ips)
            && t.byKey == s.byKey && t.outbox == s.outbox
  {
  }

  /** A relay that can be had is opened, unless it is open already, and each side is offered it;
      no other relay changes. */
  lemma RelayIsOffered(w: World, s: State, peer: PeerId, target: Key, now: nat, opens: bool)
    requires Runs.Inv(w.keyOf, s) && peer in s.clients && target in s.byKey && Grantable(s, w, peer, target, now, opens)
    ensures var t, from := Relay(s, w, peer, target, now, opens), s.clients[peer].key;
            var (lo, hi) := Pair(from, target);
            && (lo, hi) in t.relays && t.relays - {(lo, hi)} == s.relays - {(lo, hi)}
            && t.relays[(lo, hi)] == (if (lo, hi) in s.relays then s.relays[(lo, hi)]
                                      else {s.clients[peer].addr.ip, s.clients[s.byKey[target]].addr.ip})
            && lo in s.byKey && hi in s.byKey
            && t.outbox == s.outbox + [Mail(s.byKey[lo], RelayOffer(hi)), Mail(s.byKey[hi], RelayOffer(lo))]
  {
    var pair := Pair(s.clients[peer].key, target);
    var ips := {s.clients[peer].addr.ip, s.clients[s.byKey[target]].addr.ip};
    GrantedIsOffered(w, s, peer, target, now, opens);
    OneRelay(s, pair, ips, now);
    TellsBoth(WithRelay(s, pair, ips, now), pair.0, pair.1, RelayOffer(pair.1), RelayOffer(pair.0));
  }

  /** One that cannot is refused: to the asker alone when the other is not registered or the two
      were not just introduced, to both otherwise; and nothing else changes. */
  lemma RelayIsRefused(w: World, s: State, peer: PeerId, target: Key, now: nat, opens: bool)
    requires Runs.Inv(w.keyOf, s) && peer in s.clients
    requires target in s.byKey ==> !Grantable(s, w, peer, target, now, opens)
    ensures var from := s.clients[peer].key;
            Relay(s, w, peer, target, now, opens) == s.(outbox := s.outbox +
              if target !in s.byKey then [Mail(peer, Unavailable(target, NotRegistered))]
              else if !JustIntroduced(s, from, target, now) then [Mail(peer, Unavailable(target, NoRelay))]
              else [Mail(peer, Unavailable(target, NoRelay)), Mail(s.byKey[target], Unavailable(from, NoRelay))])
  {
    var from := s.clients[peer].key;
    if target in s.byKey && JustIntroduced(s, from, target, now) {
      CrowdedIs(s, peer, s.byKey[target]);
      assert Relay(s, w, peer, target, now, opens) == RefuseRelay(s, from, target);
      TellsBoth(s, from, target, Unavailable(target, NoRelay), Unavailable(from, NoRelay));
    }
  }

  // ---- Groups ------------------------------------------------------------------------------------------

  /** The rows of a group that are neither this session's nor under its key. */
  function Besides(rows: seq<Row>, peer: PeerId, key: Key): seq<Row> {
    if rows == [] then []
    else Besides(rows[..|rows| - 1], peer, key) +
         if rows[|rows| - 1].peer == peer || rows[|rows| - 1].key == key then [] else [rows[|rows| - 1]]
  }

  lemma {:induction false} BesidesIs(rows: seq<Row>, peer: PeerId, key: Key)
    ensures Others(rows, peer, Some(key)) == Besides(rows, peer, key)
  {
    if rows != [] { BesidesIs(rows[..|rows| - 1], peer, key); }
  }

  /** A joiner is put at the end of the list, any earlier row of theirs gone, when fewer than 64
      others are on it and they are on fewer than eight other lists; otherwise only that row
      goes. No other list changes. */
  lemma JoinAnswer(s: State, peer: PeerId, tag: Tag, mac: nat)
    requires peer in s.clients
    ensures var t, key := Join(s, peer, tag, mac), s.clients[peer].key;
            var others := Besides(if tag in s.groups then s.groups[tag] else [], peer, key);
            var elsewhere := set g | g in s.groups && g != tag && InGroup(s.groups[g], peer);
            if |others| < 64 && |elsewhere| < 8 then t.groups == s.groups[tag := others + [Row(peer, key, mac)]]
            else t.groups == (if others == [] then s.groups - {tag} else s.groups[tag := others]) && t.outbox == s.outbox
  {
    BesidesIs(if tag in s.groups then s.groups[tag] else [], peer, s.clients[peer].key);
    GroupsBesides(s.groups, peer, tag);
    JoinedGroups(s, peer, tag, mac);
  }

  lemma GroupsBesides(groups: map<Tag, seq<Row>>, peer: PeerId, tag: Tag)
    ensures GroupsOf(groups, peer) - {tag} == set g | g in groups && g != tag && InGroup(groups[g], peer)
  {
  }

  lemma JoinedGroups(s: State, peer: PeerId, tag: Tag, mac: nat)
    requires peer in s.clients
    ensures var t, rows := Join(s, peer, tag, mac), Rest(s, peer, tag);
            if Admits(s, peer, tag) then t.groups == s.groups[tag := rows + [Row(peer, s.clients[peer].key, mac)]]
            else t.groups == (if rows == [] then s.groups - {tag} else s.groups[tag := rows]) && t.outbox == s.outbox
  {
  }

  /** Those who stay are told who is left. */
  lemma LeavingIsTold(s: State, peer: PeerId, tag: Tag, x: Row)
    requires tag in s.groups && InGroup(s.groups[tag], peer) && x in s.groups[tag] && x.peer != peer
    ensures var t := Leave(s, peer, tag);
            tag in t.groups && x in t.groups[tag] && Mail(x.peer, Members(tag, t.groups[tag])) in t.outbox
  {
    var rows := Others(s.groups[tag], peer, None);
    assert x in rows;
    var i :| 0 <= i < |rows| && rows[i] == x;
    var left := s.(groups := s.groups[tag := rows]);
    assert Leave(s, peer, tag) == Told(left, tag, rows, |rows|);
    Runs.GroupIsTold(left, tag, rows, |rows|, i);
  }

  // ---- Time ----------------------------------------------------------------------------------------------

  /** The notice for a request that ran out, if its asker is still registered: whether the other
      is not known here, or known and silent. */
  function Notice(byKey: map<Key, PeerId>, ask: (Key, Key)): seq<Mail> {
    if ask.0 !in byKey then []
    else [Mail(byKey[ask.0], Unavailable(ask.1, if ask.1 in byKey then NotAsked else NotRegistered))]
  }

  function Notices(byKey: map<Key, PeerId>, asks: seq<(Key, Key)>): seq<Mail> {
    if asks == [] then [] else Notice(byKey, asks[0]) + Notices(byKey, asks[1..])
  }

  lemma {:induction false} NoticesLast(byKey: map<Key, PeerId>, asks: seq<(Key, Key)>)
    requires asks != []
    ensures Notices(byKey, asks) == Notices(byKey, asks[..|asks| - 1]) + Notice(byKey, asks[|asks| - 1])
  {
    if |asks| > 1 {
      NoticesLast(byKey, asks[1..]);
      assert asks[1..][..|asks| - 2] == asks[..|asks| - 1][1..];
    } else {
      assert asks[1..] == [] && asks[..0] == [];
    }
  }

  lemma {:induction false} NotifiedIs(s: State, expired: seq<(Key, Key)>)
    ensures Notified(s, expired) == s.(outbox := s.outbox + Notices(s.byKey, expired))
  {
    if expired != [] {
      NotifiedIs(s, expired[..|expired| - 1]);
      NoticesLast(s.byKey, expired);
      var before := Notices(s.byKey, expired[..|expired| - 1]);
      assert s.outbox + before + Notice(s.byKey, expired[|expired| - 1]) == s.outbox + Notices(s.byKey, expired);
    } else {
      assert s.outbox + [] == s.outbox;
    }
  }

  /** As time passes, exactly the requests past the window go, each asker still here being told
      why; exactly the introductions and the idle relays more than a minute old go; and nothing
      else changes but the log. */
  lemma ExpiryAnswer(s: State, w: World, now: nat, window: nat, expired: seq<(Key, Key)>)
    ensures var t := Expire(s, w, now, window, expired);
            && (forall a :: a in t.asked <==> a in s.asked && SaturatingSub(now, s.asked[a]) <= window)
            && (forall a <- t.asked :: t.asked[a] == s.asked[a])
            && (forall p :: p in t.introduced <==> p in s.introduced && SaturatingSub(now, s.introduced[p]) <= 60_000)
            && (forall p <- t.introduced :: t.introduced[p] == s.introduced[p])
            && (forall p :: p in t.relays <==> p in s.relays && SaturatingSub(now, w.forwarded(p)) <= 60_000)
            && (forall p <- t.relays :: t.relays[p] == s.relays[p])
            && t.outbox == s.outbox + Notices(s.byKey, expired)
            && t.clients == s.clients && t.byKey == s.byKey && t.groups == s.groups
  {
    var live := Within(s.asked, now, window);
    var u := s.(asked := live, introduced := Within(s.introduced, now, RELAY_WINDOW),
                relays := s.relays - Idle(s.relays, w, now),
                log := s.log.(standing := StandingIn(s.log.standing, live)));
    NotifiedIs(u, expired);
  }
}
