/** The endpoint's three indexes of its sessions: by peer, by address and session
    identifier, and by session identifier alone.

    The first is the record; the other two are ways into it. `Agree` says they never
    disagree, and every operation is specified by what it does to the record alone. */
module Endpoint {
  import opened Bits
  import opened Outcomes

  type Addr = nat

  datatype Probe = Probe(addr: Addr, token: u64)

  datatype Entry = Entry(addr: Addr, session: u32, spoke: bool, filed: nat, lastHeard: nat, probe: Option<Probe>) {
    function Key(): (Addr, u32) { (addr, session) }
  }

  datatype Tables = Tables(
    peers: map<nat, Entry>,
    routes: map<(Addr, u32), nat>,
    bySession: map<u32, seq<nat>>)

  // ---- Agreement ----------------------------------------------------------------------

  predicate Once(ids: seq<nat>) {
    forall i, j :: 0 <= i < j < |ids| ==> ids[i] != ids[j]
  }

  predicate Listed(t: Tables, session: u32, id: nat) {
    session in t.bySession && id in t.bySession[session]
  }

  predicate Wears(t: Tables, session: u32, id: nat) {
    id in t.peers && t.peers[id].session == session
  }

  /** Each peer has its route, and each route leads to the peer it belongs to. */
  ghost predicate RoutesAgree(t: Tables) {
    && (forall id <- t.peers :: t.peers[id].Key() in t.routes && t.routes[t.peers[id].Key()] == id)
    && (forall key <- t.routes :: t.routes[key] in t.peers && t.peers[t.routes[key]].Key() == key)
  }

  /** Each peer is listed once under its session identifier, and nothing else is listed. */
  ghost predicate SessionsAgree(t: Tables) {
    && (forall session <- t.bySession :: t.bySession[session] != [] && Once(t.bySession[session]))
    && (forall session: u32, id: nat :: Listed(t, session, id) <==> Wears(t, session, id))
  }

  ghost predicate Agree(t: Tables) {
    RoutesAgree(t) && SessionsAgree(t)
  }

  /** No two sessions answer at one address and identifier, and looking there finds the one. */
  lemma RouteFindsThePeer(t: Tables, id: nat, other: nat)
    requires Agree(t) && id in t.peers && other in t.peers && t.peers[id].Key() == t.peers[other].Key()
    ensures id == other && t.routes[t.peers[id].Key()] == id
  {
  }

  // ---- Taking a peer out -----------------------------------------------------------------

  function Without(ids: seq<nat>, id: nat): (r: seq<nat>)
    ensures forall x :: x in r <==> x in ids && x != id
    ensures Once(ids) ==> Once(r)
  {
    if ids == [] then []
    else
      var front := Without(ids[..|ids| - 1], id);
      var last := ids[|ids| - 1];
      if last == id then front
      else
        WithoutLast(ids, id);
        front + [last]
  }

  lemma WithoutLast(ids: seq<nat>, id: nat)
    requires ids != []
    ensures Once(ids) ==> Once(ids[..|ids| - 1]) && ids[|ids| - 1] !in ids[..|ids| - 1]
  {
  }

  function Unfiled(index: map<u32, seq<nat>>, session: u32, id: nat): map<u32, seq<nat>> {
    if session !in index then index
    else
      var sharing := Without(index[session], id);
      if sharing == [] then index - {session} else index[session := sharing]
  }

  function Drop(t: Tables, id: nat): Tables
    requires id in t.peers
  {
    Tables(t.peers - {id}, t.routes - {t.peers[id].Key()}, Unfiled(t.bySession, t.peers[id].session, id))
  }

  lemma DropAgrees(t: Tables, id: nat)
    requires Agree(t) && id in t.peers
    ensures Agree(Drop(t, id))
  {
    var u := Drop(t, id);
    var gone := t.peers[id].session;
    assert Wears(t, gone, id);
    forall session: u32, x: nat ensures Listed(u, session, x) <==> Wears(u, session, x) {
      assert Listed(t, session, x) <==> Wears(t, session, x);
    }
  }

  // ---- Putting a peer in -------------------------------------------------------------------

  function Filed(index: map<u32, seq<nat>>, session: u32, id: nat): map<u32, seq<nat>> {
    index[session := (if session in index then index[session] else []) + [id]]
  }

  function Add(t: Tables, id: nat, e: Entry): Tables {
    Tables(t.peers[id := e], t.routes[e.Key() := id], Filed(t.bySession, e.session, id))
  }

  lemma AddAgrees(t: Tables, id: nat, e: Entry)
    requires Agree(t) && id !in t.peers && e.Key() !in t.routes
    ensures Agree(Add(t, id, e))
  {
    var u := Add(t, id, e);
    assert !Wears(t, e.session, id);
    forall session: u32, x: nat ensures Listed(u, session, x) <==> Wears(u, session, x) {
      assert Listed(t, session, x) <==> Wears(t, session, x);
    }
  }

  // ---- Moving a peer -------------------------------------------------------------------------

  function Moved(t: Tables, id: nat, e: Entry): Tables
    requires id in t.peers
  {
    Tables(t.peers[id := e], (t.routes - {t.peers[id].Key()})[e.Key() := id], t.bySession)
  }

  lemma MovedAgrees(t: Tables, id: nat, e: Entry)
    requires Agree(t) && id in t.peers && e.session == t.peers[id].session
    requires e.Key() !in t.routes || t.routes[e.Key()] == id
    ensures Agree(Moved(t, id, e))
  {
    var u := Moved(t, id, e);
    forall session: u32, x: nat ensures Listed(u, session, x) <==> Wears(u, session, x) {
      assert Listed(t, session, x) <==> Wears(t, session, x);
    }
  }

  /** The record without the peer filed at `key`. */
  function Displaced(peers: map<nat, Entry>, key: (Addr, u32)): map<nat, Entry> {
    map id | id in peers && peers[id].Key() != key :: peers[id]
  }

  /** The record once `e` is filed as `id`: the victim gone, and the one `e` displaces. */
  function Joined(peers: map<nat, Entry>, victim: Option<nat>, id: nat, e: Entry): map<nat, Entry> {
    Displaced(if victim.Some? then peers - {victim.value} else peers, e.Key())[id := e]
  }

  /** Whatever was filed where `e` goes, taken out. */
  function Cleared(t: Tables, e: Entry): Tables {
    if e.Key() in t.routes && t.routes[e.Key()] in t.peers then Drop(t, t.routes[e.Key()]) else t
  }

  lemma ClearedAgrees(t: Tables, e: Entry)
    requires Agree(t)
    ensures Agree(Cleared(t, e)) && e.Key() !in Cleared(t, e).routes
    ensures Cleared(t, e).peers == Displaced(t.peers, e.Key())
  {
    if e.Key() in t.routes { DropAgrees(t, t.routes[e.Key()]); }
  }

  /** A route claimed for `id`, the session that held it taken out of the other indexes. */
  function Claimed(t: Tables, id: nat, key: (Addr, u32)): Tables {
    var routes := t.routes[key := id];
    if key in t.routes && t.routes[key] in t.peers then
      Tables(t.peers - {t.routes[key]}, routes, Unfiled(t.bySession, t.peers[t.routes[key]].session, t.routes[key]))
    else t.(routes := routes)
  }

  lemma FiledAgrees(t: Tables, id: nat, e: Entry)
    requires Agree(t) && id !in t.peers
    ensures var u := Claimed(t, id, e.Key());
            var v := Tables(u.peers[id := e], u.routes, Filed(u.bySession, e.session, id));
            Agree(v) && v.peers == Displaced(t.peers, e.Key())[id := e]
  {
    ClearedAgrees(t, e);
    AddAgrees(Cleared(t, e), id, e);
    var u := Claimed(t, id, e.Key());
    assert u.routes == Cleared(t, e).routes[e.Key() := id];
  }

  /** `id` takes the address in `e`: its own route goes, then it claims the new one. */
  function Settled(t: Tables, id: nat, e: Entry): Tables
    requires id in t.peers
  {
    Claimed(t.(peers := t.peers[id := e], routes := t.routes - {t.peers[id].Key()}), id, e.Key())
  }

  lemma SettledInPlace(t: Tables, id: nat, e: Entry)
    requires Agree(t) && id in t.peers && e.session == t.peers[id].session && e.Key() == t.peers[id].Key()
    ensures Agree(Settled(t, id, e)) && Settled(t, id, e).peers == Displaced(t.peers - {id}, e.Key())[id := e]
  {
    var u := Settled(t, id, e);
    MovedAgrees(t, id, e);
    assert u.routes == Moved(t, id, e).routes;
    assert u.peers == Displaced(t.peers - {id}, e.Key())[id := e];
  }

  lemma SettledElsewhere(t: Tables, id: nat, e: Entry)
    requires Agree(t) && id in t.peers && e.session == t.peers[id].session && e.Key() != t.peers[id].Key()
    ensures Agree(Settled(t, id, e)) && Settled(t, id, e).peers == Displaced(t.peers - {id}, e.Key())[id := e]
  {
    var u, c := Settled(t, id, e), Cleared(t, e);
    ClearedAgrees(t, e);
    MovedAgrees(c, id, e);
    assert u.routes == Moved(c, id, e).routes;
    assert u.peers == Moved(c, id, e).peers;
  }

  lemma SettledAgrees(t: Tables, id: nat, e: Entry)
    requires Agree(t) && id in t.peers && e.session == t.peers[id].session
    ensures Agree(Settled(t, id, e)) && Settled(t, id, e).peers == Displaced(t.peers - {id}, e.Key())[id := e]
  {
    if e.Key() == t.peers[id].Key() { SettledInPlace(t, id, e); } else { SettledElsewhere(t, id, e); }
  }

  // ---- The endpoint ----------------------------------------------------------------------------

  /** Whether `a` goes before `b`: peers that never spoke first, then the oldest. */
  predicate GoesFirst(a: Entry, b: Entry) {
    (!a.spoke && b.spoke) || (a.spoke == b.spoke && a.filed <= b.filed)
  }

  ghost predicate FirstToGo(peers: map<nat, Entry>, id: nat) {
    id in peers && forall other <- peers :: GoesFirst(peers[id], peers[other])
  }

  function Spoken(peers: map<nat, Entry>): set<nat> {
    set id | id in peers && peers[id].spoke
  }

  predicate Expired(e: Entry, now: nat, limit: nat) {
    SaturatingSub(now, e.lastHeard) >= limit
  }

  class Endpoint {
    var peers: map<nat, Entry>
    var routes: map<(Addr, u32), nat>
    var bySession: map<u32, seq<nat>>
    var maxPeers: nat
    var nextId: nat
    var outbound: map<nat, (Addr, u32)>   // handshakes started and not answered, by handle
    var relayed: set<nat>

    ghost function View(): Tables
      reads this
    {
      Tables(peers, routes, bySession)
    }

    ghost predicate Valid()
      reads this
    {
      Agree(View()) && maxPeers >= 1 && Handles()
    }

    /** Handles are never given out twice, and none is both connecting and connected. */
    ghost predicate Handles()
      reads this
    {
      && (forall id <- peers :: id < nextId && id !in outbound)
      && (forall id <- outbound :: id < nextId)
    }

    constructor (maxPeers: nat)
      requires maxPeers >= 1
      ensures Valid() && peers == map[] && outbound == map[] && relayed == {} && this.maxPeers == maxPeers
    {
      peers, routes, bySession := map[], map[], map[];
      nextId, outbound, relayed := 0, map[], {};
      this.maxPeers := maxPeers;
    }

    method SetMaxPeers(limit: nat)
      requires Valid()
      modifies this`maxPeers
      ensures Valid() && maxPeers == if limit < 1 then 1 else limit
    {
      maxPeers := if limit < 1 then 1 else limit;
    }

    method UnfileSession(session: u32, id: nat)
      modifies this`bySession
      ensures bySession == Unfiled(old(bySession), session, id)
    {
      if session in bySession {
        var sharing := Without(bySession[session], id);
        if sharing == [] {
          bySession := bySession - {session};
        } else {
          bySession := bySession[session := sharing];
        }
      }
    }

    /** Takes a peer out of all three indexes. */
    method Forget(id: nat)
      requires Valid() && id in peers
      modifies this`peers, this`routes, this`bySession
      ensures Valid() && peers == old(peers) - {id}
    {
      DropAgrees(View(), id);
      var entry := peers[id];
      peers := peers - {id};
      routes := routes - {entry.Key()};
      UnfileSession(entry.session, id);
    }

    /** Lets go of a handle: a handshake under way if it is one, a session otherwise. */
    method Disconnect(id: nat) returns (known: bool)
      requires Valid()
      modifies this`peers, this`routes, this`bySession, this`outbound, this`relayed
      ensures Valid() && known == (id in old(outbound) || id in old(peers))
      ensures outbound == old(outbound) - {id} && peers == old(peers) - {id}
      ensures relayed == if id in old(outbound) then old(relayed) else old(relayed) - {id}
    {
      if id in outbound {
        outbound := outbound - {id};
        return true;
      }
      relayed := relayed - {id};
      known := id in peers;
      if known { Forget(id); }
    }

    /** The peer that goes first when room is needed. */
    method PickVictim() returns (victim: nat)
      requires peers != map[]
      ensures FirstToGo(peers, victim)
    {
      victim :| victim in peers;
      var left := peers.Keys - {victim};
      while left != {}
        invariant left <= peers.Keys && victim in peers
        invariant forall other <- peers.Keys - left :: GoesFirst(peers[victim], peers[other])
        decreases |left|
      {
        var id :| id in left;
        if !GoesFirst(peers[victim], peers[id]) { victim := id; }
        left := left - {id};
      }
    }

    /** When full, the peer that goes first is let go. */
    method MakeRoom() returns (victim: Option<nat>)
      requires Valid()
      modifies this`peers, this`routes, this`bySession
      ensures Valid()
      ensures victim.None? ==> peers == old(peers) && |peers| < maxPeers
      ensures victim.Some? ==> old(|peers|) >= maxPeers && FirstToGo(old(peers), victim.value)
      ensures victim.Some? ==> peers == old(peers) - {victim.value} && |peers| == old(|peers|) - 1
      ensures victim.Some? && old(peers)[victim.value].spoke ==> forall id <- old(peers) :: old(peers)[id].spoke
      ensures victim.Some? ==> forall id <- old(peers) ::
                old(peers)[id].spoke == old(peers)[victim.value].spoke ==> old(peers)[victim.value].filed <= old(peers)[id].filed
    {
      if |peers| < maxPeers { return None; }
      var id := PickVictim();
      GoesBeforeAll(peers, id);
      Forget(id);
      RemoveOne(old(peers), id);
      return Some(id);
    }

    /** Gives a route to `id`; a session that held it is displaced. */
    method Claim(id: nat, key: (Addr, u32))
      modifies this`peers, this`routes, this`bySession
      ensures View() == Claimed(old(View()), id, key)
    {
      var held := if key in routes then Some(routes[key]) else None;
      routes := routes[key := id];
      if held.Some? && held.value in peers {
        var session := peers[held.value].session;
        peers := peers - {held.value};
        UnfileSession(session, held.value);
      }
    }

    /** Files a session under its address and identifier, in place of any already there. */
    method File(id: nat, addr: Addr, session: u32, now: nat) returns (victim: Option<nat>)
      requires Valid() && id !in peers && id !in outbound && id < nextId
      modifies this`peers, this`routes, this`bySession
      ensures Valid()
      ensures peers == Joined(old(peers), victim, id, Entry(addr, session, false, now, now, None))
      ensures victim.Some? <==> old(|peers|) >= maxPeers
      ensures victim.Some? ==> FirstToGo(old(peers), victim.value)
      ensures |peers| <= if old(|peers|) < maxPeers then maxPeers else old(|peers|)
    {
      victim := MakeRoom();
      var entry := Entry(addr, session, false, now, now, None);
      FiledSize(peers, id, entry);
      FiledAgrees(View(), id, entry);
      Claim(id, entry.Key());
      bySession := bySession[session := (if session in bySession then bySession[session] else []) + [id]];
      peers := peers[id := entry];
    }

    /** An opening frame has gone out, under a handle of its own. */
    method StartHandshake(addr: Addr, session: u32) returns (id: nat)
      requires Valid()
      modifies this`nextId, this`outbound
      ensures Valid() && id !in old(outbound) && id !in peers
      ensures outbound == old(outbound)[id := (addr, session)]
    {
      id := nextId;
      nextId := nextId + 1;
      outbound := outbound[id := (addr, session)];
    }

    /** A reply to a handshake: one that matches none is ignored; one that matches uses the
        handshake up, and files a session under its handle if the reply is authentic. */
    method CompleteOutbound(from: Addr, session: u32, authentic: bool, now: nat)
      returns (id: Option<nat>, victim: Option<nat>)
      requires Valid()
      modifies this`peers, this`routes, this`bySession, this`outbound
      ensures Valid()
      ensures id.None? <==> forall x <- old(outbound) :: old(outbound)[x] != (from, session)
      ensures id.None? ==> View() == old(View()) && outbound == old(outbound)
      ensures id.Some? ==>
                && id.value in old(outbound) && old(outbound)[id.value] == (from, session)
                && outbound == old(outbound) - {id.value} && (!authentic ==> View() == old(View()))
      ensures id.Some? && authentic ==>
                && (victim.Some? <==> old(|peers|) >= maxPeers)
                && peers == Joined(old(peers), victim, id.value, Entry(from, session, false, now, now, None))
    {
      victim := None;
      if x :| x in outbound && outbound[x] == (from, session) {
        outbound := outbound - {x};
        id := Some(x);
        if authentic { victim := File(x, from, session, now); }
      } else {
        id := None;
      }
    }

    /** A handshake the other side started. */
    method Accept(addr: Addr, session: u32, now: nat) returns (id: nat, victim: Option<nat>)
      requires Valid()
      modifies this`peers, this`routes, this`bySession, this`nextId
      ensures Valid() && id !in old(peers) && id !in outbound && (victim.Some? <==> old(|peers|) >= maxPeers)
      ensures peers == Joined(old(peers), victim, id, Entry(addr, session, false, now, now, None))
    {
      id := nextId;
      nextId := nextId + 1;
      victim := File(id, addr, session, now);
    }

    /** A challenge was answered from where it was sent: the session goes there, displacing any
        other with its identifier. */
    method SettleProbe(id: nat, from: Addr, token: u64) returns (moved: bool)
      requires Valid()
      modifies this`peers, this`routes, this`bySession
      ensures Valid()
      ensures moved == (id in old(peers) && old(peers)[id].probe == Some(Probe(from, token)))
      ensures !moved ==> View() == old(View())
      ensures moved ==>
                var entry := old(peers)[id].(addr := from, probe := None);
                peers == Displaced(old(peers) - {id}, entry.Key())[id := entry]
    {
      if id !in peers || peers[id].probe != Some(Probe(from, token)) { return false; }
      var previous := peers[id].Key();
      var entry := peers[id].(addr := from, probe := None);
      SettledAgrees(View(), id, entry);
      peers := peers[id := entry];
      routes := routes - {previous};
      Claim(id, entry.Key());
      return true;
    }

    method ForgetAll(ids: set<nat>)
      requires Valid() && ids <= peers.Keys
      modifies this`peers, this`routes, this`bySession
      ensures Valid() && peers == old(peers) - ids
    {
      var left := ids;
      while left != {}
        invariant Valid() && left <= ids && peers == old(peers) - (ids - left)
        decreases |left|
      {
        var id :| id in left;
        Forget(id);
        left := left - {id};
      }
    }

    /** Lets go of every peer not heard from inside the limit, and of no other. */
    method DriveLiveness(now: nat, limit: nat) returns (lost: set<nat>)
      requires Valid()
      modifies this`peers, this`routes, this`bySession
      ensures Valid() && lost == (set id | id in old(peers) && SaturatingSub(now, old(peers)[id].lastHeard) >= limit)
      ensures peers == old(peers) - lost
    {
      lost := set id | id in peers && Expired(peers[id], now, limit);
      ForgetAll(lost);
    }

    /** The session a frame belongs to by where it came from. */
    method Route(from: Addr, session: u32) returns (id: Option<nat>)
      requires Valid()
      ensures id.Some? <==> exists x :: x in peers && peers[x].Key() == (from, session)
      ensures id.Some? ==> id.value in peers && peers[id.value].Key() == (from, session)
    {
      if (from, session) in routes { return Some(routes[(from, session)]); }
      return None;
    }

    /** An authentic frame arrived. */
    method Heard(id: nat, now: nat)
      requires Valid() && id in peers
      modifies this`peers
      ensures Valid() && peers == old(peers)[id := old(peers)[id].(spoke := true, lastHeard := now)]
    {
      Touched(View(), id, peers[id].(spoke := true, lastHeard := now));
      peers := peers[id := peers[id].(spoke := true, lastHeard := now)];
    }

    /** A challenge was sent to an address the peer may have moved to. */
    method StartProbe(id: nat, probe: Probe)
      requires Valid() && id in peers
      modifies this`peers
      ensures Valid() && peers == old(peers)[id := old(peers)[id].(probe := Some(probe))]
    {
      Touched(View(), id, peers[id].(probe := Some(probe)));
      peers := peers[id := peers[id].(probe := Some(probe))];
    }
  }

  lemma Touched(t: Tables, id: nat, e: Entry)
    requires Agree(t) && id in t.peers && e.Key() == t.peers[id].Key()
    ensures Agree(t.(peers := t.peers[id := e]))
  {
    var u := t.(peers := t.peers[id := e]);
    forall session: u32, x: nat ensures Listed(u, session, x) <==> Wears(u, session, x) {
      assert Listed(t, session, x) <==> Wears(t, session, x);
    }
  }

  lemma RemoveOne(peers: map<nat, Entry>, id: nat)
    requires id in peers
    ensures |peers - {id}| == |peers| - 1
  {
    assert (peers - {id}).Keys == peers.Keys - {id};
    assert |peers.Keys - {id}| == |peers.Keys| - 1;
    assert |peers| == |peers.Keys| && |peers - {id}| == |(peers - {id}).Keys|;
  }

  lemma FiledSize(peers: map<nat, Entry>, id: nat, e: Entry)
    ensures |Displaced(peers, e.Key())[id := e]| <= |peers| + 1
  {
    var after := Displaced(peers, e.Key())[id := e];
    assert after.Keys <= peers.Keys + {id};
    SubsetSize(after.Keys, peers.Keys + {id});
    assert |after| == |after.Keys| && |peers| == |peers.Keys| && |peers.Keys + {id}| <= |peers.Keys| + 1;
  }

  /** Who goes first: one that never spoke before any that did, and of either kind the one filed
      longest ago. */
  lemma GoesBeforeAll(peers: map<nat, Entry>, victim: nat)
    requires FirstToGo(peers, victim)
    ensures peers[victim].spoke ==> forall id <- peers :: peers[id].spoke
    ensures forall id <- peers :: peers[id].spoke == peers[victim].spoke ==> peers[victim].filed <= peers[id].filed
  {
  }

  /** While fewer peers have spoken than the endpoint may hold, making room never costs one
      that has. */
  lemma SpokenAreSafe(peers: map<nat, Entry>, maxPeers: nat, victim: nat)
    requires |peers| >= maxPeers && |Spoken(peers)| < maxPeers && FirstToGo(peers, victim)
    ensures !peers[victim].spoke
  {
    assert |peers.Keys| == |peers|;
    assert Spoken(peers) != peers.Keys;
    var id :| id in peers && !peers[id].spoke;
    assert GoesFirst(peers[victim], peers[id]);
  }
}
