/** The rendezvous as it runs: tables changed in place, each request proved to take them
    where `Rendezvous` says, and the whole history of requests a run of it. */
module RendezvousServer {
  import opened Outcomes
  import opened Rendezvous
  import Runs = RendezvousRuns

  class Server {
    var clients: map<PeerId, Client>
    var byKey: map<Key, PeerId>
    var asked: map<(Key, Key), nat>
    var introduced: map<(Key, Key), nat>
    var relays: map<(Key, Key), set<Ip>>
    var groups: map<Tag, seq<Row>>
    var outbox: seq<Mail>
    ghost const keyOf: PeerId -> Key
    ghost var log: Log
    ghost var history: seq<(World, Runs.Event)>

    ghost function View(): State
      reads this
    {
      State(clients, byKey, asked, introduced, relays, groups, outbox, log)
    }

    ghost predicate Standing()
      reads this
    {
      log.standing.Keys == asked.Keys
    }

    /** The tables are those of the run so far, whose invariant they therefore have. */
    ghost predicate Valid()
      reads this
    {
      (forall e <- history :: e.0.keyOf == keyOf) && View() == Runs.Run(keyOf, history)
    }

    constructor (ghost keyOf: PeerId -> Key)
      ensures Valid() && history == [] && this.keyOf == keyOf
    {
      this.keyOf := keyOf;
      clients, byKey, asked, introduced, relays, groups, outbox := map[], map[], map[], map[], map[], map[], [];
      log := EMPTY.log;
      history := [];
    }

    method Send(to: PeerId, note: Note)
      modifies this`outbox
      ensures outbox == old(outbox) + [Mail(to, note)]
    {
      outbox := outbox + [Mail(to, note)];
    }

    method Register(w: World, peer: PeerId)
      modifies this`clients, this`byKey, this`outbox
      ensures View() == Rendezvous.Register(old(View()), w, peer)
    {
      var addr := w.addrOf(peer);
      if addr.None? { return; }
      if peer !in clients && |AtIp(clients, addr.value.ip)| >= MAX_CLIENTS_PER_IP { return; }
      var key := w.keyOf(peer);
      if key in byKey && byKey[key] != peer { clients := clients - {byKey[key]}; }
      byKey := byKey[key := peer];
      clients := clients[peer := Client(key, addr.value)];
      Send(peer, Observed(addr.value));
    }

    method RecordAsk(from: Key, target: Key, now: nat)
      requires Standing()
      modifies this`asked, this`log
      ensures Standing() && View() == Recorded(old(View()), from, target, now)
    {
      asked := asked[(from, target) := now];
      log := log.(asks := log.asks + [Ask(from, target, now)],
                  standing := log.standing[(from, target) := |log.asks|]);
    }

    /** Spends both requests and posts two introductions. */
    method Connect(peer: PeerId, other: PeerId, from: Key, target: Key,
                   here: Address, there: Address, now: nat, window: nat)
      requires Standing() && (from, target) in log.standing && (target, from) in log.standing
      modifies this`asked, this`introduced, this`outbox, this`log
      ensures Standing()
      ensures View() == Introduced(old(View()), peer, other, from, target, here, there, now, window)
    {
      ghost var intro := Intro(log.standing[(from, target)], log.standing[(target, from)], now, window);
      log := log.(standing := log.standing - {(from, target), (target, from)},
                  intros := log.intros + [intro],
                  made := log.made[Pair(from, target) := |log.intros|]);
      asked := asked - {(from, target), (target, from)};
      introduced := introduced[Pair(from, target) := now];
      Send(peer, Introduction(target, there));
      Send(other, Introduction(from, here));
    }

    method Introduce(w: World, peer: PeerId, target: Key, now: nat, window: nat)
      requires Standing()
      modifies this`asked, this`introduced, this`outbox, this`log
      ensures Standing() && View() == Rendezvous.Introduce(old(View()), w, peer, target, now, window)
    {
      if peer !in clients || target == clients[peer].key { return; }
      var from := clients[peer].key;
      if !w.policy(from, target) {
        Send(peer, Unavailable(target, Refused));
        return;
      }
      RecordAsk(from, target, now);
      var mutual := (target, from) in asked && Since(now, asked[(target, from)]) <= window;
      if target !in byKey || !mutual { return; }
      var other := byKey[target];
      var here, there := w.addrOf(peer), w.addrOf(other);
      if here.None? || there.None? { return; }
      Connect(peer, other, from, target, here.value, there.value, now, window);
    }

    method TellBoth(from: Key, target: Key, a: Note, b: Note)
      modifies this`outbox
      ensures View() == ToldBoth(old(View()), from, target, a, b)
    {
      if from in byKey { Send(byKey[from], a); }
      if target in byKey { Send(byKey[target], b); }
    }

    method Relay(w: World, peer: PeerId, target: Key, now: nat, opens: bool)
      modifies this`relays, this`outbox, this`log
      ensures View() == Rendezvous.Relay(old(View()), w, peer, target, now, opens)
    {
      if peer !in clients { return; }
      var from := clients[peer].key;
      var pair := Pair(from, target);
      if target !in byKey {
        Send(peer, Unavailable(target, NotRegistered));
        return;
      }
      if pair !in introduced || Since(now, introduced[pair]) > RELAY_WINDOW {
        Send(peer, Unavailable(target, NoRelay));
        return;
      }
      if !w.policy(from, target) {
        TellBoth(from, target, Unavailable(target, NoRelay), Unavailable(from, NoRelay));
        return;
      }
      if pair !in relays {
        var ips := (if peer in clients then {clients[peer].addr.ip} else {}) +
                   (if byKey[target] in clients then {clients[byKey[target]].addr.ip} else {});
        if |relays| >= MAX_RELAYS || Crowded(relays, ips) || !opens {
          TellBoth(from, target, Unavailable(target, NoRelay), Unavailable(from, NoRelay));
          return;
        }
        relays := relays[pair := ips];
        log := log.(grants := log.grants[pair := Grant(now, if pair in log.made then log.made[pair] else 0)]);
      }
      TellBoth(pair.0, pair.1, RelayOffer(pair.1), RelayOffer(pair.0));
    }

    // One list to each on it.
    method TellGroup(tag: Tag)
      requires tag in groups
      modifies this`outbox
      ensures View() == Told(old(View()), tag, groups[tag], |groups[tag]|)
    {
      var rows := groups[tag];
      for i := 0 to |rows|
        invariant View() == Told(old(View()), tag, rows, i)
      {
        Send(rows[i].peer, Members(tag, rows));
      }
    }

    method Join(peer: PeerId, tag: Tag, mac: nat)
      modifies this`groups, this`outbox
      ensures View() == Rendezvous.Join(old(View()), peer, tag, mac)
    {
      if peer !in clients { return; }
      var key := clients[peer].key;
      var elsewhere := |GroupsOf(groups, peer) - {tag}|;
      var rows := Others(if tag in groups then groups[tag] else [], peer, Some(key));
      if |rows| >= MAX_GROUP_MEMBERS || elsewhere >= MAX_GROUPS {
        if rows == [] { groups := groups - {tag}; } else { groups := groups[tag := rows]; }
        return;
      }
      groups := groups[tag := rows + [Row(peer, key, mac)]];
      TellGroup(tag);
    }

    method Leave(peer: PeerId, tag: Tag)
      modifies this`groups, this`outbox
      ensures View() == Rendezvous.Leave(old(View()), peer, tag)
    {
      if tag !in groups || !InGroup(groups[tag], peer) { return; }
      var rows := Others(groups[tag], peer, None);
      if rows == [] {
        groups := groups - {tag};
      } else {
        groups := groups[tag := rows];
        TellGroup(tag);
      }
    }

    // The order is whatever the choice of elements makes it.
    static method InSomeOrder<T(==)>(s: set<T>) returns (list: seq<T>)
      ensures Lists(list, s)
    {
      list := [];
      var left := s;
      while left != {}
        invariant left <= s && (forall i :: 0 <= i < |list| ==> list[i] in s - left)
        invariant forall x <- s - left :: x in list
        invariant forall i, j :: 0 <= i < j < |list| ==> list[i] != list[j]
        decreases |left|
      {
        var x :| x in left;
        list := list + [x];
        left := left - {x};
      }
    }

    method LeaveAll(peer: PeerId, tags: seq<Tag>)
      modifies this`clients, this`byKey, this`groups, this`outbox
      ensures View() == Rendezvous.Forget(old(View()), peer, tags)
    {
      if peer in clients {
        var key := clients[peer].key;
        clients := clients - {peer};
        if key in byKey && byKey[key] == peer { byKey := byKey - {key}; }
      }
      for i := 0 to |tags|
        invariant View() == Rendezvous.Forget(old(View()), peer, tags[..i])
      {
        assert tags[..i + 1][..i] == tags[..i];
        Leave(peer, tags[i]);
      }
      assert tags[..|tags|] == tags;
    }

    method Forget(peer: PeerId) returns (tags: seq<Tag>)
      modifies this`clients, this`byKey, this`groups, this`outbox
      ensures Lists(tags, GroupsOf(old(groups), peer))
      ensures View() == Rendezvous.Forget(old(View()), peer, tags)
    {
      tags := InSomeOrder(GroupsOf(groups, peer));
      LeaveAll(peer, tags);
    }

    /** Tells the askers of requests that ran out. */
    method Notify(expired: seq<(Key, Key)>)
      modifies this`outbox
      ensures View() == Notified(old(View()), expired)
    {
      for i := 0 to |expired|
        invariant View() == Notified(old(View()), expired[..i])
      {
        assert expired[..i + 1][..i] == expired[..i];
        var (from, target) := expired[i];
        if from in byKey {
          Send(byKey[from], Unavailable(target, if target in byKey then NotAsked else NotRegistered));
        }
      }
      assert expired[..|expired|] == expired;
    }

    method Expire(w: World, now: nat, window: nat) returns (expired: seq<(Key, Key)>)
      modifies this`asked, this`introduced, this`relays, this`outbox, this`log
      ensures Lists(expired, Stale(old(asked), now, window))
      ensures View() == Rendezvous.Expire(old(View()), w, now, window, expired)
    {
      expired := InSomeOrder(Stale(asked, now, window));
      asked := Within(asked, now, window);
      log := log.(standing := StandingIn(log.standing, asked));
      introduced := Within(introduced, now, RELAY_WINDOW);
      relays := relays - Idle(relays, w, now);
      Notify(expired);
    }

    // ---- Entry points ------------------------------------------------------------------

    static predicate IsRequest(e: Runs.Event) {
      !e.Goes? && !e.TimePasses?
    }

    method Answer(w: World, e: Runs.Event)
      requires Runs.Inv(w.keyOf, View()) && IsRequest(e)
      modifies this`clients, this`byKey, this`asked, this`introduced, this`relays, this`groups, this`outbox, this`log
      ensures View() == Runs.Step(w, old(View()), e)
    {
      match e
      case Registers(peer) => Register(w, peer);
      case Asks(peer, target, now, window) => Introduce(w, peer, target, now, window);
      case WantsRelay(peer, target, now, opens) => Relay(w, peer, target, now, opens);
      case OverBudget(peer, target) => Send(peer, Unavailable(target, Refused));
      case Joins(peer, tag, mac) => Join(peer, tag, mac);
      case Leaves(peer, tag) => Leave(peer, tag);
    }

    /** A client's request: the run is one event longer. */
    method Handle(w: World, e: Runs.Event)
      requires Valid() && w.keyOf == keyOf && IsRequest(e)
      modifies this
      ensures Valid() && history == old(history) + [(w, e)]
    {
      Runs.RunOneMore(keyOf, history, (w, e));
      Answer(w, e);
      history := history + [(w, e)];
    }

    /** A session has gone. */
    method Lose(w: World, peer: PeerId) returns (tags: seq<Tag>)
      requires Valid() && w.keyOf == keyOf
      modifies this
      ensures Valid() && history == old(history) + [(w, Runs.Goes(peer, tags))]
      ensures Lists(tags, GroupsOf(old(groups), peer))
    {
      ghost var before := View();
      tags := Forget(peer);
      StepGone(w, before, peer, tags);
      Runs.RunOneMore(keyOf, history, (w, Runs.Goes(peer, tags)));
      history := history + [(w, Runs.Goes(peer, tags))];
    }

    method PassTime(w: World, now: nat, window: nat) returns (expired: seq<(Key, Key)>)
      requires Valid() && w.keyOf == keyOf
      modifies this
      ensures Valid() && history == old(history) + [(w, Runs.TimePasses(now, window, expired))]
      ensures Lists(expired, Stale(old(asked), now, window))
    {
      ghost var before := View();
      expired := Expire(w, now, window);
      StepLater(w, before, now, window, expired);
      Runs.RunOneMore(keyOf, history, (w, Runs.TimePasses(now, window, expired)));
      history := history + [(w, Runs.TimePasses(now, window, expired))];
    }

    /** One round: what has run out goes first, then whatever has come is dealt with. The tables
        are those of the run so far, which the round makes longer. */
    method Poll(w: World, now: nat, window: nat, what: Incoming)
      requires Valid() && w.keyOf == keyOf && (what.Request? ==> IsRequest(what.e))
      modifies this
      ensures Valid() && old(history) < history
      ensures history[|old(history)|].1.TimePasses? && |history| == |old(history)| + if what.Nothing? then 1 else 2
      ensures what.Request? ==> history[|history| - 1] == (w, what.e)
      ensures what.Gone? ==> history[|history| - 1].1.Goes? && history[|history| - 1].1.peer == what.peer
    {
      var expired := PassTime(w, now, window);
      match what
      case Request(e) => Handle(w, e);
      case Gone(peer) => var tags := Lose(w, peer);
      case Nothing =>
    }
  }

  lemma StepGone(w: World, s: State, peer: PeerId, tags: seq<Tag>)
    requires Runs.Inv(w.keyOf, s) && Lists(tags, GroupsOf(s.groups, peer))
    ensures Runs.Step(w, s, Runs.Goes(peer, tags)) == Rendezvous.Forget(s, peer, tags)
  {
  }

  lemma StepLater(w: World, s: State, now: nat, window: nat, expired: seq<(Key, Key)>)
    requires Runs.Inv(w.keyOf, s) && Lists(expired, Stale(s.asked, now, window))
    ensures Runs.Step(w, s, Runs.TimePasses(now, window, expired)) == Rendezvous.Expire(s, w, now, window, expired)
  {
  }

  datatype Incoming = Request(e: Runs.Event) | Gone(peer: PeerId) | Nothing
}
