/**
 Presence as clients see it: the last status a client's registered channel was sent for a host,
 by subscription reply or by push, against the policy on the current state.
 */
module PresenceRuns {
  import opened Wrappers
  import opened Relay
  import RelayRuns

  /** What one message says to a channel about a host, as a subscription reply or a pushed update. */
  function Tells(o: Output, ch: Chan, host: PeerId): Option<bool> {
    match o
    case PeerStatus(c, h, online) => if c == ch && h == host then Some(online) else None
    case StatusReply(c, statuses, subscribed) =>
      if c == ch && subscribed && host in statuses then Some(statuses[host]) else None
    case _ => None
  }

  /** The last presence a channel was told for a host. */
  function Heard(os: seq<Output>, ch: Chan, host: PeerId): Option<bool> {
    if os == [] then None
    else if Tells(os[|os| - 1], ch, host).Some? then Tells(os[|os| - 1], ch, host)
    else Heard(os[..|os| - 1], ch, host)
  }

  lemma {:induction false} HeardAppend(a: seq<Output>, b: seq<Output>, ch: Chan, host: PeerId)
    ensures Heard(a + b, ch, host) == if Heard(b, ch, host).Some? then Heard(b, ch, host) else Heard(a, ch, host)
  {
    if b == [] {
      assert a + b == a;
    } else {
      assert (a + b)[..|a + b| - 1] == a + b[..|b| - 1];
      HeardAppend(a, b[..|b| - 1], ch, host);
    }
  }

  lemma {:induction false} SilentChannel(os: seq<Output>, ch: Chan, host: PeerId)
    requires forall o :: o in os ==> Tells(o, ch, host).None?
    ensures Heard(os, ch, host).None?
  {
    if os != [] {
      SilentChannel(os[..|os| - 1], ch, host);
    }
  }

  /** What a connected client was last told about a host is the policy's verdict now, and the client is subscribed. */
  ghost predicate Agrees(s: State, client: PeerId, host: PeerId) {
    client in s.peers && s.peers[client].kind == Client
      && Heard(s.sent, s.peers[client].chan, host).Some? ==>
      && client in SubscribersOf(s.subs, host)
      && Heard(s.sent, s.peers[client].chan, host).value == Presence(s.peers, host, client)
  }

  ghost predicate Agreement(s: State) {
    forall client, host :: Agrees(s, client, host)
  }

  /** A push list tells exactly the connected client subscribers, each the policy's verdict. */
  lemma {:induction false} PushesTell(peers: map<PeerId, Peer>, clients: seq<PeerId>, host: PeerId, client: PeerId)
    requires forall i, j :: i in peers && j in peers && peers[i].chan == peers[j].chan ==> i == j
    requires client in peers && peers[client].kind == Client
    ensures Heard(Pushes(peers, clients, host), peers[client].chan, host)
            == if client in clients then Some(Presence(peers, host, client)) else None
    ensures forall h :: h != host ==> Heard(Pushes(peers, clients, host), peers[client].chan, h).None?
  {
    hide Presence;
    var ch := peers[client].chan;
    if clients != [] {
      var c, front := clients[|clients| - 1], clients[..|clients| - 1];
      PushesTell(peers, front, host, client);
      assert clients == front + [c];
      var last := if c in peers && peers[c].kind == Client
                  then [PeerStatus(peers[c].chan, host, Presence(peers, host, c))] else [];
      HeardAppend(Pushes(peers, front, host), last, ch, host);
      forall h | h != host ensures Heard(Pushes(peers, clients, host), ch, h).None? {
        HeardAppend(Pushes(peers, front, host), last, ch, h);
      }
    }
  }

  /** No two registrations share a channel. */
  lemma ChannelsDistinct(s: State)
    requires RelayRuns.Linked(s)
    ensures forall i, j :: i in s.peers && j in s.peers && s.peers[i].chan == s.peers[j].chan ==> i == j
  {}

  /** Nothing new reached the client about the host, and nothing the policy looks at has changed. */
  lemma Undisturbed(s: State, s': State, more: seq<Output>, client: PeerId, host: PeerId)
    requires Agrees(s, client, host)
    requires s'.sent == s.sent + more
    requires client in s.peers && client in s'.peers
    requires s.peers[client].chan == s'.peers[client].chan && s.peers[client].kind == s'.peers[client].kind
    requires Heard(more, s.peers[client].chan, host).None?
    requires client in SubscribersOf(s.subs, host) ==> client in SubscribersOf(s'.subs, host)
    requires Presence(s.peers, host, client) == Presence(s'.peers, host, client)
    ensures Agrees(s', client, host)
  {
    HeardAppend(s.sent, more, s.peers[client].chan, host);
  }

  /** The state after host h's record has changed (or appeared, or gone) and its subscribers were pushed the news. */
  lemma Pushed(s: State, s': State, other: seq<Output>, h: PeerId, client: PeerId, host: PeerId)
    requires RelayRuns.Linked(s') && Agreement(s)
    requires s'.subs == s.subs && s'.peers - {h} == s.peers - {h}
    requires s'.sent == s.sent + (other + Pushes(s'.peers, SubscribersOf(s.subs, h), h))
    requires forall o :: o in other ==> o.Replaced? || o.Registered?
    requires client in s'.peers && s'.peers[client].kind == Client && client != h
    ensures Agrees(s', client, host)
  {
    var ch := s'.peers[client].chan;
    var pushes := Pushes(s'.peers, SubscribersOf(s.subs, h), h);
    assert client in s'.peers - {h} && s.peers[client] == s'.peers[client];
    ChannelsDistinct(s');
    PushesTell(s'.peers, SubscribersOf(s.subs, h), h, client);
    SilentChannel(other, ch, host);
    HeardAppend(other, pushes, ch, host);
    HeardAppend(s.sent, other + pushes, ch, host);
    assert Agrees(s, client, host);
    if host != h {
      SamePolicy(s.peers, s'.peers, h, host, client);
    }
  }

  lemma SamePolicy(peers: map<PeerId, Peer>, peers': map<PeerId, Peer>, h: PeerId, host: PeerId, client: PeerId)
    requires peers' - {h} == peers - {h} && host != h
    ensures Presence(peers, host, client) == Presence(peers', host, client)
  {
    assert host in peers <==> host in peers - {h};
    assert host in peers' <==> host in peers' - {h};
    if host in peers { assert peers[host] == (peers - {h})[host] == (peers' - {h})[host] == peers'[host]; }
  }

  /** A new registration's channel has heard nothing. */
  lemma NewClientAgrees(c: Crypto, s: State, a: Action, host: PeerId)
    requires a.Register? && a.kind == Client && a.ch !in s.conns && HandshakeOk(c, a)
    requires forall o :: o in s.sent ==> o.ch != a.ch
    ensures Agrees(StepRegister(c, s, a), a.id, host)
  {
    var s' := StepRegister(c, s, a);
    SilentChannel(s'.sent, a.ch, host);
  }

  /** A client that was told a host is online although its registration is now a client's. */
  ghost predicate ToldOnline(s: State, host: PeerId) {
    exists client :: client in s.peers && s.peers[client].kind == Client && client != host
                     && Heard(s.sent, s.peers[client].chan, host) == Some(true)
  }

  lemma ElsewhereSame(peers: map<PeerId, Peer>, id: PeerId, p: Peer)
    ensures peers[id := p] - {id} == peers - {id}
  {}

  lemma HostRegisterSays(c: Crypto, s: State, a: Action)
    requires a.Register? && a.ch !in s.conns && HandshakeOk(c, a) && a.kind == Host
    ensures var s' := StepRegister(c, s, a);
            var other := (if a.id in s.peers then [Replaced(s.peers[a.id].chan)] else [])
                         + [Registered(a.ch, a.id, a.session)];
            s'.sent == s.sent + (other + Pushes(s'.peers, SubscribersOf(s.subs, a.id), a.id))
  {
    hide Pushes, HandshakeOk;
  }

  lemma HostRegisterAgrees(c: Crypto, s: State, a: Action, client: PeerId, host: PeerId)
    requires RelayRuns.Linked(s) && RelayRuns.PeersOk(c, s) && Agreement(s)
    requires a.Register? && a.ch !in s.conns && HandshakeOk(c, a) && a.kind == Host
    ensures Agrees(StepRegister(c, s, a), client, host)
  {
    hide Agreement, HandshakeOk, Pushes, RelayRuns.PeersOk, RelayRuns.Linked, Agrees;
    var s' := StepRegister(c, s, a);
    RelayRuns.RegisterKeepsPeers(c, s, a);
    var other := (if a.id in s.peers then [Replaced(s.peers[a.id].chan)] else []) + [Registered(a.ch, a.id, a.session)];
    HostRegisterSays(c, s, a);
    ElsewhereSame(s.peers, a.id, s'.peers[a.id]);
    if client in s'.peers && s'.peers[client].kind == Client {
      Pushed(s, s', other, a.id, client, host);
    } else {
      NoClientAgrees(s', client, host);
    }
  }

  lemma NoClientAgrees(s: State, client: PeerId, host: PeerId)
    requires client !in s.peers || s.peers[client].kind != Client
    ensures Agrees(s, client, host)
  {}

  /** Another peer registers as a client: only what was said of it as a host can become stale. */
  lemma ClientRegisterAgrees(c: Crypto, s: State, a: Action, client: PeerId, host: PeerId)
    requires RelayRuns.Linked(s) && Agreement(s)
    requires a.Register? && a.ch !in s.conns && HandshakeOk(c, a) && a.kind == Client
    requires forall o :: o in s.sent ==> o.ch != a.ch
    ensures client == a.id || host != a.id || a.id !in s.peers || s.peers[a.id].kind == Client ==>
              Agrees(StepRegister(c, s, a), client, host)
    ensures client in s.peers && client != a.id && host == a.id && s.peers[client].kind == Client ==>
              (Agrees(StepRegister(c, s, a), client, host)
               <==> Heard(s.sent, s.peers[client].chan, host) != Some(true))
  {
    var s' := StepRegister(c, s, a);
    var other := (if a.id in s.peers then [Replaced(s.peers[a.id].chan)] else []) + [Registered(a.ch, a.id, a.session)];
    assert s'.sent == s.sent + other;
    if client == a.id {
      NewClientAgrees(c, s, a, host);
    } else if client in s.peers {
      assert s'.peers[client] == s.peers[client];
      SilentChannel(other, s.peers[client].chan, host);
      HeardAppend(s.sent, other, s.peers[client].chan, host);
      assert Agrees(s, client, host);
    }
  }

  lemma {:induction false} SubscribeAllAdds(subs: map<PeerId, seq<PeerId>>, hosts: seq<PeerId>, client: PeerId)
    ensures forall h, x :: x in SubscribersOf(SubscribeAll(subs, hosts, client), h)
                           <==> x in SubscribersOf(subs, h) || (h in hosts && x == client)
  {
    if hosts != [] {
      var front, last := hosts[..|hosts| - 1], hosts[|hosts| - 1];
      SubscribeAllAdds(subs, front, client);
      assert hosts == front + [last];
    }
  }

  lemma SubscribeAgrees(s: State, ch: Chan, hosts: seq<PeerId>, client: PeerId, host: PeerId)
    requires RelayRuns.Linked(s) && Agreement(s) && ch in s.conns
    ensures Agrees(StepSubscribe(s, ch, hosts), client, host)
  {
    var s' := StepSubscribe(s, ch, hosts);
    SubscribeAllAdds(s.subs, hosts, s.conns[ch]);
    if client in s.peers && s.peers[client].kind == Client {
      var reply := StatusReply(ch, Statuses(s.peers, hosts, s.conns[ch]), true);
      HeardAppend(s.sent, [reply], s.peers[client].chan, host);
      assert Agrees(s, client, host);
    }
  }

  lemma CheckAgrees(s: State, ch: Chan, hosts: seq<PeerId>, client: PeerId, host: PeerId)
    requires Agreement(s) && ch in s.conns
    ensures Agrees(StepCheck(s, ch, hosts), client, host)
  {
    if client in s.peers {
      var reply := StatusReply(ch, Statuses(s.peers, hosts, s.conns[ch]), false);
      Undisturbed(s, StepCheck(s, ch, hosts), [reply], client, host);
    }
  }

  lemma UpdateAclAgrees(c: Crypto, s: State, wall: nat, a: Action, client: PeerId, host: PeerId)
    requires RelayRuns.Linked(s) && RelayRuns.PeersOk(c, s) && Agreement(s) && a.UpdateAcl? && a.ch in s.conns
    ensures Agrees(StepUpdateAcl(c, s, wall, a), client, host)
  {
    hide Agreement, Heard, Pushes, RelayRuns.PeersOk, RelayRuns.Linked, Presence, Agrees;
    var s' := StepUpdateAcl(c, s, wall, a);
    RelayRuns.UpdateAclKeepsPeers(c, s, wall, a);
    if !AclUpdateOk(c, s, wall, a) {
      if client in s.peers { RefusedAgrees(s, a.ch, client, host); } else { NoClientAgrees(s', client, host); }
    } else {
      var h := s.conns[a.ch];
      ElsewhereSame(s.peers, h, WithAcl(s.peers[h], a.allowed));
      hide AclUpdateOk, WithAcl;
      var none: seq<Output> := [];
      assert none + Pushes(s'.peers, SubscribersOf(s.subs, h), h) == Pushes(s'.peers, SubscribersOf(s.subs, h), h);
      if client in s'.peers && s'.peers[client].kind == Client {
        Pushed(s, s', none, h, client, host);
      } else {
        NoClientAgrees(s', client, host);
      }
    }
  }

  /** Sending changes no registration's channel, kind, visibility or ACL. */
  lemma SendKeepsPolicy(c: Crypto, s: State, now: nat, wall: nat, ch: Chan, m: Signal, id: PeerId)
    ensures var s' := StepSend(c, s, now, wall, ch, m);
            && s'.subs == s.subs && (id in s'.peers <==> id in s.peers)
            && (id in s.peers ==>
                  && s'.peers[id].chan == s.peers[id].chan && s'.peers[id].kind == s.peers[id].kind
                  && s'.peers[id].isPublic == s.peers[id].isPublic && s'.peers[id].allowed == s.peers[id].allowed)
  {
    hide Authenticate, Authorize;
    if ch in s.conns && Consumes(c, s, wall, ch, m) {
      RelayRuns.AuthenticSender(c, s.peers, wall, m);
      var s1 := Consume(s, m);
      if Authorize(s1.peers, now, m) == Accepted {
        RelayRuns.AuthorizedTarget(s1.peers, now, m);
      }
    }
  }

  lemma SendAgrees(c: Crypto, s: State, e: Event, client: PeerId, host: PeerId)
    requires Agreement(s) && e.act.Send? && e.act.ch in s.conns
    ensures Agrees(Step(c, s, e), client, host)
  {
    hide StepSend;
    SendKeepsPolicy(c, s, e.now, e.wall, e.act.ch, e.act.msg, client);
    SendKeepsPolicy(c, s, e.now, e.wall, e.act.ch, e.act.msg, host);
    SendTellsNothing(c, s, e);
    if client in s.peers {
      SilentChannel(RelayRuns.New(c, s, e), s.peers[client].chan, host);
      Undisturbed(s, Step(c, s, e), RelayRuns.New(c, s, e), client, host);
    }
  }

  lemma SendTellsNothing(c: Crypto, s: State, e: Event)
    requires e.act.Send?
    ensures Step(c, s, e).sent == s.sent + RelayRuns.New(c, s, e)
    ensures forall o, ch, h :: o in RelayRuns.New(c, s, e) ==> Tells(o, ch, h).None?
  {
    RelayRuns.StepSends(c, s, e);
  }

  lemma DisconnectAgrees(c: Crypto, s: State, ch: Chan, client: PeerId, host: PeerId)
    requires RelayRuns.Linked(s) && Agreement(s) && ch in s.conns
    ensures Agrees(StepDisconnect(s, ch), client, host)
  {
    var s' := StepDisconnect(s, ch);
    var id := s.conns[ch];
    if client in s'.peers && s'.peers[client].kind == Client {
      var none: seq<Output> := [];
      if id !in s.peers || s.peers[id].chan != ch {
        Undisturbed(s, s', none, client, host);
      } else if s.peers[id].kind == Host {
        assert s'.peers - {id} == s.peers - {id};
        var pushes := Pushes(s'.peers, SubscribersOf(s.subs, id), id);
        assert none + pushes == pushes;
        Pushed(s, s', none, id, client, host);
      } else {
        Undisturbed(s, s', none, client, host);
      }
    }
  }

  /**
   One step of a reachable state keeps every client in agreement, exactly unless it registers a live host's id
   as a client while some connected client was last told that host is online.
   */
  lemma StepAgreementExactly(c: Crypto, s: State, e: Event)
    requires RelayRuns.Linked(s) && RelayRuns.PeersOk(c, s) && Agreement(s) && FreshEvent(c, s, e)
    ensures Agreement(Step(c, s, e)) <==> !(Retypes(c, s, e) && ToldOnline(s, e.act.id))
  {
    hide StepRegister, StepSubscribe, StepCheck, StepUpdateAcl, StepSend, StepDisconnect, Agrees;
    if Retypes(c, s, e) {
      RetypeExactly(c, s, e);
    } else {
      forall client, host ensures Agrees(Step(c, s, e), client, host) {
        StepAgrees(c, s, e, client, host);
      }
    }
  }

  /** The event registers, as a client, an id now registered as a host. */
  predicate Retypes(c: Crypto, s: State, e: Event) {
    && e.act.Register? && e.act.kind == Client
    && e.act.ch !in s.conns && HandshakeOk(c, e.act)
    && e.act.id in s.peers && s.peers[e.act.id].kind == Host
  }

  lemma RetypeExactly(c: Crypto, s: State, e: Event)
    requires RelayRuns.Linked(s) && Agreement(s) && FreshEvent(c, s, e) && Retypes(c, s, e)
    ensures Agreement(StepRegister(c, s, e.act)) <==> !ToldOnline(s, e.act.id)
  {
    hide Agrees, HandshakeOk;
    var s', id := StepRegister(c, s, e.act), e.act.id;
    if ToldOnline(s, id) {
      var client :| client in s.peers && s.peers[client].kind == Client && client != id
                    && Heard(s.sent, s.peers[client].chan, id) == Some(true);
      ClientRegisterAgrees(c, s, e.act, client, id);
      assert !Agrees(s', client, id);
    } else {
      forall client, host ensures Agrees(s', client, host) {
        ClientRegisterAgrees(c, s, e.act, client, host);
        AbsentAgrees(s', client, host);
      }
    }
  }

  lemma AbsentAgrees(s: State, client: PeerId, host: PeerId)
    ensures client !in s.peers || s.peers[client].kind == Host ==> Agrees(s, client, host)
  {}

  lemma StepAgrees(c: Crypto, s: State, e: Event, client: PeerId, host: PeerId)
    requires RelayRuns.Linked(s) && RelayRuns.PeersOk(c, s) && Agreement(s) && FreshEvent(c, s, e)
    requires !Retypes(c, s, e)
    ensures Agrees(Step(c, s, e), client, host)
  {
    hide StepSend, StepSubscribe, StepCheck, StepUpdateAcl, Heard;
    match e.act
    case Register(ch, id, kind, _, _, _, _, _) =>
      if ch in s.conns {
        if client in s.peers { RefusedAgrees(s, ch, client, host); }
      } else if HandshakeOk(c, e.act) {
        if kind == Host { HostRegisterAgrees(c, s, e.act, client, host); }
        else { ClientRegisterAgrees(c, s, e.act, client, host); }
      }
    case Subscribe(ch, hosts) =>
      if ch in s.conns { SubscribeAgrees(s, ch, hosts, client, host); } else { Idle(c, s, e); }
    case CheckStatus(ch, hosts) => if ch in s.conns { CheckAgrees(s, ch, hosts, client, host); } else { Idle(c, s, e); }
    case UpdateAcl(ch, _, _, _) =>
      if ch in s.conns { UpdateAclAgrees(c, s, e.wall, e.act, client, host); } else { Idle(c, s, e); }
    case Send(ch, m) => if ch in s.conns { SendAgrees(c, s, e, client, host); } else { Idle(c, s, e); }
    case Disconnect(ch) => if ch in s.conns { DisconnectAgrees(c, s, ch, client, host); }
  }

  lemma RefusedAgrees(s: State, ch: Chan, client: PeerId, host: PeerId)
    requires Agreement(s) && client in s.peers
    ensures Agrees(Queue(s, [Refused(ch)]), client, host)
  {
    Undisturbed(s, Queue(s, [Refused(ch)]), [Refused(ch)], client, host);
  }

  /** Messages on a channel that has not registered change nothing. */
  lemma Idle(c: Crypto, s: State, e: Event)
    requires !e.act.Register? && e.act.ch !in s.conns
    ensures Step(c, s, e) == s
  {}

  // ----- Whole runs -----

  /** The event takes a live host's id for a client while a connected client was last told that host is online. */
  ghost predicate Misleads(c: Crypto, s: State, e: Event) { Retypes(c, s, e) && ToldOnline(s, e.act.id) }

  /**
   Presence agreement: in every run, whatever every connected client was last told about a host, by its
   subscription reply or a push, is at every moment the policy's verdict on the state of that moment, through
   registration, replacement, ACL change and disconnect, exactly when no event of the run misleads.
   */
  lemma {:induction false} PresenceAgreement(c: Crypto, es: seq<Event>)
    requires FreshRun(c, INITIAL, es)
    ensures (forall n :: 0 <= n <= |es| ==> Agreement(Run(c, INITIAL, es[..n])))
            <==> (forall n :: 0 <= n < |es| ==> !Misleads(c, Run(c, INITIAL, es[..n]), es[n]))
  {
    hide Step, Agreement, ToldOnline, FreshEvent, Retypes;
    if es == [] {
      NobodyTold();
      assert es[..0] == [];
    } else {
      var front, e := es[..|es| - 1], es[|es| - 1];
      PresenceAgreement(c, front);
      assert es[..|es|] == es && front[..|front|] == front;
      assert forall n :: 0 <= n <= |front| ==> front[..n] == es[..n];
      RelayRuns.PairingQueueBounded(c, front);
      if Agreement(Run(c, INITIAL, front)) {
        StepAgreementExactly(c, Run(c, INITIAL, front), e);
      }
    }
  }

  lemma NobodyTold()
    ensures Agreement(INITIAL)
  {}

  /**
   A run that misleads: a public host registers, a client subscribes to it, and the host's id is registered as a
   client.
   */
  lemma RetypedHostMisleads(c: Crypto, host: Action, client: Action, again: Action)
    requires host.Register? && host.ch == 1 && host.id == "h" && host.kind == Host && host.isPublic
    requires HandshakeOk(c, host)
    requires client.Register? && client.ch == 2 && client.id == "c" && client.kind == Client && HandshakeOk(c, client)
    requires again.Register? && again.ch == 3 && again.id == "h" && again.kind == Client && HandshakeOk(c, again)
    ensures var s1 := Step(c, INITIAL, Event(0, 0, host));
            var s2 := Step(c, s1, Event(1, 1, client));
            var s3 := Step(c, s2, Event(2, 2, Subscribe(2, ["h"])));
            var s4 := Step(c, s3, Event(3, 3, again));
            Misleads(c, s3, Event(3, 3, again)) && !Agrees(s4, "c", "h")
  {
    var s1 := Step(c, INITIAL, Event(0, 0, host));
    var s2 := Step(c, s1, Event(1, 1, client));
    var e3 := Event(2, 2, Subscribe(2, ["h"]));
    var s3 := Step(c, s2, e3);
    assert "h" != "c" by { assert "h"[0] != "c"[0]; }
    SubscriberHears(c, s2, e3, "c", "h");
    hide HandshakeOk, Heard;
    assert Presence(s2.peers, "h", "c");
    assert s3.peers["c"].chan == 2;
    var s4 := Step(c, s3, Event(3, 3, again));
    var more := [Replaced(1), Registered(3, "h", again.session)];
    assert s4.sent == s3.sent + more;
    SilentChannel(more, 2, "h");
    HeardAppend(s3.sent, more, 2, "h");
  }

  /** A subscription through the registered channel is answered for every host it names ... */
  lemma SubscriberHears(c: Crypto, s: State, e: Event, client: PeerId, host: PeerId)
    requires e.act.Subscribe? && e.act.ch in s.conns && s.conns[e.act.ch] == client && host in e.act.hosts
    ensures Heard(Step(c, s, e).sent, e.act.ch, host) == Some(Presence(s.peers, host, client))
  {
    var reply := StatusReply(e.act.ch, Statuses(s.peers, e.act.hosts, client), true);
    HeardAppend(s.sent, [reply], e.act.ch, host);
  }

  /** ... and a channel that has heard of a host has heard of it ever after, so agreement is never vacuous for it. */
  lemma HeardPersists(c: Crypto, s: State, e: Event, ch: Chan, host: PeerId)
    requires Heard(s.sent, ch, host).Some?
    ensures Heard(Step(c, s, e).sent, ch, host).Some?
  {
    RelayRuns.StepSends(c, s, e);
    HeardAppend(s.sent, RelayRuns.New(c, s, e), ch, host);
  }
}
