/** The signaling server as it runs: shared maps updated in place, loops over subscribers, and the envelope buffer. */
module RelayServer {
  import opened Wrappers
  import opened Bytes
  import opened Envelope
  import opened Relay

  /** The 160 bytes a signature is checked against, rebuilt from the message; nothing when a field does not decode. */
  method RebuildEnvelope(c: Crypto, m: Signal) returns (r: Result<Bytes, EnvelopeError>)
    requires forall b :: |c.sha(b)| == 32
    ensures r == match Signed(c, m) case Ok(f) => Ok(f.Encoded()) case Err(e) => Err(e)
  {
    var buf := new byte[ENVELOPE_SIZE](_ => 0);
    CopyFrom(buf, 0, DOMAIN);
    buf[14] := VERSION;
    buf[15] := m.kind.Code();
    assert buf[..16] == DOMAIN + [VERSION] + [m.kind.Code()];
    var session := c.decode(m.session);
    if session.None? || |session.value| != 32 { return Err(BadSession); }
    CopyFrom(buf, 16, session.value);
    CopyFrom(buf, 48, ToBE(m.sequence, 8));
    CopyFrom(buf, 56, ToBE(m.timestamp, 8));
    var from := c.decode(m.from);
    if from.None? || |from.value| != 32 { return Err(BadFrom); }
    CopyFrom(buf, 64, from.value);
    var to := c.decode(m.to);
    if to.None? || |to.value| != 32 { return Err(BadTo); }
    CopyFrom(buf, 96, to.value);
    CopyFrom(buf, 128, c.sha(m.payload));
    assert buf[..] == buf[..160];
    r := Ok(buf[..]);
  }

  /** The server rebuilds, byte for byte, what the sender's own buffer held when it signed. */
  method SignerAndServerAgree(c: Crypto, m: Signal)
    returns (signed: Result<Bytes, EnvelopeError>, rebuilt: Result<Bytes, EnvelopeError>)
    requires forall b :: |c.sha(b)| == 32
    ensures signed == rebuilt
    ensures signed.Ok? ==> |signed.value| == ENVELOPE_SIZE
  {
    signed := SignerBuffer(c.decode, c.sha, m.kind.Code(), m.session, m.from, m.to, m.payload, m.sequence, m.timestamp);
    rebuilt := RebuildEnvelope(c, m);
  }

  lemma TakeOneMore(hosts: seq<PeerId>, i: nat, was: map<PeerId, seq<PeerId>>,
                    peers: map<PeerId, Peer>, client: PeerId)
    requires i < |hosts|
    ensures SubscribeAll(was, hosts[..i + 1], client)
            == AddSubscriber(SubscribeAll(was, hosts[..i], client), hosts[i], client)
    ensures Statuses(peers, hosts[..i + 1], client)
            == Statuses(peers, hosts[..i], client)[hosts[i] := Presence(peers, hosts[i], client)]
  {
    assert hosts[..i + 1][..i] == hosts[..i];
  }

  lemma AddSubscriberIs(subs: map<PeerId, seq<PeerId>>, host: PeerId, client: PeerId)
    ensures AddSubscriber(subs, host, client)
            == subs[host := var l := if host in subs then subs[host] else []; if client in l then l else l + [client]]
  {}

  class Server {
    const crypto: Crypto
    var peers: map<PeerId, Peer>
    var subs: map<PeerId, seq<PeerId>>
    var conns: map<Chan, PeerId>
    var sent: seq<Output>
    ghost var accepted: seq<(SessionId, nat)>

    ghost function View(): State
      reads this
    {
      State(peers, subs, conns, sent, accepted)
    }

    constructor (c: Crypto)
      ensures crypto == c && View() == INITIAL
    {
      crypto, peers, subs, conns, sent, accepted := c, map[], map[], map[], [], [];
    }

    /** Sends each connected client among the subscribers its current presence of the host. */
    method PushStatus(clients: seq<PeerId>, host: PeerId)
      modifies this`sent
      ensures sent == old(sent) + Pushes(peers, clients, host)
    {
      var i := 0;
      while i < |clients|
        invariant i <= |clients|
        invariant sent == old(sent) + Pushes(peers, clients[..i], host)
      {
        var client := clients[i];
        assert clients[..i + 1][..i] == clients[..i];
        if client in peers && peers[client].kind == Client {
          sent := sent + [PeerStatus(peers[client].chan, host, Presence(peers, host, client))];
        }
        i := i + 1;
      }
      assert clients[..i] == clients;
    }

    method HandleRegister(a: Action)
      requires a.Register?
      modifies this
      ensures View() == StepRegister(crypto, old(View()), a)
    {
      if a.ch in conns {
        sent := sent + [Refused(a.ch)];
        return;
      }
      if !HandshakeOk(crypto, a) { return; }
      var subscribers := SubscribersOf(subs, a.id);
      var replaced: seq<Output> := [];
      if a.id in peers {
        replaced := [Replaced(peers[a.id].chan)];
      }
      peers := peers[a.id := Peer(a.ch, a.kind, a.isPublic, a.publicKey, a.session, [], map[], 0)];
      conns := conns[a.ch := a.id];
      ghost var before := sent;
      sent := sent + replaced + [Registered(a.ch, a.id, a.session)];
      if a.kind == Host {
        PushStatus(subscribers, a.id);
      }
      assert sent == before + (replaced + [Registered(a.ch, a.id, a.session)]
                               + if a.kind == Host then Pushes(peers, subscribers, a.id) else []);
    }

    method HandleSubscribe(ch: Chan, hosts: seq<PeerId>)
      modifies this
      ensures View() == StepSubscribe(old(View()), ch, hosts)
    {
      hide Presence;
      if ch !in conns { return; }
      var client := conns[ch];
      var statuses: map<PeerId, bool> := map[];
      var i := 0;
      while i < |hosts|
        invariant i <= |hosts|
        invariant subs == SubscribeAll(old(subs), hosts[..i], client)
        invariant statuses == Statuses(peers, hosts[..i], client)
        invariant View() == old(View()).(subs := subs)
      {
        TakeOneMore(hosts, i, old(subs), peers, client);
        hide SubscribeAll, Statuses, Presence, AddSubscriber;
        var list := if hosts[i] in subs then subs[hosts[i]] else [];
        if client !in list {
          list := list + [client];
        }
        AddSubscriberIs(subs, hosts[i], client);
        subs := subs[hosts[i] := list];
        statuses := statuses[hosts[i] := Presence(peers, hosts[i], client)];
        i := i + 1;
      }
      assert hosts[..i] == hosts;
      sent := sent + [StatusReply(ch, statuses, true)];
    }

    method HandleCheckStatus(ch: Chan, hosts: seq<PeerId>)
      modifies this
      ensures View() == StepCheck(old(View()), ch, hosts)
    {
      if ch !in conns { return; }
      var statuses: map<PeerId, bool> := map[];
      var i := 0;
      while i < |hosts|
        invariant i <= |hosts| && View() == old(View())
        invariant statuses == Statuses(peers, hosts[..i], conns[ch])
      {
        statuses := statuses[hosts[i] := Presence(peers, hosts[i], conns[ch])];
        i := i + 1;
      }
      assert hosts[..i] == hosts;
      sent := sent + [StatusReply(ch, statuses, false)];
    }

    method HandleUpdateAcl(wall: nat, a: Action)
      requires a.UpdateAcl?
      modifies this
      ensures View() == StepUpdateAcl(crypto, old(View()), wall, a)
    {
      if a.ch !in conns { return; }
      var id := conns[a.ch];
      if Skew(wall, a.timestamp) > SKEW_LIMIT_MS || id !in peers || peers[id].kind != Host
         || |peers[id].publicKey| != 32 || |a.signature| != 64
         || !crypto.verify(peers[id].publicKey, crypto.aclText(a.allowed, a.timestamp), a.signature)
      {
        sent := sent + [Refused(a.ch)];
        return;
      }
      var host := peers[id];
      var stillPending := map p | p in host.pending && p !in a.allowed :: host.pending[p];
      peers := peers[id := host.(pending := stillPending, allowed := a.allowed)];
      PushStatus(SubscribersOf(subs, id), id);
    }

    /** Checks a signal and takes its number; the number stays taken when the ACL then refuses it. */
    method VerifyDataPlaneMessage(now: nat, wall: nat, m: Signal) returns (verdict: Verdict)
      requires forall b :: |crypto.sha(b)| == 32
      modifies this`peers, this`accepted
      ensures var auth := Authenticate(crypto, old(peers), wall, m);
              if auth != Accepted then verdict == auth && View() == old(View())
              else m.from in old(peers) && View() == Consume(old(View()), m) && verdict == Authorize(peers, now, m)
    {
      if m.from !in peers { return SenderNotFound; }
      var sender := peers[m.from];
      if sender.session != m.session { return WrongSession; }
      var buf := RebuildEnvelope(crypto, m);
      if buf.Err? { return BadEnvelope(buf.error); }
      if |m.signature| != 64 || |sender.publicKey| != 32 { return BadSignature; }
      if !crypto.verify(sender.publicKey, buf.value, m.signature) { return BadSignature; }
      if Skew(wall, m.timestamp) > SKEW_LIMIT_MS { return Skewed; }
      if IsReplay(m.sequence, sender.lastSeq) { return Replay; }
      peers := peers[m.from := sender.(lastSeq := m.sequence)];
      accepted := accepted + [(m.session, m.sequence)];
      verdict := Authorize(peers, now, m);
    }

    method HandleSignal(now: nat, wall: nat, ch: Chan, m: Signal)
      requires forall b :: |crypto.sha(b)| == 32
      modifies this
      ensures View() == StepSend(crypto, old(View()), now, wall, ch, m)
    {
      if ch !in conns { return; }
      if conns[ch] != m.from {
        sent := sent + [Refused(ch)];
        return;
      }
      var verdict := VerifyDataPlaneMessage(now, wall, m);
      if verdict != Accepted {
        sent := sent + [Refused(ch)];
        return;
      }
      ghost var s1 := View();
      var sender, target := peers[m.from], peers[m.to];
      if m.kind == Offer && target.kind == Host && !target.isPublic && m.from !in target.allowed {
        var open := map p | p in target.pending && now < target.pending[p] + PAIRING_WINDOW_MS :: target.pending[p];
        assert open == map p | p in target.pending && WindowOpen(target.pending, p, now) :: target.pending[p];
        if m.from !in open {
          if |open| >= PAIRING_QUEUE {
            peers := peers[m.to := target.(pending := open)];
            sent := sent + [Refused(ch)];
            return;
          }
          open := open[m.from := now];
        }
        peers := peers[m.to := target.(pending := open)];
      }
      sent := sent + [Relayed(target.chan, now, m, sender, target)];
      assert peers == s1.peers[m.to := peers[m.to]];
      assert View() == Deliver(s1, now, ch, m);
    }

    method HandleDisconnect(ch: Chan)
      modifies this
      ensures View() == StepDisconnect(old(View()), ch)
    {
      if ch !in conns { return; }
      var id := conns[ch];
      conns := conns - {ch};
      if id !in peers || peers[id].chan != ch { return; }
      var wasHost := peers[id].kind == Host;
      peers := peers - {id};
      if wasHost {
        PushStatus(SubscribersOf(subs, id), id);
      } else {
        subs := map h | h in subs :: Without(subs[h], id);
      }
    }
  }
}
