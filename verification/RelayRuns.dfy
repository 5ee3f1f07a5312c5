/** What every run of the signaling server keeps: authentic relays, the pairing window and replay protection. */
module RelayRuns {
  import opened Wrappers
  import opened Bytes
  import opened Envelope
  import opened Relay

  // ----- Registrations -----

  /** Every registered peer's channel is an open connection of that peer. */
  ghost predicate Linked(s: State) {
    forall id :: id in s.peers ==> s.peers[id].chan in s.conns && s.conns[s.peers[id].chan] == id
  }

  /** The pairing queue holds at most 128 outsiders, and only a private host has one. */
  predicate PendingOk(p: Peer) {
    && (forall id :: id in p.pending ==> id !in p.allowed)
    && |p.pending| <= PAIRING_QUEUE
    && (p.pending != map[] ==> p.kind == Host && !p.isPublic)
  }

  ghost predicate PeersOk(c: Crypto, s: State) {
    forall id :: id in s.peers ==> PendingOk(s.peers[id]) && c.encode(c.sha(s.peers[id].publicKey)) == id
  }

  lemma FilteredSmaller(m: map<PeerId, nat>, n: map<PeerId, nat>)
    requires forall k :: k in n ==> k in m
    ensures |n| <= |m|
  {
    assert n.Keys <= m.Keys;
    SubsetSize(n.Keys, m.Keys);
    assert |n| == |n.Keys| && |m| == |m.Keys|;
  }

  lemma SubsetSize<T>(a: set<T>, b: set<T>)
    requires a <= b
    ensures |a| <= |b|
  {
    assert b == a + (b - a);
  }

  lemma OpenWindowOk(target: Peer, now: nat, from: PeerId)
    requires PendingOk(target)
    ensures PendingOk(OpenWindow(target, now, from).0)
  {
    var open := map p | p in target.pending && WindowOpen(target.pending, p, now) :: target.pending[p];
    FilteredSmaller(target.pending, open);
    assert open != map[] ==> target.pending != map[];
  }

  lemma WithAclOk(host: Peer, allowed: seq<PeerId>)
    requires PendingOk(host)
    ensures PendingOk(WithAcl(host, allowed))
  {
    FilteredSmaller(host.pending, WithAcl(host, allowed).pending);
    assert WithAcl(host, allowed).pending != map[] ==> host.pending != map[];
  }

  lemma ConsumeKeepsPeers(c: Crypto, s: State, m: Signal)
    requires Linked(s) && PeersOk(c, s) && m.from in s.peers
    ensures Linked(Consume(s, m)) && PeersOk(c, Consume(s, m))
  {}

  lemma DeliverKeepsPeers(c: Crypto, s: State, now: nat, ch: Chan, m: Signal)
    requires Linked(s) && PeersOk(c, s) && m.from in s.peers && m.to in s.peers
    ensures Linked(Deliver(s, now, ch, m)) && PeersOk(c, Deliver(s, now, ch, m))
  {
    OpenWindowOk(s.peers[m.to], now, m.from);
  }

  lemma SendKeepsPeers(c: Crypto, s: State, now: nat, wall: nat, ch: Chan, m: Signal)
    requires Linked(s) && PeersOk(c, s)
    ensures Linked(StepSend(c, s, now, wall, ch, m)) && PeersOk(c, StepSend(c, s, now, wall, ch, m))
  {
    hide Authenticate, Authorize, Deliver, Consume;
    if ch in s.conns && Consumes(c, s, wall, ch, m) {
      AuthenticSender(c, s.peers, wall, m);
      ConsumeKeepsPeers(c, s, m);
      SenderStays(s, m);
      var s1 := Consume(s, m);
      if Authorize(s1.peers, now, m) == Accepted {
        AuthorizedTarget(s1.peers, now, m);
        DeliverKeepsPeers(c, s1, now, ch, m);
      }
    }
  }

  lemma SenderStays(s: State, m: Signal)
    requires m.from in s.peers
    ensures m.from in Consume(s, m).peers
  {}

  lemma AuthenticSender(c: Crypto, peers: map<PeerId, Peer>, wall: nat, m: Signal)
    requires Authenticate(c, peers, wall, m) == Accepted
    ensures m.from in peers && peers[m.from].session == m.session && m.sequence > peers[m.from].lastSeq
    ensures Signed(c, m).Ok? && c.verify(peers[m.from].publicKey, Signed(c, m).value.Encoded(), m.signature)
  {}

  lemma AuthorizedTarget(peers: map<PeerId, Peer>, now: nat, m: Signal)
    requires m.from in peers && Authorize(peers, now, m) == Accepted
    ensures m.to in peers
  {}

  lemma RegisterKeepsPeers(c: Crypto, s: State, a: Action)
    requires Linked(s) && PeersOk(c, s) && a.Register?
    ensures Linked(StepRegister(c, s, a)) && PeersOk(c, StepRegister(c, s, a))
  {}

  lemma UpdateAclKeepsPeers(c: Crypto, s: State, wall: nat, a: Action)
    requires Linked(s) && PeersOk(c, s) && a.UpdateAcl?
    ensures Linked(StepUpdateAcl(c, s, wall, a)) && PeersOk(c, StepUpdateAcl(c, s, wall, a))
  {
    if a.ch in s.conns && AclUpdateOk(c, s, wall, a) {
      WithAclOk(s.peers[s.conns[a.ch]], a.allowed);
    }
  }

  lemma StepKeepsPeers(c: Crypto, s: State, e: Event)
    requires Linked(s) && PeersOk(c, s)
    ensures Linked(Step(c, s, e)) && PeersOk(c, Step(c, s, e))
  {
    match e.act
    case Register(_, _, _, _, _, _, _, _) => RegisterKeepsPeers(c, s, e.act);
    case Subscribe(_, _) =>
    case CheckStatus(_, _) =>
    case UpdateAcl(_, _, _, _) => UpdateAclKeepsPeers(c, s, e.wall, e.act);
    case Send(ch, m) => SendKeepsPeers(c, s, e.now, e.wall, ch, m);
    case Disconnect(_) =>
  }

  /**
   In every reachable state: pending peers are outsiders, at most 128, and only of private hosts; ids are key digests.
   */
  lemma {:induction false} PairingQueueBounded(c: Crypto, es: seq<Event>)
    ensures Linked(Run(c, INITIAL, es)) && PeersOk(c, Run(c, INITIAL, es))
  {
    if es != [] {
      PairingQueueBounded(c, es[..|es| - 1]);
      StepKeepsPeers(c, Run(c, INITIAL, es[..|es| - 1]), es[|es| - 1]);
    }
  }

  // ----- Relays -----

  /** An offer from p relayed at time t to host h while h was registered under this session. */
  predicate IsOffer(o: Output, p: PeerId, h: PeerId, session: SessionId, t: nat) {
    o.Relayed? && o.msg.kind == Offer && o.msg.from == p && o.msg.to == h && o.target.session == session && o.now == t
  }

  ghost predicate Offered(os: seq<Output>, p: PeerId, h: PeerId, session: SessionId, t: nat) {
    exists o :: o in os && IsOffer(o, p, h, session, t)
  }

  /** Every open or expired window still queued was opened by a relayed offer in the host's present registration. */
  ghost predicate WindowsOffered(s: State) {
    forall h, p :: h in s.peers && p in s.peers[h].pending ==>
      Offered(s.sent, p, h, s.peers[h].session, s.peers[h].pending[p])
  }

  /** The host whose policy governs a relay, and the peer at the other end. */
  function Guard(o: Output): (PeerId, Peer, PeerId)
    requires o.Relayed?
  {
    if o.target.kind == Host then (o.msg.to, o.target, o.msg.from) else (o.msg.from, o.sender, o.msg.to)
  }

  /** Why a relay was allowed, given everything relayed before it. */
  ghost predicate Justified(c: Crypto, before: seq<Output>, o: Output)
    requires o.Relayed?
  {
    var (h, host, p) := Guard(o);
    && host.kind == Host
    && (o.msg.kind != Offer && !host.isPublic && p !in host.allowed ==>
          exists t: nat :: Offered(before, p, h, host.session, t) && o.now < t + PAIRING_WINDOW_MS)
    && (o.msg.kind == Offer && !host.isPublic && p !in host.allowed ==> h == o.msg.to && o.sender.kind == Client)
    && c.encode(c.sha(o.sender.publicKey)) == o.msg.from
    && o.sender.session == o.msg.session
    && Signed(c, o.msg).Ok?
    && c.verify(o.sender.publicKey, Signed(c, o.msg).value.Encoded(), o.msg.signature)
  }

  ghost predicate AllJustified(c: Crypto, os: seq<Output>) {
    forall i :: 0 <= i < |os| && os[i].Relayed? ==> Justified(c, os[..i], os[i])
  }

  lemma OfferedGrows(a: seq<Output>, b: seq<Output>, p: PeerId, h: PeerId, session: SessionId, t: nat)
    requires Offered(a, p, h, session, t)
    ensures Offered(a + b, p, h, session, t)
  {
    var o :| o in a && IsOffer(o, p, h, session, t);
    assert o in a + b;
  }

  /** What a step queues, as a suffix. */
  function New(c: Crypto, s: State, e: Event): seq<Output> {
    var s' := Step(c, s, e);
    if |s.sent| <= |s'.sent| then s'.sent[|s.sent|..] else []
  }

  lemma {:induction false} PushesAreStatus(peers: map<PeerId, Peer>, clients: seq<PeerId>, host: PeerId)
    ensures forall o :: o in Pushes(peers, clients, host) ==> o.PeerStatus? && o.host == host
  {
    if clients != [] {
      PushesAreStatus(peers, clients[..|clients| - 1], host);
    }
  }

  /** A step only adds to what was sent, and what it relays is one signal that was consumed and authorized. */
  lemma StepSends(c: Crypto, s: State, e: Event)
    ensures Step(c, s, e).sent == s.sent + New(c, s, e)
    ensures forall o :: o in New(c, s, e) && o.Relayed? ==>
              && e.act.Send? && New(c, s, e) == [o] && o.msg == e.act.msg && o.now == e.now
              && Consumes(c, s, e.wall, e.act.ch, o.msg)
              && var s1 := Consume(s, o.msg);
                 && Authorize(s1.peers, e.now, o.msg) == Accepted
                 && o.sender == s1.peers[o.msg.from] && o.target == s1.peers[o.msg.to]
  {
    match e.act
    case Register(_, id, kind, isPublic, publicKey, _, _, session) =>
      var peers := s.peers[id := Peer(e.act.ch, kind, isPublic, publicKey, session, [], map[], 0)];
      PushesAreStatus(peers, SubscribersOf(s.subs, id), id);
    case Subscribe(_, _) =>
    case CheckStatus(_, _) =>
    case UpdateAcl(ch, allowed, _, _) =>
      if AclUpdateOk(c, s, e.wall, e.act) {
        var id := s.conns[ch];
        PushesAreStatus(s.peers[id := WithAcl(s.peers[id], allowed)], SubscribersOf(s.subs, id), id);
      }
    case Send(ch, m) =>
    case Disconnect(ch) =>
      if ch in s.conns {
        PushesAreStatus(s.peers - {s.conns[ch]}, SubscribersOf(s.subs, s.conns[ch]), s.conns[ch]);
      }
  }

  // ----- The pairing window -----

  /** Windows of s' are windows of s or were opened by an offer among `more`. */
  ghost predicate WindowsFrom(s: State, s': State, more: seq<Output>) {
    forall h, p :: h in s'.peers && p in s'.peers[h].pending ==>
      || (&& h in s.peers && s.peers[h].session == s'.peers[h].session
          && p in s.peers[h].pending && s.peers[h].pending[p] == s'.peers[h].pending[p])
      || Offered(more, p, h, s'.peers[h].session, s'.peers[h].pending[p])
  }

  lemma WindowsGrow(s: State, s': State, more: seq<Output>)
    requires WindowsOffered(s) && s'.sent == s.sent + more && WindowsFrom(s, s', more)
    ensures WindowsOffered(s')
  {
    forall h, p | h in s'.peers && p in s'.peers[h].pending
      ensures Offered(s'.sent, p, h, s'.peers[h].session, s'.peers[h].pending[p])
    {
      var session, t := s'.peers[h].session, s'.peers[h].pending[p];
      if Offered(more, p, h, session, t) {
        var o :| o in more && IsOffer(o, p, h, session, t);
        assert o in s'.sent;
      } else {
        OfferedGrows(s.sent, more, p, h, session, t);
      }
    }
  }

  /** An offer leaves the windows that are open alone, and opens at most its sender's, now. */
  lemma OpenWindowAdds(target: Peer, now: nat, from: PeerId)
    ensures var (target', ok) := OpenWindow(target, now, from);
            && target'.session == target.session
            && forall p :: p in target'.pending ==>
                 || (p in target.pending && target'.pending[p] == target.pending[p])
                 || (ok && p == from && target'.pending[p] == now && target.kind == Host)
  {}

  lemma DeliverWindows(s: State, now: nat, ch: Chan, m: Signal, more: seq<Output>)
    requires m.from in s.peers && m.to in s.peers
    requires Deliver(s, now, ch, m).sent == s.sent + more
    ensures WindowsFrom(s, Deliver(s, now, ch, m), more)
  {
    var s' := Deliver(s, now, ch, m);
    hide OpenWindow;
    OpenWindowAdds(s.peers[m.to], now, m.from);
    forall h, p | h in s'.peers && p in s'.peers[h].pending
      && !(h in s.peers && p in s.peers[h].pending && s.peers[h].pending[p] == s'.peers[h].pending[p])
      ensures Offered(more, p, h, s'.peers[h].session, s'.peers[h].pending[p])
    {
      var o := s'.sent[|s.sent|];
      assert IsOffer(o, p, h, s'.peers[h].session, s'.peers[h].pending[p]);
      assert o == more[0];
    }
  }

  lemma SendWindows(c: Crypto, s: State, e: Event)
    requires e.act.Send?
    ensures WindowsFrom(s, Step(c, s, e), New(c, s, e))
  {
    hide Authenticate, Authorize, Deliver;
    var m := e.act.msg;
    StepSends(c, s, e);
    if Consumes(c, s, e.wall, e.act.ch, m) {
      AuthenticSender(c, s.peers, e.wall, m);
      var s1 := Consume(s, m);
      if Authorize(s1.peers, e.now, m) == Accepted {
        AuthorizedTarget(s1.peers, e.now, m);
        DeliverWindows(s1, e.now, e.act.ch, m, New(c, s, e));
      }
    }
  }

  lemma AclWindows(c: Crypto, s: State, e: Event)
    requires e.act.UpdateAcl?
    ensures WindowsFrom(s, StepUpdateAcl(c, s, e.wall, e.act), [])
  {}

  lemma RegisterWindows(c: Crypto, s: State, a: Action)
    requires a.Register?
    ensures WindowsFrom(s, StepRegister(c, s, a), [])
  {}

  lemma DisconnectWindows(s: State, ch: Chan)
    ensures WindowsFrom(s, StepDisconnect(s, ch), [])
  {}

  lemma MoreWindows(s: State, s': State, more: seq<Output>)
    requires WindowsFrom(s, s', [])
    ensures WindowsFrom(s, s', more)
  {}

  lemma StepKeepsWindows(c: Crypto, s: State, e: Event)
    requires WindowsOffered(s)
    ensures WindowsOffered(Step(c, s, e))
  {
    hide StepRegister, StepUpdateAcl, StepSend, StepDisconnect, WindowsOffered, WindowsFrom, New;
    StepSends(c, s, e);
    match e.act {
      case Register(_, _, _, _, _, _, _, _) => RegisterWindows(c, s, e.act);
      case UpdateAcl(_, _, _, _) => AclWindows(c, s, e);
      case Disconnect(ch) => DisconnectWindows(s, ch);
      case Send(_, _) => SendWindows(c, s, e);
      case _ => SameWindows(c, s, e);
    }
    if !e.act.Send? { MoreWindows(s, Step(c, s, e), New(c, s, e)); }
    WindowsGrow(s, Step(c, s, e), New(c, s, e));
  }

  lemma SameWindows(c: Crypto, s: State, e: Event)
    requires e.act.Subscribe? || e.act.CheckStatus?
    ensures WindowsFrom(s, Step(c, s, e), [])
  {}

  /** A signal that passes verification is justified by what was relayed before. */
  lemma RelayJustified(c: Crypto, s: State, e: Event, o: Output)
    requires WindowsOffered(s) && PeersOk(c, s)
    requires o in New(c, s, e) && o.Relayed?
    ensures Justified(c, s.sent, o)
  {
    hide Step;
    StepSends(c, s, e);
    var m := o.msg;
    AuthenticSender(c, s.peers, e.wall, m);
    AuthorizedTarget(Consume(s, m).peers, e.now, m);
    var (h, host, p) := Guard(o);
    AuthorizeMeaning(Consume(s, m).peers, e.now, m);
    if m.kind != Offer && !host.isPublic && p !in host.allowed {
      assert Offered(s.sent, p, h, host.session, host.pending[p]);
    }
  }

  /** Authorization read as a policy of one host: the target if it is a host, else the sender. */
  lemma AuthorizeMeaning(peers: map<PeerId, Peer>, now: nat, m: Signal)
    requires m.from in peers && m.to in peers
    ensures var (host, p) := if peers[m.to].kind == Host then (peers[m.to], m.from) else (peers[m.from], m.to);
            Authorize(peers, now, m) == Accepted <==>
              && host.kind == Host
              && (|| host.isPublic || p in host.allowed
                  || (m.kind == Offer && host == peers[m.to] && peers[m.from].kind == Client)
                  || (m.kind == Ice && WindowOpen(host.pending, p, now))
                  || (m.kind == Answer && peers[m.to].kind == Client && WindowOpen(host.pending, p, now)))
  {}

  lemma JustifiedAppend(c: Crypto, os: seq<Output>, more: seq<Output>)
    requires AllJustified(c, os)
    requires forall o :: o in more && o.Relayed? ==> more == [o] && Justified(c, os, o)
    ensures AllJustified(c, os + more)
  {
    forall i | 0 <= i < |os + more| && (os + more)[i].Relayed?
      ensures Justified(c, (os + more)[..i], (os + more)[i])
    {
      if i < |os| {
        assert (os + more)[..i] == os[..i];
      } else {
        var o := (os + more)[i];
        assert o in more;
        assert i == |os| && (os + more)[..i] == os;
      }
    }
  }

  /**
   In every run, each relayed signal was signed by the key its sender id is the digest of, under the session
   registered for it, and has a host at one end. If that host is private and the other end is outside its ACL,
   an offer comes from a client, and an answer or ICE candidate comes less than 120 s after a relayed offer from that
   peer to the host's present registration. The host whose policy counts is the target when both ends are hosts.
   */
  lemma {:induction false} RelaysJustified(c: Crypto, es: seq<Event>)
    ensures var s := Run(c, INITIAL, es); AllJustified(c, s.sent) && WindowsOffered(s)
  {
    if es != [] {
      var s, e := Run(c, INITIAL, es[..|es| - 1]), es[|es| - 1];
      RelaysJustified(c, es[..|es| - 1]);
      PairingQueueBounded(c, es[..|es| - 1]);
      StepSends(c, s, e);
      StepKeepsWindows(c, s, e);
      forall o | o in New(c, s, e) && o.Relayed?
        ensures Justified(c, s.sent, o)
      {
        RelayJustified(c, s, e, o);
      }
      JustifiedAppend(c, s.sent, New(c, s, e));
    }
  }

  /** The host would let this peer be signaled: it is public, lists the peer, or has a window open for it. */
  predicate LetsIn(host: Peer, p: PeerId, now: nat) {
    host.isPublic || p in host.allowed || WindowOpen(host.pending, p, now)
  }

  /** Whichever host stands in the sender's place, the signal passes only if that host lets the target in. */
  ghost predicate SendersPolicyBinds(peers: map<PeerId, Peer>, now: nat, m: Signal) {
    forall sender: Peer ::
      sender.kind == Host && Authorize(peers[m.from := sender], now, m) == Accepted ==> LetsIn(sender, m.to, now)
  }

  /**
   When the policy and the pairing window of a sending host are enforced: exactly when the target is a client, or is
   a host that itself refuses the signal. A host that admits the sender is reached past the sender's own policy.
   */
  lemma SendersPolicyBindsExactly(peers: map<PeerId, Peer>, now: nat, m: Signal)
    requires m.to in peers && m.from != m.to
    ensures SendersPolicyBinds(peers, now, m)
            <==> var target := peers[m.to];
                 || target.kind == Client
                 || (&& !target.isPublic && m.from !in target.allowed
                     && !(m.kind == Ice && WindowOpen(target.pending, m.from, now)))
  {
    var target := peers[m.to];
    var closed := target.(kind := Host, isPublic := false, allowed := [], pending := map[]);
    assert !LetsIn(closed, m.to, now);
    assert Authorize(peers[m.from := closed], now, m) == Accepted
           <==> target.kind == Host && (target.isPublic || m.from in target.allowed
                                        || (m.kind == Ice && WindowOpen(target.pending, m.from, now)));
  }

  /**
   A run in which it is not: a private host registers, a public one registers, and the first sends the second an ICE
   candidate. It is relayed, though the target is outside the sender's ACL and nothing has ever been offered.
   */
  lemma PrivateHostReachesOutsider(c: Crypto, private: Action, public: Action, m: Signal)
    requires private.Register? && private.ch == 1 && private.id == "p" && private.kind == Host && !private.isPublic
    requires public.Register? && public.ch == 2 && public.id == "q" && public.kind == Host && public.isPublic
    requires HandshakeOk(c, private) && HandshakeOk(c, public)
    requires m.kind == Ice && m.from == "p" && m.to == "q" && m.session == private.session
    requires m.sequence >= 1 && m.timestamp == 0 && |m.signature| == 64
    requires Signed(c, m).Ok? && c.verify(private.publicKey, Signed(c, m).value.Encoded(), m.signature)
    ensures var s1 := Step(c, INITIAL, Event(0, 0, private));
            var s2 := Step(c, s1, Event(1, 0, public));
            var s3 := Step(c, s2, Event(2, 0, Send(1, m)));
            && "p" in s2.peers && "q" in s2.peers && !LetsIn(s2.peers["p"], "q", 2)
            && (exists o :: o in s3.sent && o.Relayed? && o.msg == m && o.ch == 2)
            && (forall o :: o in s3.sent && o.Relayed? ==> o.msg.kind != Offer)
  {
    assert |private.publicKey| == 32;
    hide Signed, HandshakeOk;
    assert "p" != "q" by { assert "p"[0] != "q"[0]; }
    var s1 := Step(c, INITIAL, Event(0, 0, private));
    var s2 := Step(c, s1, Event(1, 0, public));
    assert s2.conns[1] == "p" && s2.peers["p"].session == m.session && s2.peers["p"].lastSeq == 0;
    assert Authenticate(c, s2.peers, 0, m) == Accepted;
    var relayed := Relayed(2, 2, m, Consume(s2, m).peers["p"], s2.peers["q"]);
    var s3 := Step(c, s2, Event(2, 0, Send(1, m)));
    assert s3.sent == s2.sent + [relayed];
    assert relayed in s3.sent;
  }

  // ----- Replay -----

  /** Accepted numbers grow along each session. */
  predicate AcceptedGrow(accepted: seq<(SessionId, nat)>) {
    forall i, j :: 0 <= i < j < |accepted| && accepted[i].0 == accepted[j].0 ==> accepted[i].1 < accepted[j].1
  }

  /** Every registered peer remembers at least the last number accepted under its session, and sessions differ. */
  ghost predicate HighWater(s: State) {
    && (forall id, a :: id in s.peers && a in s.accepted && s.peers[id].session == a.0 ==> a.1 <= s.peers[id].lastSeq)
    && (forall i, j :: i in s.peers && j in s.peers && s.peers[i].session == s.peers[j].session ==> i == j)
  }

  /** Relays carry accepted numbers, in the order of their acceptance. */
  ghost predicate RelaysGrow(s: State) {
    && (forall i :: 0 <= i < |s.sent| && s.sent[i].Relayed? ==>
          (s.sent[i].msg.session, s.sent[i].msg.sequence) in s.accepted)
    && (forall i, j :: 0 <= i < j < |s.sent| && s.sent[i].Relayed? && s.sent[j].Relayed?
                       && s.sent[i].msg.session == s.sent[j].msg.session ==>
          s.sent[i].msg.sequence < s.sent[j].msg.sequence)
  }

  /** A signal's number is consumed exactly when it is authentic, whatever authorization then says. */
  lemma StepAccepts(c: Crypto, s: State, e: Event)
    ensures Step(c, s, e).accepted == s.accepted +
              if e.act.Send? && Consumes(c, s, e.wall, e.act.ch, e.act.msg)
              then [(e.act.msg.session, e.act.msg.sequence)] else []
  {
    if e.act.Send? && Consumes(c, s, e.wall, e.act.ch, e.act.msg) {
      AuthenticSender(c, s.peers, e.wall, e.act.msg);
    }
  }

  lemma FewerKeepHighWater(s: State, s': State)
    requires HighWater(s) && s'.accepted == s.accepted
    requires forall id :: id in s'.peers ==>
               && id in s.peers && s'.peers[id].session == s.peers[id].session
               && s'.peers[id].lastSeq == s.peers[id].lastSeq
    ensures HighWater(s')
  {}

  lemma StepKeepsHighWater(c: Crypto, s: State, e: Event)
    requires HighWater(s) && FreshEvent(c, s, e)
    ensures HighWater(Step(c, s, e))
  {
    hide AclUpdateOk;
    match e.act
    case Register(_, _, _, _, _, _, _, _) => RegisterKeepsHighWater(c, s, e);
    case Send(ch, m) => SendKeepsHighWater(c, s, e.now, e.wall, ch, m);
    case Subscribe(_, _) => FewerKeepHighWater(s, Step(c, s, e));
    case CheckStatus(_, _) => FewerKeepHighWater(s, Step(c, s, e));
    case UpdateAcl(_, _, _, _) => UpdateAclKeepsHighWater(c, s, e);
    case Disconnect(_) => FewerKeepHighWater(s, Step(c, s, e));
  }

  lemma UpdateAclKeepsHighWater(c: Crypto, s: State, e: Event)
    requires HighWater(s) && e.act.UpdateAcl?
    ensures HighWater(StepUpdateAcl(c, s, e.wall, e.act))
  {
    FewerKeepHighWater(s, StepUpdateAcl(c, s, e.wall, e.act));
  }

  lemma RegisterKeepsHighWater(c: Crypto, s: State, e: Event)
    requires HighWater(s) && FreshEvent(c, s, e) && e.act.Register?
    ensures HighWater(StepRegister(c, s, e.act))
  {
    hide HandshakeOk;
  }

  lemma ConsumeKeepsHighWater(c: Crypto, s: State, wall: nat, ch: Chan, m: Signal)
    requires HighWater(s) && Consumes(c, s, wall, ch, m)
    ensures m.from in s.peers && HighWater(Consume(s, m))
  {
    hide Authenticate;
    AuthenticSender(c, s.peers, wall, m);
  }

  lemma DeliverKeepsHighWater(s: State, now: nat, ch: Chan, m: Signal)
    requires HighWater(s) && m.from in s.peers && m.to in s.peers
    ensures HighWater(Deliver(s, now, ch, m))
  {
    FewerKeepHighWater(s, Deliver(s, now, ch, m));
  }

  lemma SendKeepsHighWater(c: Crypto, s: State, now: nat, wall: nat, ch: Chan, m: Signal)
    requires HighWater(s)
    ensures HighWater(StepSend(c, s, now, wall, ch, m))
  {
    hide Authenticate, Authorize, HighWater, Deliver;
    if Consumes(c, s, wall, ch, m) {
      ConsumeKeepsHighWater(c, s, wall, ch, m);
      var s1 := Consume(s, m);
      if Authorize(s1.peers, now, m) == Accepted {
        AuthorizedTarget(s1.peers, now, m);
        DeliverKeepsHighWater(s1, now, ch, m);
      } else {
        FewerKeepHighWater(s1, StepSend(c, s, now, wall, ch, m));
      }
    } else {
      FewerKeepHighWater(s, StepSend(c, s, now, wall, ch, m));
    }
  }

  lemma StepKeepsReplay(c: Crypto, s: State, e: Event)
    requires HighWater(s) && AcceptedGrow(s.accepted) && RelaysGrow(s)
    ensures AcceptedGrow(Step(c, s, e).accepted) && RelaysGrow(Step(c, s, e))
  {
    hide Step;
    StepAccepts(c, s, e);
    StepSends(c, s, e);
    if e.act.Send? && Consumes(c, s, e.wall, e.act.ch, e.act.msg) {
      AuthenticSender(c, s.peers, e.wall, e.act.msg);
      var a := (e.act.msg.session, e.act.msg.sequence);
      assert forall b :: b in s.accepted && b.0 == a.0 ==> b.1 < a.1;
      assert Step(c, s, e).accepted[|s.accepted|] == a;
    }
  }

  /**
   No double relay: over every run with fresh session ids, through replacements and reconnects, the numbers
   accepted under a session grow strictly, every relay carries an accepted number, and relays under a session
   grow strictly too, so no (session, number) pair is relayed twice.
   */
  lemma {:induction false} NoDoubleRelay(c: Crypto, es: seq<Event>)
    requires FreshRun(c, INITIAL, es)
    ensures var s := Run(c, INITIAL, es);
            HighWater(s) && AcceptedGrow(s.accepted) && RelaysGrow(s)
  {
    if es != [] {
      NoDoubleRelay(c, es[..|es| - 1]);
      StepKeepsHighWater(c, Run(c, INITIAL, es[..|es| - 1]), es[|es| - 1]);
      StepKeepsReplay(c, Run(c, INITIAL, es[..|es| - 1]), es[|es| - 1]);
    }
  }

  /** Even a refused signal used up its number: sent again at any later moment, it is not accepted. */
  lemma RefusedSignalConsumesNumber(c: Crypto, s: State, e: Event, wall: nat)
    requires e.act.Send? && Consumes(c, s, e.wall, e.act.ch, e.act.msg)
    ensures var s' := Step(c, s, e);
            && e.act.msg.from in s'.peers
            && s'.peers[e.act.msg.from].lastSeq == e.act.msg.sequence
            && Authenticate(c, s'.peers, wall, e.act.msg) != Accepted
  {
    AuthenticSender(c, s.peers, e.wall, e.act.msg);
  }
}
