/** Who is registered and with which ACL after any run, and what each message to the signaling server does. */
module RelayEffects {
  import opened Wrappers
  import opened Bytes
  import opened Envelope
  import opened Relay
  import RelayRuns

  // ----- Registrations -----

  /** The event registers the id on a channel not yet registered, with a key it is the digest of and has signed with. */
  predicate Registers(c: Crypto, s: State, e: Event, id: PeerId) {
    && e.act.Register? && e.act.id == id && e.act.ch !in s.conns
    && |e.act.publicKey| == 32 && |e.act.signature| == 64
    && c.encode(c.sha(e.act.publicKey)) == id
    && c.verify(e.act.publicKey, e.act.challenge, e.act.signature)
  }

  /** The event replaces the ACL of the id: signed by the key it is registered with, less than a minute off. */
  predicate UpdatesAcl(c: Crypto, s: State, e: Event, id: PeerId) {
    && e.act.UpdateAcl? && e.act.ch in s.conns && s.conns[e.act.ch] == id
    && id in s.peers && s.peers[id].kind == Host
    && -60_000 <= e.wall - e.act.timestamp <= 60_000
    && |s.peers[id].publicKey| == 32 && |e.act.signature| == 64
    && c.verify(s.peers[id].publicKey, c.aclText(e.act.allowed, e.act.timestamp), e.act.signature)
  }

  /** The registration is the event's, and nothing of it but the ACL has changed since. */
  predicate IsFrom(p: Peer, e: Event)
    requires e.act.Register?
  {
    && p.chan == e.act.ch && p.kind == e.act.kind && p.isPublic == e.act.isPublic
    && p.publicKey == e.act.publicKey && p.session == e.act.session
  }

  predicate SameRegistration(p: Peer, q: Peer) {
    p.chan == q.chan && p.kind == q.kind && p.isPublic == q.isPublic && p.publicKey == q.publicKey
    && p.session == q.session
  }

  /**
   Exactly which registrations an event makes, replaces or ends, and that only an accepted update changes an ACL, which
   then is the list it carries.
   */
  lemma PeersExactly(c: Crypto, s: State, e: Event, id: PeerId)
    requires RelayRuns.Linked(s)
    ensures var s' := Step(c, s, e);
            if Registers(c, s, e, id) then
              && id in s'.peers && IsFrom(s'.peers[id], e)
              && s'.peers[id].allowed == [] && s'.peers[id].pending == map[] && s'.peers[id].lastSeq == 0
            else if id in s.peers && e.act == Disconnect(s.peers[id].chan) then id !in s'.peers
            else
              && (id in s'.peers <==> id in s.peers)
              && (id in s.peers ==>
                    && SameRegistration(s'.peers[id], s.peers[id])
                    && s'.peers[id].allowed == if UpdatesAcl(c, s, e, id) then e.act.allowed else s.peers[id].allowed)
  {
    hide StepSend;
    if e.act.Send? { SendKeepsRegistrations(c, s, e, id); }
  }

  /** A channel stands for the id it registered, from then until it disconnects. */
  lemma ChannelsExactly(c: Crypto, s: State, e: Event, ch: Chan)
    ensures var s' := Step(c, s, e);
            if e.act == Disconnect(ch) then ch !in s'.conns
            else if e.act.Register? && e.act.ch == ch && Registers(c, s, e, e.act.id)
            then ch in s'.conns && s'.conns[ch] == e.act.id
            else (ch in s'.conns <==> ch in s.conns) && (ch in s.conns ==> s'.conns[ch] == s.conns[ch])
  {
    hide Authenticate, Authorize, OpenWindow;
  }

  lemma SendKeepsRegistrations(c: Crypto, s: State, e: Event, id: PeerId)
    requires e.act.Send?
    ensures var s' := Step(c, s, e);
            && (id in s'.peers <==> id in s.peers)
            && (id in s.peers ==>
                  SameRegistration(s'.peers[id], s.peers[id]) && s'.peers[id].allowed == s.peers[id].allowed)
  {
    hide Authenticate, Authorize, Deliver;
    var m := e.act.msg;
    if e.act.ch in s.conns && Consumes(c, s, e.wall, e.act.ch, m) {
      RelayRuns.AuthenticSender(c, s.peers, e.wall, m);
      var s1 := Consume(s, m);
      if Authorize(s1.peers, e.now, m) == Accepted {
        RelayRuns.AuthorizedTarget(s1.peers, e.now, m);
        DeliverKeepsRegistrations(s1, e.now, e.act.ch, m, id);
      }
    }
  }

  lemma DeliverKeepsRegistrations(s: State, now: nat, ch: Chan, m: Signal, id: PeerId)
    requires m.from in s.peers && m.to in s.peers
    ensures var s' := Deliver(s, now, ch, m);
            && (id in s'.peers <==> id in s.peers)
            && (id in s.peers ==> s'.peers[id].(pending := s.peers[id].pending) == s.peers[id])
  {
    WindowsCounted(s.peers[m.to], now, m.from);
    hide OpenWindow;
  }

  /** Event k registered the id, no later event has done so again, and its connection has not ended. */
  predicate Standing(c: Crypto, es: seq<Event>, k: nat, id: PeerId) {
    && k < |es| && Registers(c, Run(c, INITIAL, es[..k]), es[k], id)
    && forall m :: k < m < |es| ==>
         !Registers(c, Run(c, INITIAL, es[..m]), es[m], id) && es[m].act != Disconnect(es[k].act.ch)
  }

  /** The list of the last update of the id's ACL accepted after event k, or none. */
  function AclSince(c: Crypto, es: seq<Event>, k: nat, id: PeerId): seq<PeerId> {
    if |es| <= k + 1 then []
    else
      var front, e := es[..|es| - 1], es[|es| - 1];
      if UpdatesAcl(c, Run(c, INITIAL, front), e, id) then e.act.allowed else AclSince(c, front, k, id)
  }

  lemma StandingOn(c: Crypto, es: seq<Event>, e: Event, k: nat, id: PeerId)
    requires k < |es|
    ensures Standing(c, es + [e], k, id)
            <==> Standing(c, es, k, id) && !Registers(c, Run(c, INITIAL, es), e, id)
                 && e.act != Disconnect(if es[k].act.Register? then es[k].act.ch else 0)
  {
    hide Step, Run, Registers;
    var all := es + [e];
    assert all[k] == es[k] && all[..k] == es[..k] && all[|es|] == e && all[..|es|] == es;
    assert forall m :: k < m < |es| ==> all[m] == es[m] && all[..m] == es[..m];
    RegistersIsRegister(c, Run(c, INITIAL, es[..k]), es[k], id);
  }

  lemma RegistersIsRegister(c: Crypto, s: State, e: Event, id: PeerId)
    ensures Registers(c, s, e, id) ==> e.act.Register?
  {}

  /** The peer map says of an id what the run says. */
  ghost predicate RecordOk(c: Crypto, es: seq<Event>, s: State, id: PeerId) {
    && (id in s.peers ==> exists k: nat :: Standing(c, es, k, id))
    && (forall k: nat :: Standing(c, es, k, id) ==>
          id in s.peers && IsFrom(s.peers[id], es[k]) && s.peers[id].allowed == AclSince(c, es, k, id))
  }

  lemma StepKeepsRecord(c: Crypto, es: seq<Event>, e: Event, id: PeerId)
    requires RelayRuns.Linked(Run(c, INITIAL, es)) && RecordOk(c, es, Run(c, INITIAL, es), id)
    ensures RecordOk(c, es + [e], Step(c, Run(c, INITIAL, es), e), id)
  {
    var s := Run(c, INITIAL, es);
    var s' := Step(c, s, e);
    var all := es + [e];
    assert all[|es|] == e && all[..|es|] == es;
    PeersExactly(c, s, e, id);
    hide Step, Run, UpdatesAcl, Registers;
    RegistersIsRegister(c, s, e, id);
    if id in s'.peers {
      if Registers(c, s, e, id) {
        assert Standing(c, all, |es|, id);
      } else {
        var k: nat :| Standing(c, es, k, id);
        StandingOn(c, es, e, k, id);
      }
    }
    forall k: nat | Standing(c, all, k, id)
      ensures id in s'.peers && IsFrom(s'.peers[id], all[k]) && s'.peers[id].allowed == AclSince(c, all, k, id)
    {
      if k < |es| {
        StandingOn(c, es, e, k, id);
        assert all[k] == es[k];
      }
    }
  }

  lemma {:induction false} RunKeepsRecord(c: Crypto, es: seq<Event>, id: PeerId)
    ensures RecordOk(c, es, Run(c, INITIAL, es), id)
  {
    hide Step, Registers;
    if es != [] {
      var front, e := es[..|es| - 1], es[|es| - 1];
      RunKeepsRecord(c, front, id);
      RelayRuns.PairingQueueBounded(c, front);
      StepKeepsRecord(c, front, e, id);
      assert es == front + [e];
    }
  }

  /**
   In every run an id is registered exactly when an event registered it with its own signed key, and since then none
   has registered it again nor ended that connection. What is on record is what that event said, and the ACL is the
   list of the last update accepted since, or empty before the first.
   */
  lemma RecordsAreCurrent(c: Crypto, es: seq<Event>, id: PeerId)
    ensures var s := Run(c, INITIAL, es);
            && (id in s.peers <==> exists k: nat :: Standing(c, es, k, id))
            && (forall k: nat :: Standing(c, es, k, id) ==>
                  IsFrom(s.peers[id], es[k]) && s.peers[id].allowed == AclSince(c, es, k, id))
  {
    RunKeepsRecord(c, es, id);
  }

  /** After an accepted update, the list it carries decides alone who sees a host that is not public. */
  lemma UpdateDecidesPresence(c: Crypto, s: State, e: Event, id: PeerId, p: PeerId)
    requires UpdatesAcl(c, s, e, id)
    ensures var s' := Step(c, s, e);
            id in s'.peers && (Presence(s'.peers, id, p) <==> s'.peers[id].isPublic || p in e.act.allowed)
  {}

  /** An update that is not accepted is refused on its channel, if that has registered, and changes nothing. */
  lemma RefusedUpdates(c: Crypto, s: State, e: Event)
    requires e.act.UpdateAcl? && !(e.act.ch in s.conns && UpdatesAcl(c, s, e, s.conns[e.act.ch]))
    ensures Step(c, s, e) == s.(sent := s.sent + if e.act.ch in s.conns then [Refused(e.act.ch)] else [])
  {
    assert s.sent + [] == s.sent;
  }

  /** In every run a client is shown a host exactly when the host's standing registration is public or lists it. */
  lemma PresenceOverRuns(c: Crypto, es: seq<Event>, host: PeerId, client: PeerId)
    ensures Presence(Run(c, INITIAL, es).peers, host, client)
            <==> exists k: nat ::
                   && Standing(c, es, k, host) && es[k].act.kind == Host
                   && (es[k].act.isPublic || client in AclSince(c, es, k, host))
  {
    RecordsAreCurrent(c, es, host);
    hide Run, Registers, AclSince;
  }

  // ----- Signals -----

  /** The signal is from the peer registered under its session, signed, fresh, and newer than the last. */
  predicate Genuine(c: Crypto, s: State, wall: nat, m: Signal) {
    && m.from in s.peers && s.peers[m.from].session == m.session
    && Signed(c, m).Ok?
    && |m.signature| == 64 && |s.peers[m.from].publicKey| == 32
    && c.verify(s.peers[m.from].publicKey, Signed(c, m).value.Encoded(), m.signature)
    && -60_000 <= wall - m.timestamp <= 60_000
    && m.sequence > s.peers[m.from].lastSeq
  }

  /** What the signature of a signal is over, field by field. */
  lemma SignedSaysAll(c: Crypto, m: Signal)
    ensures Signed(c, m).Ok? <==>
              forall id :: id == m.session || id == m.from || id == m.to ==>
                c.decode(id).Some? && |c.decode(id).value| == 32
    ensures Signed(c, m).Ok? ==>
              var f := Signed(c, m).value;
              && f.kind as nat == (if m.kind == Offer then 1 else if m.kind == Answer then 2 else 3)
              && f.sequence == m.sequence && f.timestamp == m.timestamp && f.payloadHash == c.sha(m.payload)
              && Some(f.session) == c.decode(m.session) && Some(f.from) == c.decode(m.from)
              && Some(f.to) == c.decode(m.to)
  {
    FieldsMeaning(c.decode, c.sha, m.kind.Code(), m.session, m.sequence, m.timestamp, m.from, m.to, m.payload);
  }

  function OpenWindows(host: Peer, now: nat): set<PeerId> {
    set p | p in host.pending && now < host.pending[p] + 120_000
  }

  /** A first contact with a private host. */
  predicate Knocks(s: State, m: Signal) {
    && m.kind == Offer && m.to in s.peers && s.peers[m.to].kind == Host && !s.peers[m.to].isPublic
    && m.from !in s.peers[m.to].allowed
  }

  /** The host at one end, the target's before the sender's, lets the signal pass. */
  predicate Permitted(s: State, now: nat, m: Signal)
    requires m.from in s.peers && m.to in s.peers
  {
    var (host, p) := if s.peers[m.to].kind == Host then (s.peers[m.to], m.from) else (s.peers[m.from], m.to);
    && host.kind == Host
    && (|| host.isPublic || p in host.allowed
        || (m.kind == Offer && s.peers[m.to].kind == Host && s.peers[m.from].kind == Client)
        || (m.kind == Ice && p in OpenWindows(host, now))
        || (m.kind == Answer && s.peers[m.to].kind == Client && p in OpenWindows(host, now)))
  }

  /** A first contact finds the host's queue of 128 taken by others. */
  predicate QueueFull(s: State, now: nat, m: Signal)
    requires m.to in s.peers
  {
    Knocks(s, m) && m.from !in OpenWindows(s.peers[m.to], now) && |OpenWindows(s.peers[m.to], now)| >= 128
  }

  /** The signal is passed on. */
  predicate Passes(c: Crypto, s: State, e: Event)
    requires e.act.Send?
  {
    var m := e.act.msg;
    && e.act.ch in s.conns && s.conns[e.act.ch] == m.from && Genuine(c, s, e.wall, m)
    && m.to in s.peers && Permitted(s, e.now, m) && !QueueFull(s, e.now, m)
  }

  /** With the sender's number taken, the ACLs and windows are what they were. */
  lemma PermittedAfterConsume(c: Crypto, s: State, wall: nat, now: nat, m: Signal)
    requires Genuine(c, s, wall, m)
    ensures m.to in Consume(s, m).peers <==> m.to in s.peers
    ensures m.to in s.peers ==>
              && (Authorize(Consume(s, m).peers, now, m) == Accepted <==> Permitted(s, now, m))
              && Consume(s, m).peers[m.to].(lastSeq := 0) == s.peers[m.to].(lastSeq := 0)
  {
    hide Signed;
  }

  lemma WindowsCounted(target: Peer, now: nat, from: PeerId)
    ensures var (t, ok) := OpenWindow(target, now, from);
            var knocks := target.kind == Host && !target.isPublic && from !in target.allowed;
            && (ok <==> !(knocks && from !in OpenWindows(target, now) && |OpenWindows(target, now)| >= 128))
            && t.(pending := target.pending) == target
            && (!knocks ==> t == target)
            && (knocks ==>
                  && t.pending.Keys == OpenWindows(target, now) + (if ok then {from} else {})
                  && forall p :: p in t.pending ==>
                       t.pending[p] == if p in OpenWindows(target, now) then target.pending[p] else now)
  {
    var open := map p | p in target.pending && WindowOpen(target.pending, p, now) :: target.pending[p];
    assert open.Keys == OpenWindows(target, now);
    assert |open| == |open.Keys|;
  }

  /**
   A signal on a registered channel is either queued, once, on the channel its target is registered with, or its sender
   is told it is refused; and which of the two is decided by origin, signature, freshness, number, and the policy of
   the host at one end alone.
   */
  lemma SendExactly(c: Crypto, s: State, e: Event)
    requires e.act.Send? && e.act.ch in s.conns
    ensures var (s', m) := (Step(c, s, e), e.act.msg);
            && |s'.sent| == |s.sent| + 1 && s.sent == s'.sent[..|s.sent|]
            && var o := s'.sent[|s.sent|];
               if Passes(c, s, e) then o.Relayed? && o.ch == s.peers[m.to].chan && o.msg == m && o.now == e.now
               else o == Refused(e.act.ch)
  {
    var m := e.act.msg;
    hide Signed;
    if s.conns[e.act.ch] == m.from && Genuine(c, s, e.wall, m) {
      PermittedAfterConsume(c, s, e.wall, e.now, m);
      if m.to in s.peers { WindowsCounted(Consume(s, m).peers[m.to], e.now, m.from); }
      hide OpenWindow, Permitted;
    }
  }

  /**
   A first contact that passes has a window from now, or from when its open one was opened; windows that have closed
   are dropped then, and no other signal changes any window.
   */
  lemma WindowsExactly(c: Crypto, s: State, e: Event)
    requires e.act.Send? && Passes(c, s, e)
    ensures var (s', m) := (Step(c, s, e), e.act.msg);
            && m.to in s'.peers
            && var (before, after) := (s.peers[m.to], s'.peers[m.to].pending);
               if !Knocks(s, m) then after == before.pending
               else
                 && after.Keys == OpenWindows(before, e.now) + {m.from}
                 && forall p :: p in after ==>
                      after[p] == if p in OpenWindows(before, e.now) then before.pending[p] else e.now
  {
    var m := e.act.msg;
    hide Signed;
    PermittedAfterConsume(c, s, e.wall, e.now, m);
    WindowsCounted(Consume(s, m).peers[m.to], e.now, m.from);
    hide OpenWindow, Permitted;
  }

  // ----- Questions and goodbyes -----

  /** A status check is answered on its channel with the policy's verdict on each host named, and that is all. */
  lemma CheckAnswers(c: Crypto, s: State, e: Event)
    requires e.act.CheckStatus? && e.act.ch in s.conns
    ensures var s' := Step(c, s, e);
            && s'.(sent := s.sent) == s && |s'.sent| == |s.sent| + 1 && s.sent == s'.sent[..|s.sent|]
            && var o := s'.sent[|s.sent|];
               && o.StatusReply? && o.ch == e.act.ch && !o.subscribed
               && (forall h :: h in o.statuses <==> h in e.act.hosts)
               && (forall h :: h in o.statuses ==> o.statuses[h] == Presence(s.peers, h, s.conns[e.act.ch]))
  {}

  /** A subscription adds the client once, at the end, to the subscribers of each host named, and to no others. */
  lemma SubscribersExactly(c: Crypto, s: State, e: Event, h: PeerId)
    requires e.act.Subscribe? && e.act.ch in s.conns
    ensures var (l, client) := (SubscribersOf(s.subs, h), s.conns[e.act.ch]);
            SubscribersOf(Step(c, s, e).subs, h)
            == if h in e.act.hosts && client !in l then l + [client] else l
  {
    SubscribeAllExactly(s.subs, e.act.hosts, s.conns[e.act.ch], h);
  }

  lemma {:induction false} SubscribeAllExactly(
    subs: map<PeerId, seq<PeerId>>, hosts: seq<PeerId>, client: PeerId, h: PeerId)
    ensures SubscribersOf(SubscribeAll(subs, hosts, client), h)
            == if h in hosts && client !in SubscribersOf(subs, h) then SubscribersOf(subs, h) + [client]
               else SubscribersOf(subs, h)
  {
    if hosts != [] {
      SubscribeAllExactly(subs, hosts[..|hosts| - 1], client, h);
      assert hosts == hosts[..|hosts| - 1] + [hosts[|hosts| - 1]];
    }
  }

  /** The answers to a registration: a refusal on a registered channel, silence for a bad key, else the session. */
  lemma RegisterAnswers(c: Crypto, s: State, e: Event)
    requires e.act.Register?
    ensures var (s', id) := (Step(c, s, e), e.act.id);
            && (e.act.ch in s.conns ==> s'.sent == s.sent + [Refused(e.act.ch)])
            && (e.act.ch !in s.conns && !Registers(c, s, e, id) ==> s' == s)
            && (Registers(c, s, e, id) ==>
                  && Registered(e.act.ch, id, e.act.session) in s'.sent[|s.sent|..]
                  && (id in s.peers ==> Replaced(s.peers[id].chan) in s'.sent[|s.sent|..])
                  && e.act.ch in s'.conns && s'.conns[e.act.ch] == id)
  {
    if Registers(c, s, e, e.act.id) {
      var replaced := if e.act.id in s.peers then [Replaced(s.peers[e.act.id].chan)] else [];
      var answer := replaced + [Registered(e.act.ch, e.act.id, e.act.session)];
      var s' := Step(c, s, e);
      hide Pushes;
      assert answer <= s'.sent[|s.sent|..];
      assert answer[|replaced|] == Registered(e.act.ch, e.act.id, e.act.session);
      assert e.act.id in s.peers ==> answer[0] == Replaced(s.peers[e.act.id].chan);
    }
  }

  /** A client that leaves is no one's subscriber any more; a host that leaves keeps its own. */
  lemma LeavingUnsubscribes(c: Crypto, s: State, ch: Chan, h: PeerId, now: nat, wall: nat)
    requires ch in s.conns && s.conns[ch] in s.peers && s.peers[s.conns[ch]].chan == ch
    ensures var (s', id) := (Step(c, s, Event(now, wall, Disconnect(ch))), s.conns[ch]);
            if s.peers[id].kind == Host then SubscribersOf(s'.subs, h) == SubscribersOf(s.subs, h)
            else forall p :: p in SubscribersOf(s'.subs, h) <==> p in SubscribersOf(s.subs, h) && p != id
  {}
}
