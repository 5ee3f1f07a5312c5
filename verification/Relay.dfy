/**
 The signaling server: registered peers, presence subscriptions and relayed signals, one step for each
 registration, message and disconnect. Signatures, digests and text encodings are parameters.
 */
module Relay {
  import opened Wrappers
  import opened Bytes
  import opened Envelope

  type PeerId(==, !new) = string
  type SessionId(==, !new) = string
  type Chan = nat

  const SKEW_LIMIT_MS: nat := 60_000
  const PAIRING_WINDOW_MS: nat := 120_000
  const PAIRING_QUEUE: nat := 128

  datatype Crypto = Crypto(
    decode: Decoder,                            // base64url
    encode: Bytes -> string,
    sha: Hash,
    verify: (Bytes, Bytes, Bytes) -> bool,      // key, message, signature
    aclText: (seq<PeerId>, nat) -> Bytes)       // the bytes signed with an ACL update

  datatype PeerType = Host | Client

  datatype Peer = Peer(
    chan: Chan, kind: PeerType, isPublic: bool, publicKey: Bytes, session: SessionId,
    allowed: seq<PeerId>, pending: map<PeerId, nat>, lastSeq: nat)

  datatype SignalKind = Offer | Answer | Ice {
    function Code(): byte {
      match this case Offer => 0x01 case Answer => 0x02 case Ice => 0x03
    }
  }

  datatype Signal = Signal(
    kind: SignalKind, from: PeerId, to: PeerId, payload: Bytes,
    session: SessionId, sequence: nat, timestamp: nat, signature: Bytes)

  datatype Action =
    | Register(ch: Chan, id: PeerId, kind: PeerType, isPublic: bool, publicKey: Bytes,
               challenge: Bytes, signature: Bytes, session: SessionId)
    | Subscribe(ch: Chan, hosts: seq<PeerId>)
    | CheckStatus(ch: Chan, hosts: seq<PeerId>)
    | UpdateAcl(ch: Chan, allowed: seq<PeerId>, timestamp: nat, signature: Bytes)
    | Send(ch: Chan, msg: Signal)
    | Disconnect(ch: Chan)

  /** An action with the monotonic clock and the wall clock at that moment, in milliseconds. */
  datatype Event = Event(now: nat, wall: nat, act: Action)

  /** What is queued on a channel. A relayed signal is kept with the two registrations it went between. */
  datatype Output =
    | Registered(ch: Chan, id: PeerId, session: SessionId)
    | Replaced(ch: Chan)
    | StatusReply(ch: Chan, statuses: map<PeerId, bool>, subscribed: bool)
    | PeerStatus(ch: Chan, host: PeerId, online: bool)
    | Relayed(ch: Chan, now: nat, msg: Signal, sender: Peer, target: Peer)
    | Refused(ch: Chan)

  datatype State = State(
    peers: map<PeerId, Peer>,
    subs: map<PeerId, seq<PeerId>>,
    conns: map<Chan, PeerId>,            // the peer id each open connection registered as
    sent: seq<Output>,                   // everything queued so far, in order
    accepted: seq<(SessionId, nat)>)     // the sequence numbers consumed so far

  // ----- Presence -----

  /** The single policy for whether a client should see a host as available. */
  predicate Presence(peers: map<PeerId, Peer>, host: PeerId, client: PeerId) {
    && host in peers
    && peers[host].kind == Host
    && (peers[host].isPublic || client in peers[host].allowed)
  }

  function SubscribersOf(subs: map<PeerId, seq<PeerId>>, host: PeerId): seq<PeerId> {
    if host in subs then subs[host] else []
  }

  /** One update for each subscriber that is a connected client, on its registered channel. */
  function Pushes(peers: map<PeerId, Peer>, clients: seq<PeerId>, host: PeerId): seq<Output> {
    if clients == [] then []
    else
      var c := clients[|clients| - 1];
      Pushes(peers, clients[..|clients| - 1], host)
      + if c in peers && peers[c].kind == Client
        then [PeerStatus(peers[c].chan, host, Presence(peers, host, c))] else []
  }

  function AddSubscriber(subs: map<PeerId, seq<PeerId>>, host: PeerId, client: PeerId): map<PeerId, seq<PeerId>> {
    var l := SubscribersOf(subs, host);
    subs[host := if client in l then l else l + [client]]
  }

  function SubscribeAll(subs: map<PeerId, seq<PeerId>>, hosts: seq<PeerId>, client: PeerId): map<PeerId, seq<PeerId>> {
    if hosts == [] then subs
    else AddSubscriber(SubscribeAll(subs, hosts[..|hosts| - 1], client), hosts[|hosts| - 1], client)
  }

  function Statuses(peers: map<PeerId, Peer>, hosts: seq<PeerId>, client: PeerId): map<PeerId, bool> {
    map h | h in hosts :: Presence(peers, h, client)
  }

  function Without(l: seq<PeerId>, id: PeerId): (r: seq<PeerId>)
    ensures forall x :: x in r <==> x in l && x != id
  {
    if l == [] then []
    else Without(l[..|l| - 1], id) + if l[|l| - 1] == id then [] else [l[|l| - 1]]
  }

  // ----- Verification of a signal -----

  datatype Verdict =
    | Accepted
    | SenderNotFound | WrongSession | BadEnvelope(e: EnvelopeError) | BadSignature | Skewed | Replay
    | TargetNotFound | NotInAcl | OnlyHosts | HostNotAllowed

  function Signed(c: Crypto, m: Signal): Result<Fields, EnvelopeError> {
    FieldsOf(c.decode, c.sha, m.kind.Code(), m.session, m.sequence, m.timestamp, m.from, m.to, m.payload)
  }

  function Skew(wall: nat, timestamp: nat): nat {
    if wall > timestamp then wall - timestamp else timestamp - wall
  }

  /** The server's test of a number against the last one it took. */
  predicate IsReplay(sequence: nat, last: nat) { sequence <= last }

  /** Session, signature, freshness and replay; nothing is changed before all of them pass. */
  function Authenticate(c: Crypto, peers: map<PeerId, Peer>, wall: nat, m: Signal): Verdict {
    if m.from !in peers then SenderNotFound
    else if peers[m.from].session != m.session then WrongSession
    else if Signed(c, m).Err? then BadEnvelope(Signed(c, m).error)
    else if |m.signature| != 64 || |peers[m.from].publicKey| != 32 then BadSignature
    else if !c.verify(peers[m.from].publicKey, Signed(c, m).value.Encoded(), m.signature) then BadSignature
    else if Skew(wall, m.timestamp) > SKEW_LIMIT_MS then Skewed
    else if IsReplay(m.sequence, peers[m.from].lastSeq) then Replay
    else Accepted
  }

  predicate WindowOpen(pending: map<PeerId, nat>, id: PeerId, now: nat) {
    id in pending && now < pending[id] + PAIRING_WINDOW_MS
  }

  /** Who may signal whom. */
  function Authorize(peers: map<PeerId, Peer>, now: nat, m: Signal): Verdict
    requires m.from in peers
  {
    if m.to !in peers then TargetNotFound
    else
      var sender, target := peers[m.from], peers[m.to];
      if target.kind == Host then
        if !target.isPublic && m.from !in target.allowed
           && !(m.kind == Offer && sender.kind == Client)
           && !(m.kind == Ice && WindowOpen(target.pending, m.from, now))
        then NotInAcl else Accepted
      else if sender.kind != Host then OnlyHosts
      else if !sender.isPublic && m.to !in sender.allowed
              && !((m.kind == Answer || m.kind == Ice) && WindowOpen(sender.pending, m.to, now))
      then HostNotAllowed else Accepted
  }

  /**
   The first offer of an outsider opens its pairing window; a full queue refuses it, after dropping closed windows.
   */
  function OpenWindow(target: Peer, now: nat, from: PeerId): (Peer, bool) {
    if target.kind == Host && !target.isPublic && from !in target.allowed then
      var open := map p | p in target.pending && WindowOpen(target.pending, p, now) :: target.pending[p];
      if from !in open && |open| >= PAIRING_QUEUE then (target.(pending := open), false)
      else (target.(pending := if from in open then open else open[from := now]), true)
    else (target, true)
  }

  // ----- The steps -----

  function Queue(s: State, os: seq<Output>): State { s.(sent := s.sent + os) }

  predicate HandshakeOk(c: Crypto, a: Action)
    requires a.Register?
  {
    && |a.publicKey| == 32 && |a.signature| == 64
    && c.encode(c.sha(a.publicKey)) == a.id
    && c.verify(a.publicKey, a.challenge, a.signature)
  }

  function StepRegister(c: Crypto, s: State, a: Action): State
    requires a.Register?
  {
    if a.ch in s.conns then Queue(s, [Refused(a.ch)])
    else if !HandshakeOk(c, a) then s
    else
      var peers := s.peers[a.id := Peer(a.ch, a.kind, a.isPublic, a.publicKey, a.session, [], map[], 0)];
      var replaced := if a.id in s.peers then [Replaced(s.peers[a.id].chan)] else [];
      var pushes := if a.kind == Host then Pushes(peers, SubscribersOf(s.subs, a.id), a.id) else [];
      Queue(s.(peers := peers, conns := s.conns[a.ch := a.id]),
            replaced + [Registered(a.ch, a.id, a.session)] + pushes)
  }

  function StepSubscribe(s: State, ch: Chan, hosts: seq<PeerId>): State {
    if ch !in s.conns then s
    else
      Queue(s.(subs := SubscribeAll(s.subs, hosts, s.conns[ch])),
            [StatusReply(ch, Statuses(s.peers, hosts, s.conns[ch]), true)])
  }

  function StepCheck(s: State, ch: Chan, hosts: seq<PeerId>): State {
    if ch !in s.conns then s
    else Queue(s, [StatusReply(ch, Statuses(s.peers, hosts, s.conns[ch]), false)])
  }

  predicate AclUpdateOk(c: Crypto, s: State, wall: nat, a: Action)
    requires a.UpdateAcl?
  {
    && a.ch in s.conns
    && Skew(wall, a.timestamp) <= SKEW_LIMIT_MS
    && s.conns[a.ch] in s.peers
    && var host := s.peers[s.conns[a.ch]];
       && host.kind == Host
       && |host.publicKey| == 32 && |a.signature| == 64
       && c.verify(host.publicKey, c.aclText(a.allowed, a.timestamp), a.signature)
  }

  function WithAcl(host: Peer, allowed: seq<PeerId>): Peer {
    host.(pending := map p | p in host.pending && p !in allowed :: host.pending[p], allowed := allowed)
  }

  function StepUpdateAcl(c: Crypto, s: State, wall: nat, a: Action): State
    requires a.UpdateAcl?
  {
    if a.ch !in s.conns then s
    else if !AclUpdateOk(c, s, wall, a) then Queue(s, [Refused(a.ch)])
    else
      var id := s.conns[a.ch];
      var peers := s.peers[id := WithAcl(s.peers[id], a.allowed)];
      Queue(s.(peers := peers), Pushes(peers, SubscribersOf(s.subs, id), id))
  }

  /** The sequence number is consumed whether or not the signal is then authorized. */
  function Consume(s: State, m: Signal): State
    requires m.from in s.peers
  {
    s.(peers := s.peers[m.from := s.peers[m.from].(lastSeq := m.sequence)],
       accepted := s.accepted + [(m.session, m.sequence)])
  }

  function Deliver(s: State, now: nat, ch: Chan, m: Signal): State
    requires m.from in s.peers && m.to in s.peers
  {
    var (target, ok) := if m.kind == Offer then OpenWindow(s.peers[m.to], now, m.from) else (s.peers[m.to], true);
    var s' := s.(peers := s.peers[m.to := target]);
    if ok then Queue(s', [Relayed(target.chan, now, m, s.peers[m.from], s.peers[m.to])])
    else Queue(s', [Refused(ch)])
  }

  predicate Consumes(c: Crypto, s: State, wall: nat, ch: Chan, m: Signal) {
    ch in s.conns && s.conns[ch] == m.from && Authenticate(c, s.peers, wall, m) == Accepted
  }

  function StepSend(c: Crypto, s: State, now: nat, wall: nat, ch: Chan, m: Signal): State {
    if ch !in s.conns then s
    else if !Consumes(c, s, wall, ch, m) then Queue(s, [Refused(ch)])
    else
      var s1 := Consume(s, m);
      if Authorize(s1.peers, now, m) != Accepted then Queue(s1, [Refused(ch)])
      else Deliver(s1, now, ch, m)
  }

  /** A connection's teardown removes the peer only if its registration is still this connection's. */
  function StepDisconnect(s: State, ch: Chan): State {
    if ch !in s.conns then s
    else
      var id := s.conns[ch];
      var s1 := s.(conns := s.conns - {ch});
      if id !in s.peers || s.peers[id].chan != ch then s1
      else
        var peers := s.peers - {id};
        if s.peers[id].kind == Host then
          Queue(s1.(peers := peers), Pushes(peers, SubscribersOf(s.subs, id), id))
        else
          s1.(peers := peers, subs := map h | h in s.subs :: Without(s.subs[h], id))
  }

  function Step(c: Crypto, s: State, e: Event): State {
    match e.act
    case Register(_, _, _, _, _, _, _, _) => StepRegister(c, s, e.act)
    case Subscribe(ch, hosts) => StepSubscribe(s, ch, hosts)
    case CheckStatus(ch, hosts) => StepCheck(s, ch, hosts)
    case UpdateAcl(_, _, _, _) => StepUpdateAcl(c, s, e.wall, e.act)
    case Send(ch, m) => StepSend(c, s, e.now, e.wall, ch, m)
    case Disconnect(ch) => StepDisconnect(s, ch)
  }

  function Run(c: Crypto, s: State, es: seq<Event>): State {
    if es == [] then s else Step(c, Run(c, s, es[..|es| - 1]), es[|es| - 1])
  }

  const INITIAL: State := State(map[], map[], map[], [], [])

  /** The channel of a registration that succeeds has carried nothing yet, and its session id has never been issued. */
  predicate FreshEvent(c: Crypto, s: State, e: Event) {
    e.act.Register? && e.act.ch !in s.conns && HandshakeOk(c, e.act) ==>
      && (forall o :: o in s.sent ==> o.ch != e.act.ch)
      && (forall id :: id in s.peers ==> s.peers[id].session != e.act.session)
      && (forall a :: a in s.accepted ==> a.0 != e.act.session)
  }

  predicate FreshRun(c: Crypto, s: State, es: seq<Event>) {
    es == [] || (FreshRun(c, s, es[..|es| - 1]) && FreshEvent(c, Run(c, s, es[..|es| - 1]), es[|es| - 1]))
  }
}
