/**
 The host's role gate and pairing at lock granularity. Every message on a data channel is handled by its own task,
 and tasks interleave between any two lock acquisitions: looking up the session, reading its role, handling the
 message, and, after a login, changing the list of paired clients under its lock.
 */
module Gate {
  import opened Wrappers
  import opened Bytes
  import Framing
  import Login

  type Party = Login.Party
  type TaskId = nat

  datatype PeerRole = UnauthenticatedClient | AuthenticatedClient | Node | TrustedHostInternal

  datatype Message =
    | AuthRequest
    | AuthResponse
    | AuthOpaqueStart(attempt: Login.AttemptId, start: Option<Bytes>)
    | AuthOpaqueFinish(attempt: Login.AttemptId, decodes: bool, proof: Option<Login.Token>)
    | ClientGenMsg(token: Login.Token)
    | TransferInit
    | TransferCancel
    | DownloadInit
    | NodeRegister
    | NodeHeartbeat
    | NodeSignal
    | NodeActivationStatus
    | ActivateCapability(token: Login.Token)
    | DeactivateCapability(token: Login.Token)

  /** What arrives on a channel, with the message it reads as when it is taken for text. */
  datatype Payload = Payload(bytes: Bytes, channel: string, message: Option<Message>)

  predicate IsFrame(p: Payload) {
    |p.bytes| >= 37 && p.bytes[0] == 0x01 && p.channel == "frankn_fs"
  }

  predicate MessageAllowedForRole(role: PeerRole, m: Message) {
    match role
    case UnauthenticatedClient => m.AuthRequest? || m.AuthResponse? || m.AuthOpaqueStart? || m.AuthOpaqueFinish?
    case AuthenticatedClient =>
      m.ClientGenMsg? || m.TransferInit? || m.TransferCancel? || m.DownloadInit?
      || m.ActivateCapability? || m.DeactivateCapability?
    case Node => m.NodeRegister? || m.NodeHeartbeat? || m.NodeSignal? || m.NodeActivationStatus?
    case TrustedHostInternal => false
  }

  predicate NeedsToken(m: Message) { m.ClientGenMsg? || m.ActivateCapability? || m.DeactivateCapability? }

  datatype Config = Config(host: Party, isPublic: bool, allowedNodes: set<Party>, allowedClients: seq<Party>)

  /** One connection of a peer. A reconnecting peer gets a new one. */
  datatype Session = Session(client: Party, scope: Login.Scope, role: PeerRole)

  /** Where a task stands; `x` is the session it works for. From `Holding` to `Stored` it holds the list's lock. */
  datatype Stage =
    | Arrived
    | Found(x: nat)
    | Judged(x: nat, role: PeerRole)
    | Proved(x: nat, token: Login.Token)                         // the login succeeded; nothing granted yet
    | Holding(x: nat, token: Login.Token)
    | Copied(x: nat, token: Login.Token, updated: seq<Party>)
    | Saved(x: nat, updated: seq<Party>)
    | SaveFailed(x: nat, token: Login.Token)
    | Stored(x: nat)
    | Paired(x: nat)
    | Done

  datatype Task = Task(client: Party, payload: Payload, stage: Stage)

  datatype Handler = Chunk | Command(m: Message)

  datatype Entry =
    | LoggedOn(x: nat, t: TaskId, at: nat)          // the success is entry `at` of the login history
    | Ran(x: nat, handler: Handler, known: nat)     // run when the login history had `known` entries
    | Failed(t: TaskId)                             // the list could not be saved
    | Added(t: TaskId, client: Party)
    | Promoted(t: TaskId, x: nat)

  datatype State = State(
    peers: map<Party, nat>,
    sessions: seq<Session>,         // every session there has been
    tasks: map<TaskId, Task>,
    acl: seq<Party>,
    persisted: seq<Party>,          // the list in the configuration file
    holder: Option<TaskId>,         // who holds the list's lock
    login: Login.State,
    log: seq<Entry>)                // the history

  datatype Action =
    | Connect(client: Party, scope: Login.Scope)
    | CancelLogins(x: nat)          // first part of a session's teardown
    | Unlink(x: nat)                // second part
    | Timer(id: Login.AttemptId, created: nat)
    | Arrive(t: TaskId, client: Party, payload: Payload)
    | Advance(t: TaskId, saveOk: bool)

  datatype Event = Event(now: nat, act: Action)

  function Initial(c: Config): State {
    State(map[], [], map[], c.allowedClients, c.allowedClients, None, Login.INITIAL, [])
  }

  function FirstRole(c: Config, client: Party): PeerRole {
    if client in c.allowedNodes then Node else UnauthenticatedClient
  }

  function To(s: State, t: TaskId, stage: Stage): State
    requires t in s.tasks
  {
    s.(tasks := s.tasks[t := s.tasks[t].(stage := stage)])
  }

  function Note(s: State, e: Entry): State { s.(log := s.log + [e]) }

  function RunHandler(s: State, x: nat, h: Handler): State { Note(s, Ran(x, h, |s.login.log|)) }

  function DeliverFinish(c: Config, s: State, now: nat, t: TaskId, x: nat, m: Message): State
    requires t in s.tasks && x < |s.sessions| && m.AuthOpaqueFinish?
  {
    if !m.decodes then To(s, t, Done)
    else
      var finish := Login.Finish(s.sessions[x].scope, m.attempt, s.tasks[t].client, c.host, m.proof);
      var (login, reply) := Login.Step(s.login, Login.Event(now, finish));
      var s1 := s.(login := login);
      if reply.Success? then Note(To(s1, t, Proved(x, reply.token)), LoggedOn(x, t, |s.login.log|)) else To(s1, t, Done)
  }

  function DeliverMessage(c: Config, s: State, now: nat, t: TaskId, x: nat, role: PeerRole, m: Message): State
    requires t in s.tasks && x < |s.sessions|
  {
    if !MessageAllowedForRole(role, m) then To(s, t, Done)
    else if m.AuthRequest? || m.AuthResponse? then To(s, t, Done)
    else if m.AuthOpaqueStart? then
      var begin := Login.Begin(s.sessions[x].scope, m.attempt, s.tasks[t].client, c.host, m.start);
      To(s.(login := Login.Step(s.login, Login.Event(now, begin)).0), t, Done)
    else if m.AuthOpaqueFinish? then DeliverFinish(c, s, now, t, x, m)
    else if NeedsToken(m) && !Login.VerifyToken(s.login, now, m.token) then To(s, t, Done)
    else RunHandler(To(s, t, Done), x, Command(m))
  }

  /** The role is the one read a moment ago, not the session's present one. */
  function Deliver(c: Config, s: State, now: nat, t: TaskId, x: nat, role: PeerRole): State
    requires t in s.tasks && x < |s.sessions|
  {
    var p := s.tasks[t].payload;
    if IsFrame(p) then
      if role.AuthenticatedClient? && |p.bytes| >= Framing.FRAME_HEADER_SIZE
      then RunHandler(To(s, t, Done), x, Chunk) else To(s, t, Done)
    else if p.message.None? then To(s, t, Done)
    else DeliverMessage(c, s, now, t, x, role, p.message.value)
  }

  /** One step of a login that has succeeded. */
  function Pair(c: Config, s: State, now: nat, t: TaskId, saveOk: bool): State
    requires t in s.tasks
  {
    var client := s.tasks[t].client;
    match s.tasks[t].stage
    case Proved(x, token) =>
      if c.isPublic then To(s, t, Paired(x))
      else if s.holder.Some? then s
      else To(s, t, Holding(x, token)).(holder := Some(t))
    case Holding(x, token) =>
      To(s, t, if client in s.acl then Stored(x) else Copied(x, token, s.acl + [client]))
    case Copied(x, token, updated) =>
      if saveOk then To(s, t, Saved(x, updated)).(persisted := updated)
      else Note(To(s, t, SaveFailed(x, token)), Failed(t))
    case SaveFailed(x, token) =>
      To(s, t, Done).(holder := None, login := Login.Step(s.login, Login.Event(now, Login.Revoke(token))).0)
    case Saved(x, updated) => Note(To(s, t, Stored(x)).(acl := updated), Added(t, client))
    case Stored(x) => To(s, t, Paired(x)).(holder := None)
    case Paired(x) =>
      if x >= |s.sessions| then s
      else
        var raised := s.sessions[x := s.sessions[x].(role := AuthenticatedClient)];
        Note(To(s, t, Done).(sessions := raised), Promoted(t, x))
    case _ => s
  }

  function StepTask(c: Config, s: State, now: nat, t: TaskId, saveOk: bool): State
    requires t in s.tasks
  {
    var task := s.tasks[t];
    match task.stage
    case Arrived => To(s, t, if task.client in s.peers then Found(s.peers[task.client]) else Done)
    case Found(x) => if x < |s.sessions| then To(s, t, Judged(x, s.sessions[x].role)) else s
    case Judged(x, role) => if x < |s.sessions| then Deliver(c, s, now, t, x, role) else s
    case _ => Pair(c, s, now, t, saveOk)
  }

  /** An action that is not enabled leaves the state alone. */
  function Step(c: Config, s: State, e: Event): State {
    match e.act
    case Connect(client, scope) =>
      s.(peers := s.peers[client := |s.sessions|],
         sessions := s.sessions + [Session(client, scope, FirstRole(c, client))])
    case CancelLogins(x) =>
      if x >= |s.sessions| then s
      else s.(login := Login.Step(s.login, Login.Event(e.now, Login.CancelScope(s.sessions[x].scope))).0)
    case Unlink(x) =>
      if x < |s.sessions| && s.sessions[x].client in s.peers && s.peers[s.sessions[x].client] == x
      then s.(peers := s.peers - {s.sessions[x].client}) else s
    case Timer(id, created) => s.(login := Login.Step(s.login, Login.Event(e.now, Login.Timer(id, created))).0)
    case Arrive(t, client, payload) =>
      if t in s.tasks then s else s.(tasks := s.tasks[t := Task(client, payload, Arrived)])
    case Advance(t, saveOk) => if t in s.tasks then StepTask(c, s, e.now, t, saveOk) else s
  }

  function Run(c: Config, es: seq<Event>): State {
    if es == [] then Initial(c) else Step(c, Run(c, es[..|es| - 1]), es[|es| - 1])
  }
}
