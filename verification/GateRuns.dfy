/** What the gate and pairing keep in every interleaving of their tasks. */
module GateRuns {
  import opened Wrappers
  import opened Gate
  import Login

  // ----- The gate -----

  /** Each message is for exactly one role, and nothing is for the host's own. */
  lemma EachMessageHasOneRole(r: PeerRole, q: PeerRole, m: Message)
    ensures MessageAllowedForRole(r, m) && MessageAllowedForRole(q, m) ==> r == q
    ensures !r.TrustedHostInternal? ==> exists other: Message :: MessageAllowedForRole(r, other)
    ensures exists own :: MessageAllowedForRole(own, m)
  {
    assert MessageAllowedForRole(UnauthenticatedClient, AuthRequest);
    assert MessageAllowedForRole(AuthenticatedClient, TransferInit);
    assert MessageAllowedForRole(Node, NodeHeartbeat);
    var own := if m.AuthRequest? || m.AuthResponse? || m.AuthOpaqueStart? || m.AuthOpaqueFinish?
               then UnauthenticatedClient
               else if m.NodeRegister? || m.NodeHeartbeat? || m.NodeSignal? || m.NodeActivationStatus? then Node
               else AuthenticatedClient;
    assert MessageAllowedForRole(own, m);
  }

  predicate ForClients(h: Handler) { h.Chunk? || MessageAllowedForRole(AuthenticatedClient, h.m) }

  ghost predicate LoggedBefore(log: seq<Entry>, x: nat) {
    exists j :: 0 <= j < |log| && log[j].LoggedOn? && log[j].x == x
  }

  predicate Holds(stage: Stage) {
    stage.Holding? || stage.Copied? || stage.Saved? || stage.SaveFailed? || stage.Stored?
  }

  /** Task t works for session x, and its client is that session's. */
  predicate Works(s: State, t: TaskId, x: nat) {
    t in s.tasks && x < |s.sessions| && s.sessions[x].client == s.tasks[t].client
  }

  predicate Listed(c: Config, s: State, client: Party) { c.isPublic || client in s.acl }

  ghost predicate StageOk(c: Config, s: State, t: TaskId)
    requires t in s.tasks
  {
    var client := s.tasks[t].client;
    match s.tasks[t].stage
    case Arrived => true
    case Done => true
    case Found(x) => Works(s, t, x)
    case Judged(x, role) =>
      Works(s, t, x) && !role.TrustedHostInternal?
      && (role.AuthenticatedClient? ==> LoggedBefore(s.log, x)) && (role.Node? <==> client in c.allowedNodes)
    case Proved(x, _) => Works(s, t, x) && LoggedBefore(s.log, x) && client !in c.allowedNodes
    case Paired(x) => Works(s, t, x) && LoggedBefore(s.log, x) && client !in c.allowedNodes && Listed(c, s, client)
    case _ =>
      var x := s.tasks[t].stage.x;
      && Works(s, t, x) && LoggedBefore(s.log, x) && client !in c.allowedNodes && !c.isPublic && s.holder == Some(t)
      && (s.tasks[t].stage.Copied? ==> s.tasks[t].stage.updated == s.acl + [client] && client !in s.acl)
      && (s.tasks[t].stage.Saved? ==> s.tasks[t].stage.updated == s.acl + [client] && client !in s.acl)
      && (s.tasks[t].stage.Stored? ==> client in s.acl)
  }

  ghost predicate TasksOk(c: Config, s: State) { forall t :: t in s.tasks ==> StageOk(c, s, t) }

  /** The list in memory and the one on disk differ only while a task is between saving and storing. */
  predicate ListOk(s: State) {
    match s.holder
    case None => s.persisted == s.acl
    case Some(t) =>
      && t in s.tasks && Holds(s.tasks[t].stage)
      && s.persisted == if s.tasks[t].stage.Saved? then s.tasks[t].stage.updated else s.acl
  }

  ghost predicate SessionOk(c: Config, s: State, x: nat)
    requires x < |s.sessions|
  {
    var p := s.sessions[x];
    && !p.role.TrustedHostInternal? && (p.role.Node? <==> p.client in c.allowedNodes)
    && (p.role.AuthenticatedClient? ==> LoggedBefore(s.log, x) && Listed(c, s, p.client))
  }

  ghost predicate SessionsOk(c: Config, s: State) {
    && (forall x :: 0 <= x < |s.sessions| ==> SessionOk(c, s, x))
    && (forall p :: p in s.peers ==> s.peers[p] < |s.sessions| && s.sessions[s.peers[p]].client == p)
  }

  /** The success stands in the login history, for this session's scope and client. */
  predicate Success(c: Config, s: State, x: nat, at: nat) {
    && at < |s.login.log| && s.login.log[at].LoggedIn? && x < |s.sessions|
    && s.login.log[at].attempt.scope == s.sessions[x].scope
    && s.login.log[at].attempt.client == s.sessions[x].client
    && s.login.log[at].attempt.host == c.host
  }

  /** The first `known` entries of the login history issued this token. */
  ghost predicate Issued(login: Login.State, known: nat, token: Login.Token) {
    && known <= |login.log|
    && exists k: nat, at: nat :: Login.IssuedAt(login.log[..known], k, token, at)
  }

  ghost predicate EntryOk(c: Config, s: State, before: seq<Entry>, e: Entry) {
    match e
    case LoggedOn(x, _, at) => Success(c, s, x, at)
    case Ran(x, h, known) =>
      && x < |s.sessions|
      && (if ForClients(h) then LoggedBefore(before, x) else s.sessions[x].client in c.allowedNodes)
      && (h.Command? && NeedsToken(h.m) ==> Issued(s.login, known, h.m.token))
    case _ => true
  }

  ghost predicate LogOk(c: Config, s: State) {
    forall i :: 0 <= i < |s.log| ==> EntryOk(c, s, s.log[..i], s.log[i])
  }

  ghost predicate Inv(c: Config, s: State) {
    TasksOk(c, s) && ListOk(s) && SessionsOk(c, s) && LogOk(c, s) && Login.History(s.login)
  }

  // ----- What only grows -----

  predicate Grown(s: State, s': State) {
    && |s.sessions| <= |s'.sessions|
    && (forall x :: 0 <= x < |s.sessions| ==>
          s.sessions[x].client == s'.sessions[x].client && s.sessions[x].scope == s'.sessions[x].scope)
    && s.log <= s'.log && s.login.log <= s'.login.log && s.acl <= s'.acl
  }

  lemma LoggedStays(log: seq<Entry>, log': seq<Entry>, x: nat)
    requires LoggedBefore(log, x) && log <= log'
    ensures LoggedBefore(log', x)
  {
    var j :| 0 <= j < |log| && log[j].LoggedOn? && log[j].x == x;
    assert log'[j] == log[j];
  }

  lemma ListedStays(c: Config, s: State, s': State, client: Party)
    requires Listed(c, s, client) && s.acl <= s'.acl
    ensures Listed(c, s', client)
  {
    if !c.isPublic {
      var j :| 0 <= j < |s.acl| && s.acl[j] == client;
      assert s'.acl[j] == client;
    }
  }

  lemma IssuedStays(l: Login.State, l': Login.State, known: nat, token: Login.Token)
    requires Issued(l, known, token) && l.log <= l'.log
    ensures Issued(l', known, token)
  {
    assert l'.log[..known] == l.log[..known];
  }

  lemma EntryStays(c: Config, s: State, s': State, before: seq<Entry>, e: Entry)
    requires EntryOk(c, s, before, e) && Grown(s, s')
    ensures EntryOk(c, s', before, e)
  {
    if e.Ran? && e.handler.Command? && NeedsToken(e.handler.m) {
      IssuedStays(s.login, s'.login, e.known, e.handler.m.token);
    }
  }

  lemma StageStays(c: Config, s: State, s': State, u: TaskId)
    requires u in s.tasks && StageOk(c, s, u) && u in s'.tasks && s'.tasks[u] == s.tasks[u] && Grown(s, s')
    requires Holds(s.tasks[u].stage) ==> s'.holder == s.holder && s'.acl == s.acl
    ensures StageOk(c, s', u)
  {
    var stage := s.tasks[u].stage;
    if !stage.Arrived? && !stage.Done? && LoggedBefore(s.log, stage.x) {
      LoggedStays(s.log, s'.log, stage.x);
    }
    if stage.Paired? { ListedStays(c, s, s', s.tasks[u].client); }
  }

  /** Every task is as it should be after t has moved, if t is. */
  lemma Moved(c: Config, s: State, s': State, t: TaskId)
    requires TasksOk(c, s) && t in s.tasks && t in s'.tasks && s'.tasks == s.tasks[t := s'.tasks[t]]
    requires Grown(s, s') && StageOk(c, s', t)
    requires (s'.holder == s.holder && s'.acl == s.acl) || s.holder == Some(t) || s.holder == None
    ensures TasksOk(c, s')
  {
    hide Grown;
    forall u | u in s'.tasks ensures StageOk(c, s', u) {
      if u != t {
        assert StageOk(c, s, u);
        assert Holds(s.tasks[u].stage) ==> s.holder == Some(u);
        StageStays(c, s, s', u);
      }
    }
  }

  lemma NothingMoved(c: Config, s: State, s': State)
    requires TasksOk(c, s) && s'.tasks == s.tasks && Grown(s, s') && s'.holder == s.holder && s'.acl == s.acl
    ensures TasksOk(c, s')
  {
    hide Grown, StageOk;
    forall u | u in s'.tasks ensures StageOk(c, s', u) { StageStays(c, s, s', u); }
  }

  lemma SessionStays(c: Config, s: State, s': State, x: nat)
    requires x < |s.sessions| && SessionOk(c, s, x) && Grown(s, s') && s'.sessions[x] == s.sessions[x]
    ensures SessionOk(c, s', x)
  {
    if s.sessions[x].role.AuthenticatedClient? {
      LoggedStays(s.log, s'.log, x);
      ListedStays(c, s, s', s.sessions[x].client);
    }
  }

  lemma SessionsStay(c: Config, s: State, s': State)
    requires SessionsOk(c, s) && Grown(s, s') && s'.sessions == s.sessions
    requires forall p :: p in s'.peers ==> p in s.peers && s'.peers[p] == s.peers[p]
    ensures SessionsOk(c, s')
  {
    forall x | 0 <= x < |s'.sessions| ensures SessionOk(c, s', x) { SessionStays(c, s, s', x); }
  }

  lemma LogStays(c: Config, s: State, s': State)
    requires LogOk(c, s) && Grown(s, s')
    requires s'.log == s.log || (|s'.log| == |s.log| + 1 && EntryOk(c, s', s.log, s'.log[|s.log|]))
    ensures LogOk(c, s')
  {
    hide EntryOk;
    forall i | 0 <= i < |s'.log| ensures EntryOk(c, s', s'.log[..i], s'.log[i]) {
      if i < |s.log| {
        assert s'.log[..i] == s.log[..i] && s'.log[i] == s.log[i];
        EntryStays(c, s, s', s.log[..i], s.log[i]);
      } else {
        assert s'.log[..i] == s.log;
      }
    }
  }

  lemma LoginGrows(l: Login.State, e: Login.Event)
    requires Login.History(l)
    ensures Login.History(Login.Step(l, e).0) && l.log <= Login.Step(l, e).0.log
    ensures Login.Step(l, e).1.Success? ==>
              && e.act.Finish? && |Login.Step(l, e).0.log| == |l.log| + 1
              && var entry := Login.Step(l, e).0.log[|l.log|];
                 && entry.LoggedIn? && entry.attempt.scope == e.act.scope && entry.attempt.client == e.act.client
                 && entry.attempt.host == e.act.host && entry.token == Login.Step(l, e).1.token
  {
    hide Login.History;
    Login.StepKeepsHistory(l, e);
  }

  // ----- Every step keeps the invariant -----

  lemma LookupKeepsInv(c: Config, s: State, t: TaskId)
    requires Inv(c, s) && t in s.tasks && (s.tasks[t].stage.Arrived? || s.tasks[t].stage.Found?)
    ensures Inv(c, StepTask(c, s, 0, t, false))
  {
    var s' := StepTask(c, s, 0, t, false);
    assert StageOk(c, s, t);
    if s.tasks[t].stage.Found? {
      assert SessionOk(c, s, s.tasks[t].stage.x);
    }
    hide LogOk, SessionsOk, TasksOk;
    Moved(c, s, s', t);
    SessionsStay(c, s, s');
    LogStays(c, s, s');
  }

  /** Task t ends with its message, perhaps running a handler or changing the pending logins. */
  lemma EndKeepsInv(c: Config, s: State, s': State, t: TaskId)
    requires Inv(c, s) && t in s.tasks && !Holds(s.tasks[t].stage) && s'.tasks == To(s, t, Done).tasks
    requires s'.(tasks := s.tasks, login := s.login, log := s.log) == s
    requires Login.History(s'.login) && s.login.log <= s'.login.log
    requires s'.log == s.log || (|s'.log| == |s.log| + 1 && s.log <= s'.log && EntryOk(c, s', s.log, s'.log[|s.log|]))
    ensures Inv(c, s')
  {
    hide LogOk, SessionsOk, TasksOk, Login.History, EntryOk;
    assert StageOk(c, s', t);
    Moved(c, s, s', t);
    SessionsStay(c, s, s');
    LogStays(c, s, s');
  }

  lemma FinishKeepsInv(c: Config, s: State, now: nat, t: TaskId, x: nat, role: PeerRole, m: Message)
    requires Inv(c, s) && t in s.tasks && s.tasks[t].stage == Judged(x, role) && x < |s.sessions| && m.AuthOpaqueFinish?
    requires role.UnauthenticatedClient?
    ensures Inv(c, DeliverFinish(c, s, now, t, x, m))
  {
    assert StageOk(c, s, t);
    hide LogOk, SessionsOk, TasksOk, Login.History, Login.Step;
    var s' := DeliverFinish(c, s, now, t, x, m);
    if m.decodes {
      var finish := Login.Finish(s.sessions[x].scope, m.attempt, s.tasks[t].client, c.host, m.proof);
      LoginGrows(s.login, Login.Event(now, finish));
    }
    if s'.tasks[t].stage.Proved? {
      assert s'.log[|s.log|].LoggedOn?;
      Moved(c, s, s', t);
      SessionsStay(c, s, s');
      LogStays(c, s, s');
    } else {
      EndKeepsInv(c, s, s', t);
    }
  }

  lemma TokenIssued(l: Login.State, now: nat, token: Login.Token)
    requires Login.History(l) && Login.VerifyToken(l, now, token)
    ensures Issued(l, |l.log|, token)
  {
    assert l.log[..|l.log|] == l.log;
  }

  lemma DeliverKeepsInv(c: Config, s: State, now: nat, t: TaskId, x: nat, role: PeerRole)
    requires Inv(c, s) && t in s.tasks && s.tasks[t].stage == Judged(x, role) && x < |s.sessions|
    ensures Inv(c, Deliver(c, s, now, t, x, role))
  {
    var s' := Deliver(c, s, now, t, x, role);
    var p := s.tasks[t].payload;
    assert StageOk(c, s, t);
    hide LogOk, SessionsOk, TasksOk, ListOk, Login.History, DeliverMessage;
    if !IsFrame(p) && p.message.Some? {
      MessageKeepsInv(c, s, now, t, x, role, p.message.value);
    } else {
      EndKeepsInv(c, s, s', t);
    }
  }

  lemma MessageKeepsInv(c: Config, s: State, now: nat, t: TaskId, x: nat, role: PeerRole, m: Message)
    requires Inv(c, s) && t in s.tasks && s.tasks[t].stage == Judged(x, role) && x < |s.sessions|
    ensures Inv(c, DeliverMessage(c, s, now, t, x, role, m))
  {
    var s' := DeliverMessage(c, s, now, t, x, role, m);
    assert StageOk(c, s, t);
    hide LogOk, SessionsOk, TasksOk, ListOk, Login.History, Login.Step, Login.VerifyToken, DeliverFinish;
    if !MessageAllowedForRole(role, m) {
      EndKeepsInv(c, s, s', t);
    } else if m.AuthOpaqueFinish? {
      FinishKeepsInv(c, s, now, t, x, role, m);
    } else if m.AuthOpaqueStart? {
      var begin := Login.Begin(s.sessions[x].scope, m.attempt, s.tasks[t].client, c.host, m.start);
      LoginGrows(s.login, Login.Event(now, begin));
      EndKeepsInv(c, s, s', t);
    } else if |s'.log| == |s.log| {
      EndKeepsInv(c, s, s', t);
    } else {
      CommandKeepsInv(c, s, now, t, x, role, m);
    }
  }

  /** A handler runs. */
  lemma CommandKeepsInv(c: Config, s: State, now: nat, t: TaskId, x: nat, role: PeerRole, m: Message)
    requires Inv(c, s) && t in s.tasks && s.tasks[t].stage == Judged(x, role) && x < |s.sessions|
    requires MessageAllowedForRole(role, m) && !role.UnauthenticatedClient?
    requires NeedsToken(m) ==> Login.VerifyToken(s.login, now, m.token)
    ensures Inv(c, RunHandler(To(s, t, Done), x, Command(m)))
  {
    assert StageOk(c, s, t);
    hide LogOk, SessionsOk, TasksOk, ListOk, Login.History, Login.VerifyToken;
    if NeedsToken(m) { TokenIssued(s.login, now, m.token); }
    EndKeepsInv(c, s, RunHandler(To(s, t, Done), x, Command(m)), t);
  }

  lemma PromoteKeepsInv(c: Config, s: State, now: nat, t: TaskId)
    requires Inv(c, s) && t in s.tasks && s.tasks[t].stage.Paired?
    ensures Inv(c, Pair(c, s, now, t, false)) && Inv(c, Pair(c, s, now, t, true))
  {
    var s' := Pair(c, s, now, t, false);
    var x := s.tasks[t].stage.x;
    assert StageOk(c, s, t);
    hide LogOk, TasksOk, Login.History;
    Moved(c, s, s', t);
    LogStays(c, s, s');
    assert SessionOk(c, s, x);
    LoggedStays(s.log, s'.log, x);
    forall y | 0 <= y < |s'.sessions| ensures SessionOk(c, s', y) {
      if y != x { SessionStays(c, s, s', y); }
    }
  }

  /** A step of a task that holds the lock or takes it. */
  lemma HoldKeepsInv(c: Config, s: State, s': State, t: TaskId)
    requires Inv(c, s) && t in s.tasks && t in s'.tasks && s'.tasks == s.tasks[t := s'.tasks[t]]
    requires s'.sessions == s.sessions && s'.peers == s.peers && s.acl <= s'.acl
    requires s.holder == s'.holder || s.holder == Some(t) || s.holder == None
    requires s.acl == s'.acl || s.holder == Some(t)
    requires Login.History(s'.login) && s.login.log <= s'.login.log
    requires s'.log == s.log || (|s'.log| == |s.log| + 1 && s.log <= s'.log && EntryOk(c, s', s.log, s'.log[|s.log|]))
    requires StageOk(c, s', t) && ListOk(s')
    ensures Inv(c, s')
  {
    hide LogOk, SessionsOk, TasksOk, Login.History, StageOk, EntryOk;
    Moved(c, s, s', t);
    SessionsStay(c, s, s');
    LogStays(c, s, s');
  }

  lemma TakeKeepsInv(c: Config, s: State, now: nat, t: TaskId, saveOk: bool)
    requires Inv(c, s) && t in s.tasks && !s.tasks[t].stage.Judged? && !s.tasks[t].stage.Paired?
    requires !s.tasks[t].stage.SaveFailed? && !s.tasks[t].stage.Saved? && !s.tasks[t].stage.Copied?
    ensures Inv(c, Pair(c, s, now, t, saveOk))
  {
    var s' := Pair(c, s, now, t, saveOk);
    assert StageOk(c, s, t);
    hide LogOk, SessionsOk, TasksOk, Login.History;
    if s' != s { HoldKeepsInv(c, s, s', t); }
  }

  lemma SaveKeepsInv(c: Config, s: State, now: nat, t: TaskId, saveOk: bool)
    requires Inv(c, s) && t in s.tasks && s.tasks[t].stage.Copied?
    ensures Inv(c, Pair(c, s, now, t, saveOk))
  {
    var s' := Pair(c, s, now, t, saveOk);
    assert StageOk(c, s, t);
    hide LogOk, SessionsOk, TasksOk, Login.History;
    LoggedStays(s.log, s'.log, s.tasks[t].stage.x);
    HoldKeepsInv(c, s, s', t);
  }

  lemma AssignKeepsInv(c: Config, s: State, now: nat, t: TaskId, saveOk: bool)
    requires Inv(c, s) && t in s.tasks && s.tasks[t].stage.Saved?
    ensures Inv(c, Pair(c, s, now, t, saveOk))
  {
    var s' := Pair(c, s, now, t, saveOk);
    assert StageOk(c, s, t);
    hide LogOk, SessionsOk, TasksOk, Login.History;
    LoggedStays(s.log, s'.log, s.tasks[t].stage.x);
    HoldKeepsInv(c, s, s', t);
  }

  lemma RevokeKeepsInv(c: Config, s: State, now: nat, t: TaskId, saveOk: bool)
    requires Inv(c, s) && t in s.tasks && s.tasks[t].stage.SaveFailed?
    ensures Inv(c, Pair(c, s, now, t, saveOk))
  {
    var s' := Pair(c, s, now, t, saveOk);
    assert StageOk(c, s, t);
    hide LogOk, SessionsOk, TasksOk, Login.History, Login.Step;
    LoginGrows(s.login, Login.Event(now, Login.Revoke(s.tasks[t].stage.token)));
    HoldKeepsInv(c, s, s', t);
  }

  lemma ConnectKeepsInv(c: Config, s: State, now: nat, client: Party, scope: Login.Scope)
    requires Inv(c, s)
    ensures Inv(c, Step(c, s, Event(now, Connect(client, scope))))
  {
    hide LogOk, TasksOk, Login.History;
    var s' := Step(c, s, Event(now, Connect(client, scope)));
    NothingMoved(c, s, s');
    LogStays(c, s, s');
    forall x | 0 <= x < |s'.sessions| ensures SessionOk(c, s', x) {
      if x < |s.sessions| { SessionStays(c, s, s', x); }
    }
  }

  /** A teardown or a timer changes at most the peer map and the pending logins. */
  lemma AsideKeepsInv(c: Config, s: State, s': State)
    requires Inv(c, s) && s'.(peers := s.peers, login := s.login) == s
    requires forall p :: p in s'.peers ==> p in s.peers && s'.peers[p] == s.peers[p]
    requires Login.History(s'.login) && s.login.log <= s'.login.log
    ensures Inv(c, s')
  {
    hide LogOk, SessionsOk, TasksOk, Login.History;
    NothingMoved(c, s, s');
    SessionsStay(c, s, s');
    LogStays(c, s, s');
  }

  lemma ArriveKeepsInv(c: Config, s: State, now: nat, t: TaskId, client: Party, payload: Payload)
    requires Inv(c, s)
    ensures Inv(c, Step(c, s, Event(now, Arrive(t, client, payload))))
  {
    hide LogOk, SessionsOk, Login.History;
    var s' := Step(c, s, Event(now, Arrive(t, client, payload)));
    SessionsStay(c, s, s');
    LogStays(c, s, s');
    forall u | u in s'.tasks ensures StageOk(c, s', u) {
      if u in s.tasks { StageStays(c, s, s', u); }
    }
  }

  lemma StepKeepsInv(c: Config, s: State, e: Event)
    requires Inv(c, s)
    ensures Inv(c, Step(c, s, e))
  {
    hide Inv, Deliver, Pair, Login.Step;
    match e.act
    case Connect(client, scope) => ConnectKeepsInv(c, s, e.now, client, scope);
    case CancelLogins(x) =>
      if x < |s.sessions| {
        AsideLogin(c, s, Login.Event(e.now, Login.CancelScope(s.sessions[x].scope)));
      }
    case Unlink(x) => UnlinkKeepsInv(c, s, e.now, x);
    case Timer(id, created) => AsideLogin(c, s, Login.Event(e.now, Login.Timer(id, created)));
    case Arrive(t, client, payload) => ArriveKeepsInv(c, s, e.now, t, client, payload);
    case Advance(t, saveOk) =>
      if t in s.tasks {
        match s.tasks[t].stage
        case Arrived => LookupKeepsInv(c, s, t);
        case Found(_) => LookupKeepsInv(c, s, t);
        case Judged(x, role) => if x < |s.sessions| { DeliverKeepsInv(c, s, e.now, t, x, role); }
        case Paired(_) => PromoteKeepsInv(c, s, e.now, t);
        case Copied(_, _, _) => SaveKeepsInv(c, s, e.now, t, saveOk);
        case Saved(_, _) => AssignKeepsInv(c, s, e.now, t, saveOk);
        case SaveFailed(_, _) => RevokeKeepsInv(c, s, e.now, t, saveOk);
        case _ => TakeKeepsInv(c, s, e.now, t, saveOk);
      }
  }

  lemma AsideLogin(c: Config, s: State, e: Login.Event)
    requires Inv(c, s)
    ensures Inv(c, s.(login := Login.Step(s.login, e).0))
  {
    hide Login.Step, Login.History;
    LoginGrows(s.login, e);
    AsideKeepsInv(c, s, s.(login := Login.Step(s.login, e).0));
  }

  lemma UnlinkKeepsInv(c: Config, s: State, now: nat, x: nat)
    requires Inv(c, s)
    ensures Inv(c, Step(c, s, Event(now, Unlink(x))))
  {
    AsideKeepsInv(c, s, Step(c, s, Event(now, Unlink(x))));
  }

  lemma InitialInv(c: Config)
    ensures Inv(c, Initial(c))
  {}

  lemma {:induction false} RunKeepsInv(c: Config, es: seq<Event>)
    ensures Inv(c, Run(c, es))
  {
    hide Inv, Step;
    if es == [] {
      InitialInv(c);
    } else {
      RunKeepsInv(c, es[..|es| - 1]);
      StepKeepsInv(c, Run(c, es[..|es| - 1]), es[|es| - 1]);
    }
  }

  // ----- What the gate promises -----

  /** A login of this session that succeeded, and was earned as every login is. */
  ghost predicate RealLogin(c: Config, s: State, e: Entry) {
    && e.LoggedOn? && Success(c, s, e.x, e.at)
    && Login.Earned(s.login.log[..e.at], s.login.log[e.at])
  }

  /**
   In every run a handler for clients runs only after a login that succeeded on that very session, for an attempt
   begun under the session's scope and client less than 30 s before; and a command's token was issued by an earlier
   login and not revoked. A handler for nodes runs only for a configured node.
   */
  lemma HandlersFollowLogin(c: Config, es: seq<Event>, i: nat)
    requires i < |Run(c, es).log| && Run(c, es).log[i].Ran?
    ensures var s, e := Run(c, es), Run(c, es).log[i];
            e.x < |s.sessions|
            && (if ForClients(e.handler)
                then exists j :: 0 <= j < i && s.log[j].LoggedOn? && s.log[j].x == e.x && RealLogin(c, s, s.log[j])
                else s.sessions[e.x].client in c.allowedNodes)
            && (e.handler.Command? && NeedsToken(e.handler.m) ==> Issued(s.login, e.known, e.handler.m.token))
  {
    RunKeepsInv(c, es);
    var s, e := Run(c, es), Run(c, es).log[i];
    assert EntryOk(c, s, s.log[..i], e);
    if ForClients(e.handler) {
      var j :| 0 <= j < |s.log[..i]| && s.log[..i][j].LoggedOn? && s.log[..i][j].x == e.x;
      assert s.log[j] == s.log[..i][j];
      assert EntryOk(c, s, s.log[..j], s.log[j]);
      assert RealLogin(c, s, s.log[j]);
    }
  }

  /** On a private host the client of every authenticated session is in the list, in memory and on disk. */
  lemma AuthenticatedAreListed(c: Config, es: seq<Event>, x: nat)
    requires !c.isPublic && x < |Run(c, es).sessions| && Run(c, es).sessions[x].role.AuthenticatedClient?
    ensures Run(c, es).sessions[x].client in Run(c, es).acl && Run(c, es).sessions[x].client in Run(c, es).persisted
    ensures Run(c, es).sessions[x].client !in c.allowedNodes
  {
    var s := Run(c, es);
    RunKeepsInv(c, es);
    assert SessionOk(c, s, x);
    if s.holder.Some? { assert StageOk(c, s, s.holder.value); }
  }

  /** Whenever the lock is free the two lists agree, and the one in memory is never ahead of the disk. */
  lemma ListsAgree(c: Config, es: seq<Event>)
    ensures Run(c, es).holder.None? ==> Run(c, es).persisted == Run(c, es).acl
    ensures Run(c, es).acl <= Run(c, es).persisted && |Run(c, es).persisted| <= |Run(c, es).acl| + 1
  {
    var s := Run(c, es);
    RunKeepsInv(c, es);
    if s.holder.Some? { assert StageOk(c, s, s.holder.value); }
  }

  // ----- No pairing is lost -----

  /** The clients added by the pairings, in order. */
  function Additions(log: seq<Entry>): seq<Party> {
    if log == [] then []
    else Additions(log[..|log| - 1]) + if log[|log| - 1].Added? then [log[|log| - 1].client] else []
  }

  lemma AdditionsOn(log: seq<Entry>, e: Entry)
    ensures Additions(log + [e]) == Additions(log) + if e.Added? then [e.client] else []
  {
    assert (log + [e])[..|log|] == log;
  }

  predicate Distinct(q: seq<Party>) { forall i, j :: 0 <= i < j < |q| ==> q[i] != q[j] }

  predicate ListConserved(c: Config, s: State) {
    s.acl == c.allowedClients + Additions(s.log) && (Distinct(c.allowedClients) ==> Distinct(s.acl))
  }

  lemma PairKeepsList(c: Config, s: State, now: nat, t: TaskId, saveOk: bool)
    requires Inv(c, s) && ListConserved(c, s) && t in s.tasks
    ensures ListConserved(c, Pair(c, s, now, t, saveOk))
    ensures s.acl <= Pair(c, s, now, t, saveOk).acl && s.persisted <= Pair(c, s, now, t, saveOk).persisted
  {
    hide Login.Step, Additions, Login.History, LogOk, SessionsOk;
    assert StageOk(c, s, t);
    var s' := Pair(c, s, now, t, saveOk);
    if |s'.log| > |s.log| { AdditionsOn(s.log, s'.log[|s.log|]); }
  }

  lemma DeliverKeepsList(c: Config, s: State, now: nat, t: TaskId, x: nat, role: PeerRole)
    requires t in s.tasks && x < |s.sessions|
    ensures var s' := Deliver(c, s, now, t, x, role);
            && s'.acl == s.acl && s'.persisted == s.persisted && Additions(s'.log) == Additions(s.log)
  {
    hide Login.Step, Login.VerifyToken, Additions;
    var s' := Deliver(c, s, now, t, x, role);
    if |s'.log| > |s.log| { AdditionsOn(s.log, s'.log[|s.log|]); assert Additions(s.log) + [] == Additions(s.log); }
  }

  lemma StepKeepsList(c: Config, s: State, e: Event)
    requires Inv(c, s) && ListConserved(c, s)
    ensures ListConserved(c, Step(c, s, e))
    ensures s.acl <= Step(c, s, e).acl && s.persisted <= Step(c, s, e).persisted
  {
    hide Inv, Deliver, Pair, Login.Step, Additions;
    if e.act.Advance? && e.act.t in s.tasks {
      var t := e.act.t;
      if s.tasks[t].stage.Judged? {
        var stage := s.tasks[t].stage;
        if stage.x < |s.sessions| { DeliverKeepsList(c, s, e.now, t, stage.x, stage.role); }
      } else {
        PairKeepsList(c, s, e.now, t, e.act.saveOk);
      }
    }
  }

  /**
   However pairings interleave, the list is the configured one followed by every client paired since, in order,
   each once: no update is lost.
   */
  lemma {:induction false} NoPairingLost(c: Config, es: seq<Event>)
    ensures ListConserved(c, Run(c, es))
  {
    hide Step, Inv;
    if es == [] {
      assert c.allowedClients + [] == c.allowedClients;
    } else {
      NoPairingLost(c, es[..|es| - 1]);
      RunKeepsInv(c, es[..|es| - 1]);
      StepKeepsList(c, Run(c, es[..|es| - 1]), es[|es| - 1]);
    }
  }

  /** The list only grows, in memory and on disk. */
  lemma {:induction false} ListGrows(c: Config, es: seq<Event>, n: nat)
    requires n <= |es|
    ensures Run(c, es[..n]).acl <= Run(c, es).acl && Run(c, es[..n]).persisted <= Run(c, es).persisted
  {
    hide Step, Inv;
    if n == |es| {
      assert es[..n] == es;
    } else {
      var front := es[..|es| - 1];
      ListGrows(c, front, n);
      assert front[..n] == es[..n];
      NoPairingLost(c, front);
      RunKeepsInv(c, front);
      StepKeepsList(c, Run(c, front), es[|es| - 1]);
    }
  }

  // ----- A save that fails -----

  predicate Grants(e: Entry, t: TaskId) { (e.Added? || e.Promoted?) && e.t == t }

  ghost predicate Granted(log: seq<Entry>, t: TaskId) { exists i :: 0 <= i < |log| && Grants(log[i], t) }

  ghost predicate MarkOk(s: State, t: TaskId) {
    if t !in s.tasks then Failed(t) !in s.log && !Granted(s.log, t)
    else
      match s.tasks[t].stage
      case SaveFailed(_, _) => !Granted(s.log, t)
      case Stored(_) => Failed(t) !in s.log
      case Paired(_) => Failed(t) !in s.log
      case Done => Failed(t) in s.log ==> !Granted(s.log, t)
      case _ => Failed(t) !in s.log && !Granted(s.log, t)
  }

  ghost predicate MarksOk(s: State) { forall t :: MarkOk(s, t) }

  /** Nothing has been written about task `u`. */
  predicate Quiet(s: State, s': State, u: TaskId) {
    s'.log == s.log
    || (&& |s'.log| == |s.log| + 1 && s.log == s'.log[..|s.log|]
        && s'.log[|s.log|] != Failed(u) && !Grants(s'.log[|s.log|], u))
  }

  lemma QuietSame(s: State, s': State, u: TaskId)
    requires Quiet(s, s', u)
    ensures Failed(u) in s'.log <==> Failed(u) in s.log
    ensures Granted(s'.log, u) <==> Granted(s.log, u)
  {
    if |s'.log| > |s.log| {
      assert s'.log == s.log + [s'.log[|s.log|]];
      if Granted(s.log, u) {
        var i :| 0 <= i < |s.log| && Grants(s.log[i], u);
        assert Grants(s'.log[i], u);
      }
    }
  }

  lemma DeliverIsQuiet(c: Config, s: State, now: nat, t: TaskId, x: nat, role: PeerRole, u: TaskId)
    requires t in s.tasks && x < |s.sessions|
    ensures var s' := Deliver(c, s, now, t, x, role);
            Quiet(s, s', u) && t in s'.tasks && s'.tasks == s.tasks[t := s'.tasks[t]]
            && (s'.tasks[t].stage.Proved? || s'.tasks[t].stage.Done?)
  {
    hide Login.Step, Login.VerifyToken;
  }

  lemma PairKeepsMark(c: Config, s: State, now: nat, t: TaskId, saveOk: bool, u: TaskId)
    requires MarkOk(s, u) && t in s.tasks
    ensures MarkOk(Pair(c, s, now, t, saveOk), u)
  {
    hide Login.Step, Granted;
    var s' := Pair(c, s, now, t, saveOk);
    if Quiet(s, s', u) {
      QuietSame(s, s', u);
    } else {
      assert u == t && s'.log == s.log + [s'.log[|s.log|]];
      NewMark(s.log, s'.log[|s.log|], u);
    }
  }

  lemma NewMark(log: seq<Entry>, e: Entry, u: TaskId)
    ensures Failed(u) in log + [e] <==> Failed(u) in log || e == Failed(u)
    ensures Granted(log + [e], u) <==> Granted(log, u) || Grants(e, u)
  {
    if Granted(log, u) {
      var i :| 0 <= i < |log| && Grants(log[i], u);
      assert Grants((log + [e])[i], u);
    }
    if Grants(e, u) { assert Grants((log + [e])[|log|], u); }
  }

  lemma StepKeepsMarks(c: Config, s: State, e: Event)
    requires MarksOk(s)
    ensures MarksOk(Step(c, s, e))
  {
    hide Deliver, Pair, Login.Step, Granted;
    var s' := Step(c, s, e);
    forall u ensures MarkOk(s', u) {
      assert MarkOk(s, u);
      if e.act.Advance? && e.act.t in s.tasks {
        var t := e.act.t;
        var stage := s.tasks[t].stage;
        if stage.Judged? {
          if stage.x < |s.sessions| {
            DeliverIsQuiet(c, s, e.now, t, stage.x, stage.role, u);
            QuietSame(s, s', u);
          }
        } else if !stage.Arrived? && !stage.Found? {
          PairKeepsMark(c, s, e.now, t, e.act.saveOk, u);
        }
      }
    }
  }

  lemma {:induction false} RunKeepsMarks(c: Config, es: seq<Event>)
    ensures MarksOk(Run(c, es))
  {
    hide Step;
    if es == [] {
      assert Initial(c).log == [];
    } else {
      RunKeepsMarks(c, es[..|es| - 1]);
      StepKeepsMarks(c, Run(c, es[..|es| - 1]), es[|es| - 1]);
    }
  }

  /** In every run a login whose save failed neither adds its client to the list nor raises a session's role. */
  lemma FailedSaveGrantsNothing(c: Config, es: seq<Event>, t: TaskId)
    requires Failed(t) in Run(c, es).log
    ensures !Granted(Run(c, es).log, t)
  {
    RunKeepsMarks(c, es);
    assert MarkOk(Run(c, es), t);
  }

  /** A failed save and what follows it change no role and neither list, free the lock and revoke the token. */
  lemma FailedSaveUndone(c: Config, s: State, t: TaskId, now: nat, later: nat)
    requires t in s.tasks && s.tasks[t].stage.Copied?
    ensures var failed := Pair(c, s, now, t, false);
            var s' := Pair(c, failed, later, t, false);
            && s'.sessions == s.sessions && s'.acl == s.acl && s'.persisted == s.persisted && s'.peers == s.peers
            && s'.holder.None? && s.tasks[t].stage.token !in s'.login.sessions && s'.tasks[t].stage.Done?
  {}

  // ----- The lock comes free -----

  function Steps(c: Config, s: State, now: nat, t: TaskId, saveOk: bool, n: nat): State
    requires t in s.tasks
    decreases n
  {
    if n == 0 then s else Steps(c, Pair(c, s, now, t, saveOk), now, t, saveOk, n - 1)
  }

  function StepsLeft(stage: Stage): nat {
    if stage.Holding? then 4 else if stage.Copied? then 3 else if stage.Saved? then 2 else 1
  }

  lemma HolderMoves(c: Config, s: State, now: nat, t: TaskId, saveOk: bool)
    requires t in s.tasks && s.holder == Some(t) && Holds(s.tasks[t].stage)
    ensures var s' := Pair(c, s, now, t, saveOk);
            && t in s'.tasks
            && (s'.holder.None? || (s'.holder == Some(t) && Holds(s'.tasks[t].stage)
                                    && StepsLeft(s'.tasks[t].stage) < StepsLeft(s.tasks[t].stage)))
  {
    hide Login.Step;
  }

  lemma HolderFinishes(c: Config, s: State, now: nat, t: TaskId, saveOk: bool) returns (n: nat)
    requires t in s.tasks && s.holder == Some(t) && Holds(s.tasks[t].stage)
    ensures 0 < n <= StepsLeft(s.tasks[t].stage) && Steps(c, s, now, t, saveOk, n).holder.None?
    decreases StepsLeft(s.tasks[t].stage)
  {
    hide Pair;
    HolderMoves(c, s, now, t, saveOk);
    var s' := Pair(c, s, now, t, saveOk);
    if s'.holder.None? {
      n := 1;
      assert Steps(c, s', now, t, saveOk, 0) == s';
    } else {
      n := HolderFinishes(c, s', now, t, saveOk);
      n := n + 1;
    }
  }

  /** Whoever holds the list's lock waits for no one and gives it back within four steps of its own. */
  lemma LockComesFree(c: Config, es: seq<Event>, now: nat, saveOk: bool)
    requires Run(c, es).holder.Some?
    ensures var s := Run(c, es);
            var t := s.holder.value;
            t in s.tasks && exists n: nat :: 0 < n <= 4 && Steps(c, s, now, t, saveOk, n).holder.None?
  {
    RunKeepsInv(c, es);
    var n := HolderFinishes(c, Run(c, es), now, Run(c, es).holder.value, saveOk);
  }
}
