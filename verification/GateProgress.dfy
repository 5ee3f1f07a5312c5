/** What the gate lets through: handlers that do run, logins that do raise a session, and who is connected. */
module GateProgress {
  import opened Wrappers
  import opened Bytes
  import opened Gate
  import GateRuns
  import Login
  import LoginSucceeds

  // ----- A login that succeeds raises its session -----

  /** Past the login, and not at the end yet. */
  predicate Pairing(g: Stage) { !g.Arrived? && !g.Found? && !g.Judged? && !g.Done? }

  /** The login's task is on its way, or it has ended with the session raised unless the list could not be saved. */
  predicate LoginOk(s: State, x: nat, t: TaskId) {
    && t in s.tasks && x < |s.sessions|
    && var g := s.tasks[t].stage;
       || (Pairing(g) && g.x == x && (g.SaveFailed? ==> Failed(t) in s.log))
       || (g.Done? && (Failed(t) in s.log || s.sessions[x].role.AuthenticatedClient?))
  }

  predicate LoginsOk(s: State) {
    forall i :: 0 <= i < |s.log| && s.log[i].LoggedOn? ==> LoginOk(s, s.log[i].x, s.log[i].t)
  }

  /** Sessions stay, a raised one stays raised, and what has been noted stays noted. */
  predicate Later(s: State, s': State) {
    && |s.sessions| <= |s'.sessions| && s.log <= s'.log
    && forall x :: 0 <= x < |s.sessions| && s.sessions[x].role.AuthenticatedClient? ==>
         s'.sessions[x].role.AuthenticatedClient?
  }

  lemma PairIsLater(c: Config, s: State, now: nat, t: TaskId, saveOk: bool)
    requires t in s.tasks
    ensures Later(s, Pair(c, s, now, t, saveOk))
  {
    hide Login.Step;
  }

  lemma DeliverIsLater(c: Config, s: State, now: nat, t: TaskId, x: nat, role: PeerRole)
    requires t in s.tasks && x < |s.sessions|
    ensures Later(s, Deliver(c, s, now, t, x, role))
  {
    hide Login.Step, Login.VerifyToken;
  }

  lemma StepIsLater(c: Config, s: State, e: Event)
    ensures Later(s, Step(c, s, e))
  {
    hide Login.Step, Deliver, Pair;
    if e.act.Advance? && e.act.t in s.tasks {
      var g := s.tasks[e.act.t].stage;
      PairIsLater(c, s, e.now, e.act.t, e.act.saveOk);
      if g.Judged? && g.x < |s.sessions| { DeliverIsLater(c, s, e.now, e.act.t, g.x, g.role); }
    }
  }

  /** A raised session stays raised. */
  lemma {:induction false} RoleStays(c: Config, es: seq<Event>, n: nat, x: nat)
    requires n <= |es| && x < |Run(c, es[..n]).sessions| && Run(c, es[..n]).sessions[x].role.AuthenticatedClient?
    ensures x < |Run(c, es).sessions| && Run(c, es).sessions[x].role.AuthenticatedClient?
  {
    hide Step;
    if n < |es| {
      var front := es[..|es| - 1];
      assert front[..n] == es[..n];
      RoleStays(c, front, n, x);
      StepIsLater(c, Run(c, front), es[|es| - 1]);
    } else {
      assert es[..n] == es;
    }
  }

  /** What a task on its way does next. */
  lemma PairLeads(c: Config, s: State, now: nat, t: TaskId, saveOk: bool, x: nat)
    requires LoginOk(s, x, t)
    ensures LoginOk(Pair(c, s, now, t, saveOk), x, t)
  {
    hide Login.Step;
    var s' := Pair(c, s, now, t, saveOk);
    PairIsLater(c, s, now, t, saveOk);
    if Failed(t) in s.log {
      var i :| 0 <= i < |s.log| && s.log[i] == Failed(t);
      assert s'.log[i] == Failed(t);
    }
    if s.tasks[t].stage.Copied? && !saveOk { assert s'.log[|s.log|] == Failed(t); }
  }

  /** Anything that leaves the task alone and only moves time forward. */
  lemma LoginStays(s: State, s': State, x: nat, t: TaskId)
    requires LoginOk(s, x, t) && Later(s, s') && t in s'.tasks && s'.tasks[t] == s.tasks[t]
    ensures LoginOk(s', x, t)
  {
    if Failed(t) in s.log {
      var i :| 0 <= i < |s.log| && s.log[i] == Failed(t);
      assert s'.log[i] == Failed(t);
    }
  }

  lemma StepKeepsLogin(c: Config, s: State, e: Event, x: nat, t: TaskId)
    requires LoginOk(s, x, t)
    ensures LoginOk(Step(c, s, e), x, t)
  {
    hide Login.Step, Deliver, Pair, LoginOk, Later;
    assert t in s.tasks && !s.tasks[t].stage.Arrived? && !s.tasks[t].stage.Found? && !s.tasks[t].stage.Judged?
    by { AfterLogin(s, x, t); }
    StepIsLater(c, s, e);
    if e.act.Advance? && e.act.t == t {
      PairLeads(c, s, e.now, t, e.act.saveOk, x);
    } else {
      OthersLeaveTask(c, s, e, t);
      LoginStays(s, Step(c, s, e), x, t);
    }
  }

  lemma AfterLogin(s: State, x: nat, t: TaskId)
    requires LoginOk(s, x, t)
    ensures t in s.tasks && !s.tasks[t].stage.Arrived? && !s.tasks[t].stage.Found? && !s.tasks[t].stage.Judged?
  {}

  lemma OthersLeaveTask(c: Config, s: State, e: Event, t: TaskId)
    requires t in s.tasks && !(e.act.Advance? && e.act.t == t)
    ensures t in Step(c, s, e).tasks && Step(c, s, e).tasks[t] == s.tasks[t]
  {
    hide Login.Step, Deliver;
    if e.act.Advance? && e.act.t in s.tasks {
      var g := s.tasks[e.act.t].stage;
      if g.Judged? && g.x < |s.sessions| {
        GateRuns.DeliverIsQuiet(c, s, e.now, e.act.t, g.x, g.role, t);
      }
    }
  }

  lemma DeliverLogsOn(c: Config, s: State, now: nat, t: TaskId, x: nat, role: PeerRole, i: nat)
    requires t in s.tasks && x < |s.sessions|
    requires |s.log| <= i < |Deliver(c, s, now, t, x, role).log|
    ensures var s' := Deliver(c, s, now, t, x, role);
            s'.log[i].LoggedOn? ==> LoginOk(s', s'.log[i].x, s'.log[i].t)
  {
    hide Login.Step, Login.VerifyToken;
  }

  lemma PairLogsNoneOn(c: Config, s: State, now: nat, t: TaskId, saveOk: bool, i: nat)
    requires t in s.tasks && |s.log| <= i < |Pair(c, s, now, t, saveOk).log|
    ensures !Pair(c, s, now, t, saveOk).log[i].LoggedOn?
  {
    hide Login.Step;
  }

  /** A step notes a login only as its task begins to pair. */
  lemma NewLogin(c: Config, s: State, e: Event, i: nat)
    requires |s.log| <= i < |Step(c, s, e).log| && Step(c, s, e).log[i].LoggedOn?
    ensures var s' := Step(c, s, e); LoginOk(s', s'.log[i].x, s'.log[i].t)
  {
    hide Login.Step, Deliver, Pair, LoginOk;
    var g := s.tasks[e.act.t].stage;
    if g.Judged? {
      DeliverLogsOn(c, s, e.now, e.act.t, g.x, g.role, i);
    } else {
      PairLogsNoneOn(c, s, e.now, e.act.t, e.act.saveOk, i);
    }
  }

  lemma StepKeepsLogins(c: Config, s: State, e: Event)
    requires LoginsOk(s)
    ensures LoginsOk(Step(c, s, e))
  {
    hide Step, LoginOk;
    var s' := Step(c, s, e);
    StepIsLater(c, s, e);
    forall i | 0 <= i < |s'.log| && s'.log[i].LoggedOn? ensures LoginOk(s', s'.log[i].x, s'.log[i].t) {
      if i < |s.log| {
        assert s'.log[i] == s.log[i];
        StepKeepsLogin(c, s, e, s.log[i].x, s.log[i].t);
      } else {
        NewLogin(c, s, e, i);
      }
    }
  }

  lemma {:induction false} RunKeepsLogins(c: Config, es: seq<Event>)
    ensures LoginsOk(Run(c, es))
  {
    hide Step;
    if es != [] {
      RunKeepsLogins(c, es[..|es| - 1]);
      StepKeepsLogins(c, Run(c, es[..|es| - 1]), es[|es| - 1]);
    }
  }

  /**
   In every run, a login that succeeded and whose task has ended has left its session authenticated, unless the list of
   paired clients could not be saved; and whoever is authenticated stays so.
   */
  lemma SuccessRaisesRole(c: Config, es: seq<Event>, x: nat, t: TaskId, at: nat)
    requires LoggedOn(x, t, at) in Run(c, es).log
    requires t in Run(c, es).tasks && Run(c, es).tasks[t].stage.Done? && Failed(t) !in Run(c, es).log
    ensures x < |Run(c, es).sessions| && Run(c, es).sessions[x].role.AuthenticatedClient?
  {
    RunKeepsLogins(c, es);
    var s := Run(c, es);
    var i :| 0 <= i < |s.log| && s.log[i] == LoggedOn(x, t, at);
    assert LoginOk(s, s.log[i].x, s.log[i].t);
  }

  /** How many steps of its own a pairing task is from its end, at most. */
  function StepsToEnd(g: Stage): nat {
    match g
    case Proved(_, _) => 6
    case Holding(_, _) => 5
    case Copied(_, _, _) => 4
    case Saved(_, _) => 3
    case Stored(_) => 2
    case _ => 1
  }

  predicate MayPair(s: State, t: TaskId) {
    && t in s.tasks && Pairing(s.tasks[t].stage) && s.tasks[t].stage.x < |s.sessions|
    && if GateRuns.Holds(s.tasks[t].stage) then s.holder == Some(t) else s.holder == None
  }

  predicate Raised(c: Config, s: State, t: TaskId, x: nat) {
    && t in s.tasks && x < |s.sessions| && s.sessions[x].role.AuthenticatedClient?
    && (c.isPublic || s.tasks[t].client in s.acl)
  }

  /** A stage that the list has not failed. */
  predicate Hopeful(c: Config, s: State, t: TaskId) {
    && t in s.tasks && !s.tasks[t].stage.SaveFailed?
    && (s.tasks[t].stage.Stored? || s.tasks[t].stage.Paired? ==> c.isPublic || s.tasks[t].client in s.acl)
    && (s.tasks[t].stage.Copied? ==> s.tasks[t].client in s.tasks[t].stage.updated)
    && (s.tasks[t].stage.Saved? ==> s.tasks[t].client in s.tasks[t].stage.updated)
  }

  lemma PairMoves(c: Config, s: State, now: nat, t: TaskId, saveOk: bool)
    requires MayPair(s, t)
    ensures var (s', x) := (Pair(c, s, now, t, saveOk), s.tasks[t].stage.x);
            && t in s'.tasks && |s'.sessions| == |s.sessions|
            && (if s'.tasks[t].stage.Done?
                then s'.holder == None && (Hopeful(c, s, t) ==> Raised(c, s', t, x))
                else MayPair(s', t) && s'.tasks[t].stage.x == x && (Hopeful(c, s, t) && saveOk ==> Hopeful(c, s', t))
                     && StepsToEnd(s'.tasks[t].stage) < StepsToEnd(s.tasks[t].stage))
  {
    hide Login.Step;
  }

  /**
   A login that succeeded comes to its end within six steps of its own once the list's lock is free. If the list can
   be saved, the session is then authenticated and, on a private host, its client listed.
   */
  lemma PairingEnds(c: Config, s: State, now: nat, t: TaskId, saveOk: bool) returns (n: nat)
    requires MayPair(s, t)
    ensures 0 < n <= StepsToEnd(s.tasks[t].stage)
    ensures var s' := GateRuns.Steps(c, s, now, t, saveOk, n);
            && t in s'.tasks && s'.tasks[t].stage.Done? && s'.holder == None
            && (Hopeful(c, s, t) && saveOk ==> Raised(c, s', t, s.tasks[t].stage.x))
    decreases StepsToEnd(s.tasks[t].stage)
  {
    assert t in s.tasks && s.tasks[t].stage.x < |s.sessions|;
    hide Pair, MayPair, Hopeful, Raised;
    PairMoves(c, s, now, t, saveOk);
    var s' := Pair(c, s, now, t, saveOk);
    if s'.tasks[t].stage.Done? {
      n := 1;
      assert GateRuns.Steps(c, s', now, t, saveOk, 0) == s';
    } else {
      n := PairingEnds(c, s', now, t, saveOk);
      n := n + 1;
    }
  }

  // ----- Handlers that run -----

  /** The handler a payload is for, given the role of the peer it comes from and the tokens on the table. */
  function Served(role: PeerRole, p: Payload, login: Login.State, now: nat): Option<Handler> {
    if |p.bytes| >= 37 && p.bytes[0] == 1 && p.channel == "frankn_fs" then
      if role == AuthenticatedClient && |p.bytes| >= 50 then Some(Chunk) else None
    else match p.message
      case None => None
      case Some(m) =>
        match m
        case TransferInit => if role == AuthenticatedClient then Some(Command(m)) else None
        case TransferCancel => if role == AuthenticatedClient then Some(Command(m)) else None
        case DownloadInit => if role == AuthenticatedClient then Some(Command(m)) else None
        case ClientGenMsg(token) =>
          if role == AuthenticatedClient && Login.VerifyToken(login, now, token) then Some(Command(m)) else None
        case ActivateCapability(token) =>
          if role == AuthenticatedClient && Login.VerifyToken(login, now, token) then Some(Command(m)) else None
        case DeactivateCapability(token) =>
          if role == AuthenticatedClient && Login.VerifyToken(login, now, token) then Some(Command(m)) else None
        case NodeRegister => if role == Node then Some(Command(m)) else None
        case NodeHeartbeat => if role == Node then Some(Command(m)) else None
        case NodeSignal => if role == Node then Some(Command(m)) else None
        case NodeActivationStatus => if role == Node then Some(Command(m)) else None
        case _ => None
  }

  /** The handlers a state's log has beyond those of another. */
  predicate RanExactly(s: State, s': State, x: nat, h: Option<Handler>) {
    match h
    case Some(h) => s'.log == s.log + [Ran(x, h, |s.login.log|)]
    case None =>
      s.log <= s'.log && forall i :: |s.log| <= i < |s'.log| ==> !s'.log[i].Ran?
  }

  /** A message whose role has been read runs exactly the handler it is for. */
  lemma JudgedRunsExactly(c: Config, s: State, now: nat, t: TaskId, saveOk: bool)
    requires t in s.tasks && s.tasks[t].stage.Judged? && s.tasks[t].stage.x < |s.sessions|
    ensures var g := s.tasks[t].stage;
            var s' := Step(c, s, Event(now, Advance(t, saveOk)));
            && RanExactly(s, s', g.x, Served(g.role, s.tasks[t].payload, s.login, now))
            && t in s'.tasks && (s'.tasks[t].stage.Done? || s'.tasks[t].stage.Proved?)
  {
    hide Login.Step, Login.VerifyToken;
  }

  /**
   A message that arrives for a connected peer is handled in three steps of its own task, and runs exactly the handler
   that the role of the peer's current session and the token, where one is needed, entitle it to.
   */
  lemma ArrivedRunsExactly(c: Config, s: State, now: nat, t: TaskId, saveOk: bool)
    requires t in s.tasks && s.tasks[t].stage.Arrived? && s.tasks[t].client in s.peers
    requires s.peers[s.tasks[t].client] < |s.sessions|
    ensures var x := s.peers[s.tasks[t].client];
            var s1 := Step(c, s, Event(now, Advance(t, saveOk)));
            var s2 := Step(c, s1, Event(now, Advance(t, saveOk)));
            var s3 := Step(c, s2, Event(now, Advance(t, saveOk)));
            RanExactly(s, s3, x, Served(s.sessions[x].role, s.tasks[t].payload, s.login, now))
  {
    var s1 := Step(c, s, Event(now, Advance(t, saveOk)));
    var s2 := Step(c, s1, Event(now, Advance(t, saveOk)));
    assert s2.tasks[t].stage == Judged(s.peers[s.tasks[t].client], s.sessions[s.peers[s.tasks[t].client]].role);
    assert s2.log == s.log && s2.login == s.login && s2.sessions == s.sessions;
    hide Step, Served;
    JudgedRunsExactly(c, s2, now, t, saveOk);
  }

  // ----- What the login table is asked -----

  /** The request a task makes of the login table at its next step, if any. */
  function TaskAsks(c: Config, s: State, now: nat, task: Task): Option<Login.Event> {
    if task.stage.SaveFailed? then Some(Login.Event(now, Login.Revoke(task.stage.token)))
    else if !task.stage.Judged? || task.stage.x >= |s.sessions| || task.stage.role != UnauthenticatedClient then None
    else if IsFrame(task.payload) then None
    else
      var scope := s.sessions[task.stage.x].scope;
      match task.payload.message
      case Some(AuthOpaqueStart(id, start)) =>
        Some(Login.Event(now, Login.Begin(scope, id, task.client, c.host, start)))
      case Some(AuthOpaqueFinish(id, true, proof)) =>
        Some(Login.Event(now, Login.Finish(scope, id, task.client, c.host, proof)))
      case _ => None
  }

  /** The request an event makes of it. */
  function Asks(c: Config, s: State, e: Event): Option<Login.Event> {
    match e.act
    case CancelLogins(x) =>
      if x < |s.sessions| then Some(Login.Event(e.now, Login.CancelScope(s.sessions[x].scope))) else None
    case Timer(id, created) => Some(Login.Event(e.now, Login.Timer(id, created)))
    case Advance(t, _) => if t in s.tasks then TaskAsks(c, s, e.now, s.tasks[t]) else None
    case _ => None
  }

  /** An event changes the login table exactly as its request does. */
  lemma StepAsks(c: Config, s: State, e: Event)
    ensures Step(c, s, e).login == match Asks(c, s, e) case Some(l) => Login.Step(s.login, l).0 case None => s.login
  {
    hide Login.Step, Login.VerifyToken;
  }

  function Asked(c: Config, es: seq<Event>): seq<Login.Event> {
    if es == [] then []
    else
      Asked(c, es[..|es| - 1])
      + match Asks(c, Run(c, es[..|es| - 1]), es[|es| - 1]) case Some(l) => [l] case None => []
  }

  /** The login table of the host is that of a run of its own, of the requests the host's run makes. */
  lemma {:induction false} LoginsAreARun(c: Config, es: seq<Event>)
    ensures Run(c, es).login == Login.Run(Login.INITIAL, Asked(c, es))
  {
    hide Step, Asks, Login.Step;
    if es != [] {
      var front, e := es[..|es| - 1], es[|es| - 1];
      LoginsAreARun(c, front);
      StepAsks(c, Run(c, front), e);
      match Asks(c, Run(c, front), e)
      case Some(l) => assert (Asked(c, front) + [l])[..|Asked(c, front)|] == Asked(c, front);
      case None => assert Asked(c, front) + [] == Asked(c, front);
    }
  }

  /** A finish that the login table grants takes its task on to pairing; any other ends it. */
  lemma FinishLogsOnExactly(c: Config, s: State, now: nat, t: TaskId, saveOk: bool)
    requires t in s.tasks && s.tasks[t].stage.Judged? && s.tasks[t].stage.x < |s.sessions|
    requires Asks(c, s, Event(now, Advance(t, saveOk))).Some?
    requires Asks(c, s, Event(now, Advance(t, saveOk))).value.act.Finish?
    ensures var reply := Login.Step(s.login, Asks(c, s, Event(now, Advance(t, saveOk))).value).1;
            var (s', x) := (Step(c, s, Event(now, Advance(t, saveOk))), s.tasks[t].stage.x);
            && t in s'.tasks
            && (reply.Success? ==>
                  s'.tasks[t].stage == Proved(x, reply.token) && LoggedOn(x, t, |s.login.log|) in s'.log)
            && (!reply.Success? ==> s'.tasks[t].stage == Done && s'.log == s.log)
  {
    hide Login.Step;
    var s' := Step(c, s, Event(now, Advance(t, saveOk)));
    if |s'.log| > |s.log| { assert s'.log[|s.log|] in s'.log; }
  }

  // ----- Who is connected -----

  /**
   A peer's current session is its last connection, until that is unlinked; an older connection's teardown changes
   nothing. A new session is a node's exactly for a configured node, and unauthenticated otherwise.
   */
  lemma PeersExactly(c: Config, s: State, e: Event, client: Party)
    ensures var s' := Step(c, s, e);
            && (client in s'.peers <==>
                  || (e.act.Connect? && e.act.client == client)
                  || (client in s.peers
                      && !(e.act.Unlink? && e.act.x == s.peers[client] && e.act.x < |s.sessions|
                           && s.sessions[e.act.x].client == client)))
            && (client in s'.peers ==>
                  s'.peers[client] ==
                  if e.act.Connect? && e.act.client == client then |s.sessions| else s.peers[client])
            && (e.act.Connect? ==>
                  s'.sessions == s.sessions + [Session(e.act.client, e.act.scope,
                    if e.act.client in c.allowedNodes then Node else UnauthenticatedClient)])
  {
    hide Login.Step, Login.VerifyToken;
  }
}
