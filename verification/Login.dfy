/**
 OPAQUE login attempts on the host: begun attempts, their expiry timers, cancellation by scope, and the table of
 issued tokens. What the OPAQUE computation itself answers (RFC 9807) comes with the event.
 */
module Login {
  import opened Wrappers
  import opened Bytes

  type AttemptId = Bytes
  type Scope = Bytes
  type Party(==, !new) = string
  type Token(==, !new) = string

  const ATTEMPT_LIFETIME_MS: nat := 30_000
  const MAX_PENDING: nat := 128
  const MAX_ID: nat := 128
  const TOKEN_LIFETIME_S: nat := 32400

  datatype Attempt = Attempt(scope: Scope, client: Party, host: Party, created: nat)

  datatype Action =
    | Begin(scope: Scope, id: AttemptId, client: Party, host: Party, start: Option<Bytes>)
    | Finish(scope: Scope, id: AttemptId, client: Party, host: Party, proof: Option<Token>)
    | CancelScope(scope: Scope)
    | Timer(id: AttemptId, created: nat)   // the expiry timer of the attempt begun then
    | Revoke(token: Token)

  /** An action at a time, in milliseconds of a monotonic clock. */
  datatype Event = Event(now: nat, act: Action)

  datatype Reply = Started(response: Bytes) | Success(token: Token) | Failed | NoReply

  datatype Entry =
    | Begun(id: AttemptId, attempt: Attempt)
    | UsedUp(id: AttemptId)                                                     // a finish that failed
    | LoggedIn(id: AttemptId, attempt: Attempt, now: nat, token: Token)         // a finish that succeeded, as requested
    | ScopeCancelled(scope: Scope)
    | Revoked(token: Token)

  datatype State = State(
    pending: map<AttemptId, Attempt>,
    sessions: map<Token, nat>,     // when each token was issued
    log: seq<Entry>)               // the history

  const INITIAL: State := State(map[], map[], [])

  predicate Young(a: Attempt, now: nat) { now < a.created + ATTEMPT_LIFETIME_MS }

  function Fresh(pending: map<AttemptId, Attempt>, now: nat): map<AttemptId, Attempt> {
    map id | id in pending && Young(pending[id], now) :: pending[id]
  }

  function OutsideScope(p: map<AttemptId, Attempt>, scope: Scope): map<AttemptId, Attempt> {
    map id | id in p && p[id].scope != scope :: p[id]
  }

  function StepBegin(s: State, now: nat, a: Action): (State, Reply)
    requires a.Begin?
  {
    if a.id == [] || |a.id| > MAX_ID || a.scope == [] || a.start.None? then (s, Failed)
    else
      var young := Fresh(s.pending, now);
      if a.id in young || |young| >= MAX_PENDING then (s.(pending := young), Failed)
      else
        var attempt := Attempt(a.scope, a.client, a.host, now);
        (s.(pending := young[a.id := attempt], log := s.log + [Begun(a.id, attempt)]), Started(a.start.value))
  }

  /** Whatever happens next, the attempt is used up. */
  function StepFinish(s: State, now: nat, a: Action): (State, Reply)
    requires a.Finish?
  {
    if a.id !in s.pending then (s.(log := s.log + [UsedUp(a.id)]), Failed)
    else
      var p := s.pending[a.id];
      var s' := s.(pending := s.pending - {a.id});
      if !Young(p, now) || p.scope != a.scope || p.client != a.client || p.host != a.host || a.proof.None?
      then (s'.(log := s.log + [UsedUp(a.id)]), Failed)
      else
        var asked := Attempt(a.scope, a.client, a.host, p.created);
        (s'.(sessions := s.sessions[a.proof.value := now],
             log := s.log + [LoggedIn(a.id, asked, now, a.proof.value)]), Success(a.proof.value))
  }

  function Step(s: State, e: Event): (State, Reply) {
    match e.act
    case Begin(_, _, _, _, _) => StepBegin(s, e.now, e.act)
    case Finish(_, _, _, _, _) => StepFinish(s, e.now, e.act)
    case CancelScope(scope) =>
      (s.(pending := OutsideScope(s.pending, scope),
          log := s.log + [ScopeCancelled(scope)]), NoReply)
    case Timer(id, created) =>
      if id in s.pending && s.pending[id].created == created
      then (s.(pending := s.pending - {id}), NoReply) else (s, NoReply)
    case Revoke(token) =>
      (s.(sessions := s.sessions - {token}, log := s.log + [Revoked(token)]), NoReply)
  }

  function Run(s: State, es: seq<Event>): State {
    if es == [] then s else Step(Run(s, es[..|es| - 1]), es[|es| - 1]).0
  }

  /** The answers to everything that is asked; a timer asks nothing. */
  function Replies(s: State, es: seq<Event>): seq<Reply> {
    if es == [] then []
    else
      Replies(s, es[..|es| - 1])
      + if es[|es| - 1].act.Timer? then [] else [Step(Run(s, es[..|es| - 1]), es[|es| - 1]).1]
  }

  /** The clock never goes back, and a timer fires only after its sleep. */
  predicate Timed(es: seq<Event>) {
    && (forall i, j :: 0 <= i < j < |es| ==> es[i].now <= es[j].now)
    && (forall i :: 0 <= i < |es| && es[i].act.Timer? ==> es[i].now >= es[i].act.created + ATTEMPT_LIFETIME_MS)
  }

  /** Valid for nine hours from issue. */
  predicate VerifyToken(s: State, now: nat, token: Token) {
    token in s.sessions && (if now < s.sessions[token] then 0 else now - s.sessions[token]) / 1000 < TOKEN_LIFETIME_S
  }

  // ----- At most 128 pending -----

  lemma FreshSmaller(p: map<AttemptId, Attempt>, q: map<AttemptId, Attempt>)
    requires forall k :: k in q ==> k in p
    ensures |q| <= |p|
  {
    assert q.Keys <= p.Keys;
    assert p.Keys == q.Keys + (p.Keys - q.Keys);
    assert |q| == |q.Keys| && |p| == |p.Keys|;
  }

  lemma {:induction false} PendingBounded(es: seq<Event>)
    ensures |Run(INITIAL, es).pending| <= MAX_PENDING
  {
    if es != [] {
      var s, e := Run(INITIAL, es[..|es| - 1]), es[|es| - 1];
      PendingBounded(es[..|es| - 1]);
      FreshSmaller(s.pending, Fresh(s.pending, e.now));
      if !e.act.Begin? {
        FreshSmaller(s.pending, Step(s, e).0.pending);
      }
    }
  }

  // ----- What a success is worth -----

  /** Entry k began this attempt, and nothing since has cancelled its scope, used its id or begun it again. */
  predicate StandsSince(log: seq<Entry>, k: nat, id: AttemptId, a: Attempt) {
    && k < |log| && log[k] == Begun(id, a)
    && forall m :: k < m < |log| ==>
         && log[m] != ScopeCancelled(a.scope)
         && !((log[m].UsedUp? || log[m].LoggedIn?) && log[m].id == id)
         && !(log[m].Begun? && log[m].id == id)
  }

  ghost predicate Stands(log: seq<Entry>, id: AttemptId, a: Attempt) {
    exists k :: StandsSince(log, k, id, a)
  }

  ghost predicate Earned(before: seq<Entry>, e: Entry) {
    e.LoggedIn? ==> Young(e.attempt, e.now) && Stands(before, e.id, e.attempt)
  }

  /** Entry k issued this token at this time, and nothing since has revoked it. */
  predicate IssuedAt(log: seq<Entry>, k: nat, token: Token, at: nat) {
    && k < |log| && log[k].LoggedIn? && log[k].token == token && log[k].now == at
    && forall m :: k < m < |log| ==> log[m] != Revoked(token)
  }

  ghost predicate History(s: State) {
    && (forall id :: id in s.pending ==> Stands(s.log, id, s.pending[id]))
    && (forall i :: 0 <= i < |s.log| ==> Earned(s.log[..i], s.log[i]))
    && (forall t :: t in s.sessions ==> exists k :: IssuedAt(s.log, k, t, s.sessions[t]))
  }

  predicate Disturbs(e: Entry, id: AttemptId, a: Attempt) {
    e == ScopeCancelled(a.scope) || ((e.UsedUp? || e.LoggedIn?) && e.id == id) || (e.Begun? && e.id == id)
  }

  lemma StandsOn(log: seq<Entry>, e: Entry, id: AttemptId, a: Attempt)
    requires Stands(log, id, a) && !Disturbs(e, id, a)
    ensures Stands(log + [e], id, a)
  {
    var k :| StandsSince(log, k, id, a);
    assert StandsSince(log + [e], k, id, a);
  }

  lemma IssuedOn(log: seq<Entry>, e: Entry, token: Token, at: nat)
    requires (exists k :: IssuedAt(log, k, token, at)) && e != Revoked(token)
    ensures exists k :: IssuedAt(log + [e], k, token, at)
  {
    var k :| IssuedAt(log, k, token, at);
    assert IssuedAt(log + [e], k, token, at);
  }

  /** Adding an entry keeps the history when what stays pending or issued is not disturbed by it. */
  lemma Append(s: State, s': State, e: Entry)
    requires History(s) && s'.log == s.log + [e] && Earned(s.log, e)
    requires forall id :: id in s'.pending ==>
               (id in s.pending && s.pending[id] == s'.pending[id] && !Disturbs(e, id, s.pending[id]))
               || e == Begun(id, s'.pending[id])
    requires forall t :: t in s'.sessions ==>
               (t in s.sessions && s.sessions[t] == s'.sessions[t] && e != Revoked(t))
               || (e.LoggedIn? && e.token == t && e.now == s'.sessions[t])
    ensures History(s')
  {
    forall id | id in s'.pending ensures Stands(s'.log, id, s'.pending[id]) {
      if e == Begun(id, s'.pending[id]) {
        assert StandsSince(s'.log, |s.log|, id, s'.pending[id]);
      } else {
        StandsOn(s.log, e, id, s.pending[id]);
      }
    }
    forall i | 0 <= i < |s'.log| ensures Earned(s'.log[..i], s'.log[i]) {
      if i < |s.log| { assert s'.log[..i] == s.log[..i]; } else { assert s'.log[..i] == s.log; }
    }
    forall t | t in s'.sessions ensures exists k :: IssuedAt(s'.log, k, t, s'.sessions[t]) {
      if e.LoggedIn? && e.token == t && e.now == s'.sessions[t] {
        assert IssuedAt(s'.log, |s.log|, t, s'.sessions[t]);
      } else {
        IssuedOn(s.log, e, t, s.sessions[t]);
      }
    }
  }

  lemma Fewer(s: State, s': State)
    requires History(s) && s'.log == s.log && s'.sessions == s.sessions
    requires forall id :: id in s'.pending ==> id in s.pending && s'.pending[id] == s.pending[id]
    ensures History(s')
  {}

  lemma BeginKeepsHistory(s: State, now: nat, a: Action)
    requires History(s) && a.Begin?
    ensures History(StepBegin(s, now, a).0)
  {
    hide History;
    var s' := StepBegin(s, now, a).0;
    if StepBegin(s, now, a).1.Started? {
      Append(s, s', Begun(a.id, Attempt(a.scope, a.client, a.host, now)));
    } else {
      Fewer(s, s');
    }
  }

  lemma FinishKeepsHistory(s: State, now: nat, a: Action)
    requires History(s) && a.Finish?
    ensures History(StepFinish(s, now, a).0)
  {
    var s' := StepFinish(s, now, a).0;
    var e := s'.log[|s.log|];
    if e.LoggedIn? {
      assert Stands(s.log, a.id, s.pending[a.id]);
    }
    Append(s, s', e);
  }

  lemma StepKeepsHistory(s: State, e: Event)
    requires History(s)
    ensures History(Step(s, e).0)
  {
    hide History, StepBegin, StepFinish;
    var s' := Step(s, e).0;
    match e.act
    case Begin(_, _, _, _, _) => BeginKeepsHistory(s, e.now, e.act);
    case Finish(_, _, _, _, _) => FinishKeepsHistory(s, e.now, e.act);
    case CancelScope(scope) => Append(s, s', ScopeCancelled(scope));
    case Timer(_, _) => Fewer(s, s');
    case Revoke(token) => Append(s, s', Revoked(token));
  }

  /**
   In every run a login succeeds only for an attempt begun with the same scope, id, client and host less than
   30 s earlier, which nothing has cancelled, used or begun again since; and every token on the table was
   issued by such a success and not revoked.
   */
  lemma {:induction false} SuccessesEarned(es: seq<Event>)
    ensures History(Run(INITIAL, es))
  {
    hide Step, History;
    if es != [] {
      SuccessesEarned(es[..|es| - 1]);
      StepKeepsHistory(Run(INITIAL, es[..|es| - 1]), es[|es| - 1]);
    } else {
      InitialHistory();
    }
  }

  lemma InitialHistory()
    ensures History(INITIAL)
  {}

  /** How often an attempt under this id was begun. */
  function Begins(log: seq<Entry>, id: AttemptId): nat {
    if log == [] then 0
    else Begins(log[..|log| - 1], id) + if log[|log| - 1].Begun? && log[|log| - 1].id == id then 1 else 0
  }

  /** How often a login under this id succeeded. */
  function Wins(log: seq<Entry>, id: AttemptId): nat {
    if log == [] then 0
    else Wins(log[..|log| - 1], id) + if log[|log| - 1].LoggedIn? && log[|log| - 1].id == id then 1 else 0
  }

  lemma CountsOn(log: seq<Entry>, e: Entry, id: AttemptId)
    ensures Begins(log + [e], id) == Begins(log, id) + if e.Begun? && e.id == id then 1 else 0
    ensures Wins(log + [e], id) == Wins(log, id) + if e.LoggedIn? && e.id == id then 1 else 0
  {
    assert (log + [e])[..|log|] == log;
  }

  /** What an id has been good for, and can still be good for, is at most what was begun under it. */
  predicate WinsCovered(s: State, id: AttemptId) {
    Wins(s.log, id) + (if id in s.pending then 1 else 0) <= Begins(s.log, id)
  }

  lemma StepKeepsWinsCovered(s: State, e: Event, id: AttemptId)
    requires WinsCovered(s, id)
    ensures WinsCovered(Step(s, e).0, id)
  {
    var s' := Step(s, e).0;
    if |s'.log| > |s.log| {
      assert s'.log == s.log + [s'.log[|s.log|]];
      CountsOn(s.log, s'.log[|s.log|], id);
    }
  }

  /**
   Each begun attempt yields at most one success: in every run, and so at every moment of it, an id has succeeded at
   most as often as attempts were begun under it, not counting one that is still pending.
   */
  lemma {:induction false} AtMostOneSuccess(es: seq<Event>, id: AttemptId)
    ensures WinsCovered(Run(INITIAL, es), id)
  {
    hide Step, WinsCovered;
    if es == [] {
      NothingWonYet(id);
    } else {
      AtMostOneSuccess(es[..|es| - 1], id);
      StepKeepsWinsCovered(Run(INITIAL, es[..|es| - 1]), es[|es| - 1], id);
    }
  }

  lemma NothingWonYet(id: AttemptId)
    ensures WinsCovered(INITIAL, id)
  {}

  /** And in every run, between two successes under one id the attempt of the second was begun. */
  lemma BegunBetweenSuccesses(es: seq<Event>, i: nat, j: nat)
    requires i < j < |Run(INITIAL, es).log|
    requires Run(INITIAL, es).log[i].LoggedIn? && Run(INITIAL, es).log[j].LoggedIn?
    requires Run(INITIAL, es).log[i].id == Run(INITIAL, es).log[j].id
    ensures var log := Run(INITIAL, es).log;
            exists k :: i < k < j && log[k] == Begun(log[j].id, log[j].attempt)
  {
    SuccessesEarned(es);
    var log := Run(INITIAL, es).log;
    assert Earned(log[..j], log[j]);
    var k: nat :| StandsSince(log[..j], k, log[j].id, log[j].attempt);
    assert log[..j][k] == log[k] && log[..j][i] == log[i];
    assert i < k;
  }

  /** A token that verifies was issued by a successful login in the last nine hours and not revoked since. */
  lemma VerifiedTokenWasIssued(es: seq<Event>, now: nat, token: Token)
    requires VerifyToken(Run(INITIAL, es), now, token)
    ensures exists k: nat, at: nat :: IssuedAt(Run(INITIAL, es).log, k, token, at) && now < at + TOKEN_LIFETIME_S * 1000
  {
    SuccessesEarned(es);
    var s := Run(INITIAL, es);
    var k :| IssuedAt(s.log, k, token, s.sessions[token]);
  }

  // ----- Timers -----

  /** A timer removes only an attempt that can no longer finish, whoever's it is. */
  lemma TimerRemovesExpired(s: State, e: Event)
    requires e.act.Timer? && e.now >= e.act.created + ATTEMPT_LIFETIME_MS
    ensures Fresh(Step(s, e).0.pending, e.now) == Fresh(s.pending, e.now)
  {}

  /**
   When the attempts under one id have distinct start instants, what a timer removes is the attempt that set it,
   never a later one with its id.
   */
  lemma TimerRemovesItsOwn(s: State, e: Event, own: Attempt, k: nat)
    requires History(s) && e.act.Timer? && own.created == e.act.created
    requires k < |s.log| && s.log[k] == Begun(e.act.id, own)
    requires forall i, j :: 0 <= i < j < |s.log| && s.log[i].Begun? && s.log[j].Begun?
                            && s.log[i].id == s.log[j].id == e.act.id ==>
               s.log[i].attempt.created != s.log[j].attempt.created
    requires e.act.id in s.pending && e.act.id !in Step(s, e).0.pending
    ensures StandsSince(s.log, k, e.act.id, own) && s.pending[e.act.id] == own
  {
    var m: nat :| StandsSince(s.log, m, e.act.id, s.pending[e.act.id]);
    assert s.log[m].attempt.created == s.log[k].attempt.created;
    assert m == k;
  }

  function WithoutTimers(es: seq<Event>): seq<Event> {
    if es == [] then []
    else WithoutTimers(es[..|es| - 1]) + if es[|es| - 1].act.Timer? then [] else [es[|es| - 1]]
  }

  /** Two states that differ only in attempts too old to finish. */
  predicate Alike(s: State, t: State, now: nat) {
    Fresh(s.pending, now) == Fresh(t.pending, now) && s.sessions == t.sessions && s.log == t.log
  }

  lemma AlikeLater(s: State, t: State, now: nat, later: nat)
    requires Alike(s, t, now) && now <= later
    ensures Alike(s, t, later)
  {
    assert Fresh(s.pending, later) == Fresh(Fresh(s.pending, now), later);
    assert Fresh(t.pending, later) == Fresh(Fresh(t.pending, now), later);
  }

  lemma FreshMember(s: State, t: State, now: nat, id: AttemptId)
    requires Alike(s, t, now)
    ensures (id in s.pending && Young(s.pending[id], now)) <==> (id in t.pending && Young(t.pending[id], now))
    ensures id in s.pending && Young(s.pending[id], now) ==> s.pending[id] == t.pending[id]
  {
    assert id in Fresh(s.pending, now) <==> id in Fresh(t.pending, now);
    if id in Fresh(s.pending, now) { assert Fresh(s.pending, now)[id] == Fresh(t.pending, now)[id]; }
  }

  lemma BeginAlike(s: State, t: State, now: nat, a: Action)
    requires Alike(s, t, now) && a.Begin?
    ensures StepBegin(s, now, a).1 == StepBegin(t, now, a).1
    ensures Alike(StepBegin(s, now, a).0, StepBegin(t, now, a).0, now)
  {}

  lemma FinishAlike(s: State, t: State, now: nat, a: Action)
    requires Alike(s, t, now) && a.Finish?
    ensures StepFinish(s, now, a).1 == StepFinish(t, now, a).1
    ensures Alike(StepFinish(s, now, a).0, StepFinish(t, now, a).0, now)
  {
    FreshMember(s, t, now, a.id);
    assert Fresh(s.pending - {a.id}, now) == Fresh(s.pending, now) - {a.id};
    assert Fresh(t.pending - {a.id}, now) == Fresh(t.pending, now) - {a.id};
  }

  lemma CancelAlike(s: State, t: State, now: nat, scope: Scope)
    requires Alike(s, t, now)
    ensures Fresh(OutsideScope(s.pending, scope), now) == Fresh(OutsideScope(t.pending, scope), now)
  {
    assert Fresh(OutsideScope(s.pending, scope), now) == OutsideScope(Fresh(s.pending, now), scope);
    assert Fresh(OutsideScope(t.pending, scope), now) == OutsideScope(Fresh(t.pending, now), scope);
  }

  lemma StepAlike(s: State, t: State, e: Event)
    requires Alike(s, t, e.now) && !e.act.Timer?
    ensures Step(s, e).1 == Step(t, e).1
    ensures Alike(Step(s, e).0, Step(t, e).0, e.now)
  {
    hide StepBegin, StepFinish;
    match e.act
    case Begin(_, _, _, _, _) => BeginAlike(s, t, e.now, e.act);
    case Finish(_, _, _, _, _) => FinishAlike(s, t, e.now, e.act);
    case CancelScope(scope) => CancelAlike(s, t, e.now, scope);
    case Revoke(_) =>
  }

  /**
   Timers only save memory: a run answers every request as the same run without its timers does, and leaves the
   same tokens and history.
   */
  lemma {:induction false} TimersUnobservable(es: seq<Event>)
    requires Timed(es)
    ensures Replies(INITIAL, es) == Replies(INITIAL, WithoutTimers(es))
    ensures es != [] ==> Alike(Run(INITIAL, es), Run(INITIAL, WithoutTimers(es)), es[|es| - 1].now)
  {
    if es != [] {
      var front, e := es[..|es| - 1], es[|es| - 1];
      var rest := WithoutTimers(front);
      TimersUnobservable(front);
      var s, t := Run(INITIAL, front), Run(INITIAL, rest);
      if front != [] {
        AlikeLater(s, t, front[|front| - 1].now, e.now);
      }
      if e.act.Timer? {
        TimerRemovesExpired(s, e);
        assert rest + [] == rest;
        assert Replies(INITIAL, front) + [] == Replies(INITIAL, front);
      } else {
        StepAlike(s, t, e);
        assert (rest + [e])[..|rest|] == rest;
      }
    }
  }
}
