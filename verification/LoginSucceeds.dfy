/** When logins succeed and tokens verify, in terms of what was asked of the host and when. */
module LoginSucceeds {
  import opened Wrappers
  import opened Login

  /** The reply to event n of a run. */
  function ReplyTo(es: seq<Event>, n: nat): Reply
    requires n < |es|
  {
    Step(Run(INITIAL, es[..n]), es[n]).1
  }

  /** Event b began an attempt under the id; no finish has named the id since, and no cancel its scope. */
  predicate Standing(es: seq<Event>, b: nat, id: AttemptId) {
    && b < |es| && es[b].act.Begin? && es[b].act.id == id && ReplyTo(es, b).Started?
    && forall m :: b < m < |es| ==>
         && !(es[m].act.Finish? && es[m].act.id == id)
         && es[m].act != CancelScope(es[b].act.scope)
  }

  /** The attempt that event b began. */
  function AttemptOf(es: seq<Event>, b: nat): Attempt
    requires b < |es| && es[b].act.Begin?
  {
    Attempt(es[b].act.scope, es[b].act.client, es[b].act.host, es[b].now)
  }

  predicate YoungAt(es: seq<Event>, b: nat, now: nat)
    requires b < |es|
  {
    now < es[b].now + 30_000
  }

  /** Every pending attempt was begun and still stands. */
  ghost predicate PendingStands(es: seq<Event>, s: State) {
    forall id :: id in s.pending ==> exists b: nat :: Standing(es, b, id) && s.pending[id] == AttemptOf(es, b)
  }

  /** Every attempt that stands and is young is pending. */
  ghost predicate StandingPends(es: seq<Event>, s: State, now: nat) {
    forall b: nat, id :: Standing(es, b, id) && YoungAt(es, b, now) ==>
      id in s.pending && s.pending[id] == AttemptOf(es, b)
  }

  function LastTime(es: seq<Event>): nat { if es == [] then 0 else es[|es| - 1].now }

  lemma StandingOn(es: seq<Event>, e: Event, b: nat, id: AttemptId)
    requires b < |es|
    ensures Standing(es + [e], b, id) <==>
              Standing(es, b, id) && !(e.act.Finish? && e.act.id == id) && e.act != CancelScope(es[b].act.scope)
  {
    var all := es + [e];
    assert all[b] == es[b] && all[..b] == es[..b];
    assert forall m :: b < m < |es| ==> all[m] == es[m];
    assert all[|es|] == e;
  }

  lemma BegunStands(es: seq<Event>, e: Event)
    requires e.act.Begin? && Step(Run(INITIAL, es), e).1.Started?
    ensures Standing(es + [e], |es|, e.act.id)
  {
    assert (es + [e])[..|es|] == es;
  }

  lemma StepPendingStands(es: seq<Event>, e: Event)
    requires PendingStands(es, Run(INITIAL, es))
    ensures PendingStands(es + [e], Step(Run(INITIAL, es), e).0)
  {
    var s := Run(INITIAL, es);
    var s' := Step(s, e).0;
    hide Run, ReplyTo;
    forall id | id in s'.pending
      ensures exists b: nat :: Standing(es + [e], b, id) && s'.pending[id] == AttemptOf(es + [e], b)
    {
      if e.act.Begin? && e.act.id == id && Step(s, e).1.Started? {
        BegunStands(es, e);
        assert AttemptOf(es + [e], |es|) == s'.pending[id];
      } else {
        var b: nat :| Standing(es, b, id) && s.pending[id] == AttemptOf(es, b);
        StandingOn(es, e, b, id);
        assert AttemptOf(es + [e], b) == s.pending[id];
      }
    }
  }

  lemma StepStandingPends(es: seq<Event>, e: Event)
    requires Timed(es + [e]) && StandingPends(es, Run(INITIAL, es), LastTime(es))
    ensures StandingPends(es + [e], Step(Run(INITIAL, es), e).0, e.now)
  {
    var s := Run(INITIAL, es);
    var s' := Step(s, e).0;
    var all := es + [e];
    assert all[|es|] == e && (es != [] ==> all[|es| - 1] == es[|es| - 1]);
    forall b: nat, id | Standing(all, b, id) && YoungAt(all, b, e.now)
      ensures id in s'.pending && s'.pending[id] == AttemptOf(all, b)
    {
      if b < |es| {
        assert all[b] == es[b];
        StandingOn(es, e, b, id);
        StaysPending(s, e, id);
      } else {
        assert all[..|es|] == es;
      }
    }
  }

  /** Nothing but a finish of its id or a cancel of its scope touches a young attempt. */
  lemma StaysPending(s: State, e: Event, id: AttemptId)
    requires id in s.pending && Young(s.pending[id], e.now)
    requires !(e.act.Finish? && e.act.id == id) && e.act != CancelScope(s.pending[id].scope)
    requires e.act.Timer? ==> e.now >= e.act.created + ATTEMPT_LIFETIME_MS
    ensures id in Step(s, e).0.pending && Step(s, e).0.pending[id] == s.pending[id]
  {}

  lemma {:induction false} PendingIsStanding(es: seq<Event>)
    requires Timed(es)
    ensures PendingStands(es, Run(INITIAL, es)) && StandingPends(es, Run(INITIAL, es), LastTime(es))
  {
    if es != [] {
      var front, e := es[..|es| - 1], es[|es| - 1];
      assert es == front + [e];
      assert Timed(front) by { assert forall i :: 0 <= i < |front| ==> front[i] == es[i]; }
      PendingIsStanding(front);
      StepPendingStands(front, e);
      StepStandingPends(front, e);
    }
  }

  /** A younger moment sees every attempt that a later one sees young. */
  lemma YoungBefore(es: seq<Event>, s: State, earlier: nat, now: nat)
    requires StandingPends(es, s, earlier) && earlier <= now
    ensures StandingPends(es, s, now)
  {}

  /**
   A finish succeeds, with the token its proof gives, exactly when there is a proof and an attempt begun less than
   30 s earlier with the same scope, id, client and host, whose id no finish has named since and whose scope no cancel.
   */
  lemma FinishSucceedsExactly(es: seq<Event>, e: Event)
    requires Timed(es + [e]) && e.act.Finish?
    ensures var reply := Step(Run(INITIAL, es), e).1;
            && (reply.Success? <==>
                  && e.act.proof.Some?
                  && exists b: nat :: Standing(es, b, e.act.id) && YoungAt(es, b, e.now)
                                 && AttemptOf(es, b) == Attempt(e.act.scope, e.act.client, e.act.host, es[b].now))
            && (reply.Success? ==> reply == Success(e.act.proof.value))
            && (!reply.Success? ==> reply == Failed)
  {
    var all := es + [e];
    assert Timed(es) by { assert forall i :: 0 <= i < |es| ==> all[i] == es[i]; }
    assert all[|es|] == e && (es != [] ==> all[|es| - 1] == es[|es| - 1]);
    PendingIsStanding(es);
    var s := Run(INITIAL, es);
    YoungBefore(es, s, LastTime(es), e.now);
    if e.act.id in s.pending {
      var b: nat :| Standing(es, b, e.act.id) && s.pending[e.act.id] == AttemptOf(es, b);
    }
  }

  /**
   A begin starts an attempt exactly when its id has 1 to 128 bytes, its scope is not empty, the library accepts the
   request, and of the attempts younger than 30 s none has the id and fewer than 128 are pending.
   */
  lemma BeginStartsExactly(s: State, e: Event)
    requires e.act.Begin?
    ensures var young := set id | id in s.pending && e.now < s.pending[id].created + 30_000;
            var (s', reply) := Step(s, e);
            && (reply.Started? <==>
                  && 1 <= |e.act.id| <= 128 && e.act.scope != [] && e.act.start.Some?
                  && e.act.id !in young && |young| < 128)
            && (reply.Started? ==>
                  && reply == Started(e.act.start.value)
                  && s'.pending.Keys == young + {e.act.id}
                  && s'.pending[e.act.id] == Attempt(e.act.scope, e.act.client, e.act.host, e.now))
            && (!reply.Started? ==> reply == Failed)
            && (1 <= |e.act.id| <= 128 && e.act.scope != [] && e.act.start.Some? && !reply.Started? ==>
                  s'.pending.Keys == young)
  {
    var young := set id | id in s.pending && e.now < s.pending[id].created + 30_000;
    assert Fresh(s.pending, e.now).Keys == young;
    assert |Fresh(s.pending, e.now)| == |young|;
  }

  // ----- Tokens -----

  /** Event f was answered with this token, and no revocation has named it since. */
  predicate Issues(es: seq<Event>, f: nat, token: Token) {
    && f < |es| && es[f].act.Finish? && ReplyTo(es, f) == Success(token)
    && forall m :: f < m < |es| ==> es[m].act != Revoke(token)
  }

  lemma IssuesOn(es: seq<Event>, e: Event, f: nat, token: Token)
    requires f < |es|
    ensures Issues(es + [e], f, token) <==> Issues(es, f, token) && e.act != Revoke(token)
  {
    var all := es + [e];
    assert all[f] == es[f] && all[..f] == es[..f] && all[|es|] == e;
    assert forall m :: f < m < |es| ==> all[m] == es[m];
  }

  /** The table holds the last time each token was issued and not revoked since. */
  ghost predicate TableOk(es: seq<Event>, s: State) {
    && (forall t :: t in s.sessions ==> exists f: nat :: Issues(es, f, t) && s.sessions[t] == es[f].now)
    && (forall f: nat, t :: Issues(es, f, t) ==> t in s.sessions && es[f].now <= s.sessions[t])
  }

  /** Only a success adds to the table, and only a revocation takes from it. */
  lemma TableStep(s: State, e: Event)
    ensures var (s', reply) := Step(s, e);
            s'.sessions == if reply.Success? then s.sessions[reply.token := e.now]
                           else if e.act.Revoke? then s.sessions - {e.act.token} else s.sessions
    ensures Step(s, e).1.Success? ==> e.act.Finish?
  {}

  /** What the last event of a run does to the table. */
  lemma LastTableStep(es: seq<Event>, e: Event)
    ensures var all, s := es + [e], Run(INITIAL, es);
            && ReplyTo(all, |es|) == Step(s, e).1 && all[|es|] == e
            && (ReplyTo(all, |es|).Success? ==> e.act.Finish?)
            && Step(s, e).0.sessions ==
               if ReplyTo(all, |es|).Success? then s.sessions[ReplyTo(all, |es|).token := e.now]
               else if e.act.Revoke? then s.sessions - {e.act.token} else s.sessions
  {
    assert (es + [e])[..|es|] == es;
    TableStep(Run(INITIAL, es), e);
    hide Run, Step;
  }

  lemma TableIsIssued(es: seq<Event>, e: Event)
    requires Timed(es + [e]) && TableOk(es, Run(INITIAL, es))
    ensures var all, s' := es + [e], Step(Run(INITIAL, es), e).0;
            forall t :: t in s'.sessions ==> exists f: nat :: Issues(all, f, t) && s'.sessions[t] == all[f].now
  {
    var s, all := Run(INITIAL, es), es + [e];
    var s' := Step(s, e).0;
    LastTableStep(es, e);
    hide Run, Step, ReplyTo;
    forall t | t in s'.sessions ensures exists f: nat :: Issues(all, f, t) && s'.sessions[t] == all[f].now {
      if ReplyTo(all, |es|) == Success(t) {
        assert Issues(all, |es|, t) && all[|es|] == e;
      } else {
        var f: nat :| Issues(es, f, t) && s.sessions[t] == es[f].now;
        IssuesOn(es, e, f, t);
        assert all[f] == es[f];
      }
    }
  }

  lemma IssuedIsInTable(es: seq<Event>, e: Event)
    requires Timed(es + [e]) && TableOk(es, Run(INITIAL, es))
    ensures var all, s' := es + [e], Step(Run(INITIAL, es), e).0;
            forall f: nat, t :: Issues(all, f, t) ==> t in s'.sessions && all[f].now <= s'.sessions[t]
  {
    var all, s' := es + [e], Step(Run(INITIAL, es), e).0;
    LastTableStep(es, e);
    hide Run, Step, ReplyTo;
    forall f: nat, t | Issues(all, f, t) ensures t in s'.sessions && all[f].now <= s'.sessions[t] {
      if f < |es| {
        IssuesOn(es, e, f, t);
        assert all[f] == es[f] && all[f].now <= all[|es|].now;
      }
    }
  }

  lemma {:induction false} RunTableOk(es: seq<Event>)
    requires Timed(es)
    ensures TableOk(es, Run(INITIAL, es))
  {
    if es != [] {
      var front, e := es[..|es| - 1], es[|es| - 1];
      assert es == front + [e];
      assert Timed(front) by { assert forall i :: 0 <= i < |front| ==> front[i] == es[i]; }
      RunTableOk(front);
      TableIsIssued(front, e);
      IssuedIsInTable(front, e);
    }
  }

  /**
   A token verifies exactly when a finish was answered with it less than nine hours ago and nothing has revoked it
   since.
   */
  lemma TokenVerifiesExactly(es: seq<Event>, now: nat, token: Token)
    requires Timed(es)
    ensures VerifyToken(Run(INITIAL, es), now, token)
            <==> exists f: nat :: Issues(es, f, token) && now < es[f].now + 9 * 3600 * 1000
  {
    RunTableOk(es);
    hide Run, Issues;
    var s := Run(INITIAL, es);
    if token in s.sessions { NineHours(now, s.sessions[token]); }
  }

  lemma NineHours(now: nat, issued: nat)
    ensures (if now < issued then 0 else now - issued) / 1000 < TOKEN_LIFETIME_S <==> now < issued + 9 * 3600 * 1000
  {}
}
