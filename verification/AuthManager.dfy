/** The login table as it runs: two maps updated in place, with the history kept beside them. */
module AuthManager {
  import opened Wrappers
  import opened Bytes
  import opened Login

  class Manager {
    var pendingLogins: map<AttemptId, Attempt>
    var sessions: map<Token, nat>
    ghost var log: seq<Entry>

    ghost function View(): State
      reads this
    {
      State(pendingLogins, sessions, log)
    }

    constructor ()
      ensures View() == INITIAL
    {
      pendingLogins, sessions, log := map[], map[], [];
    }

    /** Begins an attempt; the caller starts its expiry timer when `created` is given. */
    method BeginOpaqueLogin(now: nat, scope: Scope, id: AttemptId, client: Party, host: Party, start: Option<Bytes>)
      returns (reply: Reply, created: Option<nat>)
      modifies this
      ensures (View(), reply) == Step(old(View()), Event(now, Begin(scope, id, client, host, start)))
      ensures created == if reply.Started? then Some(now) else None
    {
      reply, created := Failed, None;
      if id == [] || |id| > MAX_ID || scope == [] || start.None? { return; }
      pendingLogins :=
        map i | i in pendingLogins && now < pendingLogins[i].created + ATTEMPT_LIFETIME_MS :: pendingLogins[i];
      assert pendingLogins == Fresh(old(pendingLogins), now);
      if id in pendingLogins || |pendingLogins| >= MAX_PENDING { return; }
      pendingLogins := pendingLogins[id := Attempt(scope, client, host, now)];
      log := log + [Begun(id, Attempt(scope, client, host, now))];
      reply, created := Started(start.value), Some(now);
    }

    /** Finishes an attempt, which is removed whatever the outcome. */
    method FinishOpaqueLogin(now: nat, scope: Scope, id: AttemptId, client: Party, host: Party, proof: Option<Token>)
      returns (reply: Reply)
      modifies this
      ensures (View(), reply) == Step(old(View()), Event(now, Finish(scope, id, client, host, proof)))
    {
      reply := Failed;
      if id !in pendingLogins {
        log := log + [UsedUp(id)];
        return;
      }
      var pending := pendingLogins[id];
      pendingLogins := pendingLogins - {id};
      if now >= pending.created + ATTEMPT_LIFETIME_MS || pending.scope != scope || pending.client != client
         || pending.host != host || proof.None?
      {
        log := log + [UsedUp(id)];
        return;
      }
      sessions := sessions[proof.value := now];
      log := log + [LoggedIn(id, Attempt(scope, client, host, pending.created), now, proof.value)];
      reply := Success(proof.value);
    }

    method CancelOpaqueLoginsForScope(scope: Scope)
      modifies this
      ensures forall now :: View() == Step(old(View()), Event(now, CancelScope(scope))).0
    {
      pendingLogins := map i | i in pendingLogins && pendingLogins[i].scope != scope :: pendingLogins[i];
      log := log + [ScopeCancelled(scope)];
      assert pendingLogins == OutsideScope(old(pendingLogins), scope);
    }

    /** The body of an expiry timer, run when its sleep is over. */
    method Expire(id: AttemptId, created: nat)
      modifies this`pendingLogins
      ensures forall now :: View() == Step(old(View()), Event(now, Timer(id, created))).0
      ensures forall i :: i in pendingLogins <==>
                i in old(pendingLogins) && !(i == id && old(pendingLogins)[i].created == created)
      ensures forall i :: i in pendingLogins ==> pendingLogins[i] == old(pendingLogins)[i]
    {
      if id in pendingLogins && pendingLogins[id].created == created {
        pendingLogins := pendingLogins - {id};
      }
    }

    method RevokeToken(token: Token)
      modifies this
      ensures forall now :: View() == Step(old(View()), Event(now, Revoke(token))).0
      ensures pendingLogins == old(pendingLogins)
      ensures forall t :: t in sessions <==> t in old(sessions) && t != token
      ensures forall t :: t in sessions ==> sessions[t] == old(sessions)[t]
    {
      sessions := sessions - {token};
      log := log + [Revoked(token)];
    }
  }
}
