/**
 The sending half of signaling at lock granularity: any number of tasks that take the outbox lock, take a
 sequence number, sign and enqueue, beside tasks that take numbers for other channels without the lock.
 */
module Outbox {
  import opened Wrappers
  import Relay
  import RelayRuns

  type TaskId = nat

  /** Where a send task stands. Between `Locked` and `Released` it holds the lock. */
  datatype Stage =
    | Waiting
    | Locked
    | Numbered(n: nat)
    | Finished(sent: Option<nat>)   // the number enqueued, unless signing or sending failed
    | Released(sent: Option<nat>)

  datatype State = State(
    holder: Option<TaskId>,
    tasks: map<TaskId, Stage>,
    sequence: nat,        // the next number
    queue: seq<nat>)      // the numbers of the messages enqueued, in order

  datatype Action =
    | Spawn(t: TaskId)
    | Lock(t: TaskId)
    | TakeNumber(t: TaskId)
    | Enqueue(t: TaskId)
    | Fail(t: TaskId)     // signing or sending fails; the number is lost
    | Unlock(t: TaskId)
    | TakeUnlocked        // a number taken without the lock, never enqueued here

  const INITIAL: State := State(None, map[], 1, [])

  predicate At(s: State, t: TaskId, stage: Stage) { t in s.tasks && s.tasks[t] == stage }

  /** An action that is not enabled leaves the state alone. */
  function Step(s: State, a: Action): State {
    match a
    case Spawn(t) => if t in s.tasks then s else s.(tasks := s.tasks[t := Waiting])
    case Lock(t) =>
      if At(s, t, Waiting) && s.holder.None? then s.(holder := Some(t), tasks := s.tasks[t := Locked]) else s
    case TakeNumber(t) =>
      if At(s, t, Locked) then s.(tasks := s.tasks[t := Numbered(s.sequence)], sequence := s.sequence + 1) else s
    case Enqueue(t) =>
      if t in s.tasks && s.tasks[t].Numbered?
      then s.(tasks := s.tasks[t := Finished(Some(s.tasks[t].n))], queue := s.queue + [s.tasks[t].n]) else s
    case Fail(t) =>
      if t in s.tasks && s.tasks[t].Numbered? then s.(tasks := s.tasks[t := Finished(None)]) else s
    case Unlock(t) =>
      if t in s.tasks && s.tasks[t].Finished?
      then s.(holder := None, tasks := s.tasks[t := Released(s.tasks[t].sent)]) else s
    case TakeUnlocked => s.(sequence := s.sequence + 1)
  }

  function Run(s: State, acts: seq<Action>): State {
    if acts == [] then s else Step(Run(s, acts[..|acts| - 1]), acts[|acts| - 1])
  }

  predicate Increasing(q: seq<nat>) {
    forall i, j :: 0 <= i < j < |q| ==> q[i] < q[j]
  }

  predicate Holds(stage: Stage) { stage.Locked? || stage.Numbered? || stage.Finished? }

  ghost predicate Inv(s: State) {
    && (forall t :: t in s.tasks && Holds(s.tasks[t]) ==> s.holder == Some(t))
    && Increasing(s.queue)
    && (forall n :: n in s.queue ==> 1 <= n < s.sequence)
    && 1 <= s.sequence
    && (forall t :: t in s.tasks && s.tasks[t].Numbered? ==>
          1 <= s.tasks[t].n < s.sequence && forall n :: n in s.queue ==> n < s.tasks[t].n)
  }

  lemma StepKeepsInv(s: State, a: Action)
    requires Inv(s)
    ensures Inv(Step(s, a))
  {
    if a.Enqueue? && a.t in s.tasks && s.tasks[a.t].Numbered? {
      var q := Step(s, a).queue;
      forall i, j | 0 <= i < j < |q| ensures q[i] < q[j] {
        if j == |s.queue| { assert q[i] in s.queue; }
      }
    }
  }

  /** In every interleaving the queued numbers are strictly increasing from at least 1. */
  lemma {:induction false} QueueIncreases(acts: seq<Action>)
    ensures Inv(Run(INITIAL, acts))
  {
    if acts != [] {
      QueueIncreases(acts[..|acts| - 1]);
      StepKeepsInv(Run(INITIAL, acts[..|acts| - 1]), acts[|acts| - 1]);
    }
  }

  // ----- What is sent is queued -----

  function SentBy(stage: Stage): Option<nat> {
    match stage case Finished(sent) => sent case Released(sent) => sent case _ => None
  }

  predicate IsSent(s: State, t: TaskId, n: nat) { t in s.tasks && SentBy(s.tasks[t]) == Some(n) }

  /** Each number in the queue is one task's, and each number a task sent is in the queue. */
  ghost predicate Ledger(s: State) {
    && (forall n :: n in s.queue ==> exists t :: IsSent(s, t, n))
    && (forall t, n :: IsSent(s, t, n) ==> n in s.queue)
    && (forall t, u, n :: IsSent(s, t, n) && IsSent(s, u, n) ==> t == u)
    && (s.holder.Some? ==> s.holder.value in s.tasks && Holds(s.tasks[s.holder.value]))
  }

  lemma SentKept(s: State, a: Action, t: TaskId, n: nat)
    requires IsSent(s, t, n)
    ensures IsSent(Step(s, a), t, n)
  {}

  /** A number sent after a step was sent before it, or is the one the step enqueues and in no queue yet. */
  lemma SentBefore(s: State, a: Action, t: TaskId, n: nat)
    requires Inv(s) && Ledger(s) && IsSent(Step(s, a), t, n)
    ensures IsSent(s, t, n) || (a == Enqueue(t) && n !in s.queue && forall u :: !IsSent(s, u, n))
  {}

  lemma StepKeepsLedger(s: State, a: Action)
    requires Inv(s) && Ledger(s)
    ensures Ledger(Step(s, a))
  {
    var s' := Step(s, a);
    forall n | n in s'.queue ensures exists t :: IsSent(s', t, n) {
      if n in s.queue {
        var t :| IsSent(s, t, n);
        SentKept(s, a, t, n);
      } else {
        assert IsSent(s', a.t, n);
      }
    }
    forall t, n | IsSent(s', t, n) ensures n in s'.queue {
      if IsSent(s, t, n) { assert n in s.queue; } else { assert n == s'.queue[|s.queue|]; }
    }
    forall t, u, n | IsSent(s', t, n) && IsSent(s', u, n) ensures t == u {
      SentBefore(s, a, t, n);
      SentBefore(s, a, u, n);
    }
  }

  lemma {:induction false} RunKeepsLedger(acts: seq<Action>)
    ensures Ledger(Run(INITIAL, acts))
  {
    if acts != [] {
      RunKeepsLedger(acts[..|acts| - 1]);
      QueueIncreases(acts[..|acts| - 1]);
      StepKeepsLedger(Run(INITIAL, acts[..|acts| - 1]), acts[|acts| - 1]);
    }
  }

  /** In every interleaving the queue holds exactly the numbers of the messages sent, each from one sender. */
  lemma QueueIsWhatWasSent(acts: seq<Action>, n: nat)
    ensures var s := Run(INITIAL, acts);
            && (n in s.queue <==> exists t :: IsSent(s, t, n))
            && (forall t, u :: IsSent(s, t, n) && IsSent(s, u, n) ==> t == u)
  {
    RunKeepsLedger(acts);
  }

  /** A sender that finds the lock free enqueues the next number, and gives the lock back. */
  lemma SendGoesThrough(s: State, t: TaskId)
    requires t in s.tasks && s.tasks[t].Waiting? && s.holder.None?
    ensures var s' := Step(Step(Step(Step(s, Lock(t)), TakeNumber(t)), Enqueue(t)), Unlock(t));
            && s'.queue == s.queue + [s.sequence] && s'.sequence == s.sequence + 1 && s'.holder.None?
            && IsSent(s', t, s.sequence)
  {}

  /** A number taken for another channel in the meantime is skipped: none is ever used twice. */
  lemma OthersNumberSkipped(s: State, t: TaskId)
    requires t in s.tasks && s.tasks[t].Waiting? && s.holder.None?
    ensures var s' := Step(Step(Step(Step(s, Lock(t)), TakeUnlocked), TakeNumber(t)), Enqueue(t));
            s'.queue == s.queue + [s.sequence + 1] && s'.sequence == s.sequence + 2
  {}

  /** Whoever has the lock can always go on, so no sender waits for ever. */
  lemma HolderCanMove(acts: seq<Action>)
    requires Run(INITIAL, acts).holder.Some?
    ensures var s := Run(INITIAL, acts);
            var t := s.holder.value;
            || Step(s, TakeNumber(t)) != s || Step(s, Enqueue(t)) != s || Step(s, Unlock(t)).holder.None?
  {
    RunKeepsLedger(acts);
    var s := Run(INITIAL, acts);
    var t := s.holder.value;
    if s.tasks[t].Locked? { assert Step(s, TakeNumber(t)).sequence == s.sequence + 1; }
    if s.tasks[t].Numbered? { assert |Step(s, Enqueue(t)).queue| == |s.queue| + 1; }
  }

  // ----- The server at the other end -----

  /** What a registration remembers of its session is a number the server accepted under it. */
  predicate RemembersAccepted(s: Relay.State) {
    forall id :: id in s.peers ==>
      s.peers[id].lastSeq == 0 || (s.peers[id].session, s.peers[id].lastSeq) in s.accepted
  }

  lemma SendKeepsRemembered(c: Relay.Crypto, s: Relay.State, e: Relay.Event)
    requires RemembersAccepted(s) && e.act.Send?
    ensures RemembersAccepted(Relay.StepSend(c, s, e.now, e.wall, e.act.ch, e.act.msg))
  {
    hide Relay.Signed, Relay.Authorize, Relay.OpenWindow;
    var m := e.act.msg;
    if Relay.Consumes(c, s, e.wall, e.act.ch, m) {
      var s1 := Relay.Consume(s, m);
      assert (m.session, m.sequence) == s1.accepted[|s.accepted|];
      assert forall a :: a in s.accepted ==> a in s1.accepted;
      assert RemembersAccepted(s1);
      if Relay.Authorize(s1.peers, e.now, m) == Relay.Accepted {
        RelayRuns.AuthorizedTarget(s1.peers, e.now, m);
        DeliverKeepsRemembered(s1, e.now, e.act.ch, m);
      }
    }
  }

  lemma DeliverKeepsRemembered(s: Relay.State, now: nat, ch: Relay.Chan, m: Relay.Signal)
    requires RemembersAccepted(s) && m.from in s.peers && m.to in s.peers
    ensures RemembersAccepted(Relay.Deliver(s, now, ch, m))
  {
    RelayRuns.OpenWindowAdds(s.peers[m.to], now, m.from);
  }

  lemma AclKeepsRemembered(c: Relay.Crypto, s: Relay.State, wall: nat, a: Relay.Action)
    requires RemembersAccepted(s) && a.UpdateAcl?
    ensures RemembersAccepted(Relay.StepUpdateAcl(c, s, wall, a))
  {}

  lemma StepKeepsRemembered(c: Relay.Crypto, s: Relay.State, e: Relay.Event)
    requires RemembersAccepted(s)
    ensures RemembersAccepted(Relay.Step(c, s, e))
  {
    hide Relay.StepSend, Relay.StepUpdateAcl, Relay.HandshakeOk;
    if e.act.Send? {
      SendKeepsRemembered(c, s, e);
    } else if e.act.UpdateAcl? {
      AclKeepsRemembered(c, s, e.wall, e.act);
    }
  }

  lemma {:induction false} RunRemembersAccepted(c: Relay.Crypto, es: seq<Relay.Event>)
    ensures RemembersAccepted(Relay.Run(c, Relay.INITIAL, es))
  {
    hide Relay.Step;
    if es != [] {
      RunRemembersAccepted(c, es[..|es| - 1]);
      StepKeepsRemembered(c, Relay.Run(c, Relay.INITIAL, es[..|es| - 1]), es[|es| - 1]);
    }
  }

  /**
   Honest senders are never taken for replays: whatever the server has been sent by anyone, a signal that carries
   number k of an outbox queue is not refused as a replay as long as what the server accepted under its session came
   from earlier in that queue. Signals it refused do not matter.
   */
  lemma HonestSendersNeverReplay(
    c: Relay.Crypto, acts: seq<Action>, es: seq<Relay.Event>, wall: nat, m: Relay.Signal, k: nat)
    requires k < |Run(INITIAL, acts).queue| && m.sequence == Run(INITIAL, acts).queue[k]
    requires forall n :: (m.session, n) in Relay.Run(c, Relay.INITIAL, es).accepted ==>
               n in Run(INITIAL, acts).queue[..k]
    ensures Relay.Authenticate(c, Relay.Run(c, Relay.INITIAL, es).peers, wall, m) != Relay.Replay
  {
    var q, s := Run(INITIAL, acts).queue, Relay.Run(c, Relay.INITIAL, es);
    QueueIncreases(acts);
    RunRemembersAccepted(c, es);
    assert q[k] in q;
    hide Relay.Signed;
    if m.from in s.peers && s.peers[m.from].session == m.session {
      var last := s.peers[m.from].lastSeq;
      assert last == 0 || last in q[..k];
    }
  }
}
