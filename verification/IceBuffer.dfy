/**
 Remote ICE candidates at lock granularity: calls that add a candidate and calls that set the remote
 description, over the lock of the description state and the lock of the buffer. A candidate is named by the
 call that adds it.
 */
module IceBuffer {
  import opened Wrappers

  type Call = nat

  datatype Remote = Waiting | Set

  /** Where a call stands. */
  datatype Stage =
    | AddStart
    | AddChecked(seen: Remote)     // holds the state lock
    | AddBuffering                 // holds both locks
    | AddBuffered                  // holds both locks; the candidate is in the buffer
    | AddActed(buffered: bool)     // holds the state lock; the candidate is buffered or applied
    | AddDone(buffered: bool)
    | SetStart
    | SetFailed
    | SetDescribed                 // the peer connection took the description
    | SetHolding                   // holds the state lock
    | SetMarked                    // holds the state lock; the state is Set
    | SetFlush
    | SetDraining(rest: seq<Call>) // holds the buffer lock; `rest` is still to be applied
    | SetDone

  datatype State = State(
    remote: Remote,
    pending: seq<Call>,
    stateLock: Option<Call>,
    pendingLock: Option<Call>,
    calls: map<Call, Stage>,
    flushed: seq<Call>,   // handed to the peer connection by a flush, in order
    direct: seq<Call>,    // handed to it by the adding call itself
    pushed: seq<Call>)    // put into the buffer, in order of arrival

  datatype Action = Add(t: Call) | SetRemoteDescription(t: Call) | Go(t: Call, ok: bool)

  const INITIAL: State := State(Waiting, [], None, None, map[], [], [], [])

  predicate HoldsState(g: Stage) {
    g.AddChecked? || g.AddBuffering? || g.AddBuffered? || g.AddActed? || g.SetHolding? || g.SetMarked?
  }

  predicate HoldsPending(g: Stage) { g.AddBuffering? || g.AddBuffered? || g.SetDraining? }

  function At(s: State, t: Call, g: Stage): State { s.(calls := s.calls[t := g]) }

  /** The next move of call t, if it is not waiting for a lock. `ok` is the peer connection's answer. */
  function Move(s: State, t: Call, ok: bool): State
    requires t in s.calls
  {
    match s.calls[t]
    case AddStart => if s.stateLock.None? then At(s, t, AddChecked(s.remote)).(stateLock := Some(t)) else s
    case AddChecked(Waiting) => if s.pendingLock.None? then At(s, t, AddBuffering).(pendingLock := Some(t)) else s
    case AddChecked(Set) => At(s, t, AddActed(false)).(direct := s.direct + [t])
    case AddBuffering => At(s, t, AddBuffered).(pending := s.pending + [t], pushed := s.pushed + [t])
    case AddBuffered => At(s, t, AddActed(true)).(pendingLock := None)
    case AddActed(b) => At(s, t, AddDone(b)).(stateLock := None)
    case SetStart => At(s, t, if ok then SetDescribed else SetFailed)
    case SetDescribed => if s.stateLock.None? then At(s, t, SetHolding).(stateLock := Some(t)) else s
    case SetHolding => At(s, t, SetMarked).(remote := Set)
    case SetMarked => At(s, t, SetFlush).(stateLock := None)
    case SetFlush =>
      if s.pendingLock.None? then At(s, t, SetDraining(s.pending)).(pendingLock := Some(t), pending := []) else s
    case SetDraining(rest) =>
      if rest == [] then At(s, t, SetDone).(pendingLock := None)
      else At(s, t, SetDraining(rest[1..])).(flushed := s.flushed + [rest[0]])
    case _ => s
  }

  function Step(s: State, a: Action): State {
    match a
    case Add(t) => if t in s.calls then s else At(s, t, AddStart)
    case SetRemoteDescription(t) => if t in s.calls then s else At(s, t, SetStart)
    case Go(t, ok) => if t in s.calls then Move(s, t, ok) else s
  }

  function Run(s: State, acts: seq<Action>): State {
    if acts == [] then s else Step(Run(s, acts[..|acts| - 1]), acts[|acts| - 1])
  }

  // ----- What every interleaving keeps -----

  predicate NoDup(q: seq<Call>) {
    forall i, j :: 0 <= i < j < |q| ==> q[i] != q[j]
  }

  /** Candidates taken out of the buffer and not yet handed on. */
  function InFlight(s: State): seq<Call> {
    if s.pendingLock.Some? && s.pendingLock.value in s.calls && s.calls[s.pendingLock.value].SetDraining?
    then s.calls[s.pendingLock.value].rest else []
  }

  ghost predicate Locks(s: State) {
    && (forall t :: t in s.calls && HoldsState(s.calls[t]) ==> s.stateLock == Some(t))
    && (forall t :: t in s.calls && HoldsPending(s.calls[t]) ==> s.pendingLock == Some(t))
  }

  /** What a call has seen of the state is still so, and a description once set stays set. */
  ghost predicate Stable(s: State) {
    forall t :: t in s.calls ==>
      var g := s.calls[t];
      && (g.AddChecked? ==> g.seen == s.remote)
      && (g.AddBuffering? || g.AddBuffered? || (g.AddActed? && g.buffered) ==> s.remote == Waiting)
      && (g.SetMarked? || g.SetFlush? || g.SetDraining? || g.SetDone? ==> s.remote == Set)
  }

  predicate Buffered(g: Stage) { g.AddBuffered? || (g.AddActed? && g.buffered) || (g.AddDone? && g.buffered) }
  predicate Applied(g: Stage) { (g.AddActed? && !g.buffered) || (g.AddDone? && !g.buffered) }

  /** The buffer is a queue: what was buffered has been flushed, is in flight or is waiting, in order of arrival. */
  predicate Queued(s: State) {
    s.pushed == s.flushed + InFlight(s) + s.pending
  }

  /** Each call that has acted put its candidate in one place, once. */
  ghost predicate Conserved(s: State) {
    BufferedOnce(s) && AppliedOnce(s)
  }

  ghost predicate BufferedOnce(s: State) {
    NoDup(s.pushed) && forall t :: t in s.pushed <==> t in s.calls && Buffered(s.calls[t])
  }

  ghost predicate AppliedOnce(s: State) {
    NoDup(s.direct) && forall t :: t in s.direct <==> t in s.calls && Applied(s.calls[t])
  }

  /** A flush leaves the buffer empty from its start on, and nothing in flight after its end. */
  ghost predicate Drained(s: State) {
    && (forall t :: t in s.calls && (s.calls[t].SetDraining? || s.calls[t].SetDone?) ==> s.pending == [])
    && (forall t :: t in s.calls && s.calls[t].SetDone? ==> InFlight(s) == [])
  }

  ghost predicate Inv(s: State) {
    Locks(s) && Stable(s) && Queued(s) && Conserved(s) && Drained(s)
  }

  lemma MoveKeepsLocks(s: State, t: Call, ok: bool)
    requires Locks(s) && t in s.calls
    ensures Locks(Move(s, t, ok))
  {
    match s.calls[t] {
      case AddStart =>
      case AddChecked(seen) =>
      case AddBuffering =>
      case AddBuffered =>
      case AddActed(_) =>
      case SetStart =>
      case SetDescribed =>
      case SetHolding =>
      case SetMarked =>
      case SetFlush =>
      case SetDraining(rest) =>
      case _ =>
    }
  }

  lemma MoveKeepsStable(s: State, t: Call, ok: bool)
    requires Locks(s) && Stable(s) && t in s.calls
    ensures Stable(Move(s, t, ok))
  {
    match s.calls[t] {
      case SetHolding =>
        assert forall u :: u in s.calls && u != t ==> !HoldsState(s.calls[u]);
      case _ =>
    }
  }

  lemma MoveKeepsInFlight(s: State, t: Call, ok: bool)
    requires Locks(s) && t in s.calls && !s.calls[t].SetFlush? && !s.calls[t].SetDraining?
    ensures InFlight(Move(s, t, ok)) == InFlight(s)
    ensures s.calls[t].AddBuffering? ==> InFlight(s) == []
  {}

  lemma MoveKeepsQueued(s: State, t: Call, ok: bool)
    requires Locks(s) && Queued(s) && t in s.calls
    ensures Queued(Move(s, t, ok))
  {
    if s.calls[t].SetDraining? {
      var rest := s.calls[t].rest;
      assert InFlight(s) == rest;
      if rest != [] { assert rest == [rest[0]] + rest[1..]; }
    } else if !s.calls[t].SetFlush? {
      MoveKeepsInFlight(s, t, ok);
      hide Locks, InFlight;
    }
  }

  lemma NoDupAppend(q: seq<Call>, t: Call)
    ensures NoDup(q) && t !in q ==> NoDup(q + [t])
    ensures forall u :: u in q + [t] <==> u in q || u == t
  {}

  lemma MoveKeepsBuffered(s: State, t: Call, ok: bool)
    requires BufferedOnce(s) && t in s.calls
    ensures BufferedOnce(Move(s, t, ok))
  {
    NoDupAppend(s.pushed, t);
    hide NoDup;
  }

  lemma MoveKeepsApplied(s: State, t: Call, ok: bool)
    requires AppliedOnce(s) && t in s.calls
    ensures AppliedOnce(Move(s, t, ok))
  {
    NoDupAppend(s.direct, t);
    var s' := Move(s, t, ok);
    if s.calls[t] != AddChecked(Set) {
      assert s'.direct == s.direct && (Applied(s.calls[t]) <==> Applied(s'.calls[t]));
      hide NoDup, Move, Applied;
    }
  }

  lemma MoveKeepsConserved(s: State, t: Call, ok: bool)
    requires Conserved(s) && t in s.calls
    ensures Conserved(Move(s, t, ok))
  {
    MoveKeepsBuffered(s, t, ok);
    MoveKeepsApplied(s, t, ok);
  }

  lemma MoveKeepsDrained(s: State, t: Call, ok: bool)
    requires Locks(s) && Stable(s) && Drained(s) && t in s.calls
    ensures Drained(Move(s, t, ok))
  {
    var s' := Move(s, t, ok);
    match s.calls[t] {
      case AddBuffering =>
        assert s.remote == Waiting;
      case SetDraining(rest) =>
        assert s.pendingLock == Some(t) && InFlight(s) == rest;
      case SetFlush =>
      case _ =>
        MoveKeepsInFlight(s, t, ok);
    }
  }

  lemma StartKeepsInv(s: State, t: Call, g: Stage)
    requires Inv(s) && t !in s.calls && (g == AddStart || g == SetStart)
    ensures Inv(At(s, t, g))
  {
    var s' := At(s, t, g);
    assert InFlight(s') == InFlight(s);
  }

  /** In every interleaving: lock discipline, arrival order, each candidate in one place, nothing left behind. */
  lemma {:induction false} RunKeepsInv(acts: seq<Action>)
    ensures Inv(Run(INITIAL, acts))
  {
    hide Inv;
    if acts != [] {
      var s, a := Run(INITIAL, acts[..|acts| - 1]), acts[|acts| - 1];
      RunKeepsInv(acts[..|acts| - 1]);
      StepKeepsInv(s, a);
    } else {
      InitialInv();
    }
  }

  lemma InitialInv()
    ensures Inv(INITIAL)
  {}

  lemma StepKeepsInv(s: State, a: Action)
    requires Inv(s)
    ensures Inv(Step(s, a))
  {
    hide Move, Locks, Stable, Queued, Conserved, Drained;
    match a
    case Add(t) => if t !in s.calls { StartKeepsInv(s, t, AddStart); }
    case SetRemoteDescription(t) => if t !in s.calls { StartKeepsInv(s, t, SetStart); }
    case Go(t, ok) =>
      if t in s.calls {
        MoveKeepsLocks(s, t, ok);
        MoveKeepsStable(s, t, ok);
        MoveKeepsQueued(s, t, ok);
        MoveKeepsConserved(s, t, ok);
        MoveKeepsDrained(s, t, ok);
      }
  }

  // ----- The conservation law -----

  /** The add call has taken effect: its candidate was accepted. */
  predicate HasActed(s: State, t: Call) {
    t in s.calls && (Buffered(s.calls[t]) || Applied(s.calls[t]))
  }

  lemma {:induction false} CountNoDup(q: seq<Call>, t: Call)
    requires NoDup(q)
    ensures multiset(q)[t] == if t in q then 1 else 0
  {
    if q != [] {
      var front, last := q[..|q| - 1], q[|q| - 1];
      assert q == front + [last];
      CountNoDup(front, t);
      assert last !in front;
    }
  }

  /**
   ICE conservation: in every interleaving, once a successful set_remote_description has returned, the buffer is
   empty (and, as this holds of every longer run too, empty for good); the candidates handed to the peer connection,
   by flushes or directly, are those of the add calls that took effect, each exactly once; and the buffered ones
   went in order of arrival.
   */
  lemma CandidatesConserved(acts: seq<Action>, t: Call)
    requires var s := Run(INITIAL, acts); t in s.calls && s.calls[t] == SetDone
    ensures var s := Run(INITIAL, acts);
            && s.pending == []
            && s.flushed == s.pushed
            && (forall u :: multiset(s.flushed + s.direct)[u] == if HasActed(s, u) then 1 else 0)
  {
    var s := Run(INITIAL, acts);
    RunKeepsInv(acts);
    assert s.pushed == s.flushed;
    forall u ensures multiset(s.flushed + s.direct)[u] == if HasActed(s, u) then 1 else 0 {
      CountNoDup(s.flushed, u);
      CountNoDup(s.direct, u);
    }
  }

  lemma SetDoneStays(s: State, a: Action, t: Call)
    requires t in s.calls && s.calls[t] == SetDone
    ensures t in Step(s, a).calls && Step(s, a).calls[t] == SetDone
  {}

  /** Empty for good: whatever runs after a returned description call, the buffer is empty at the end of it. */
  lemma {:induction false} BufferEmptyForGood(before: seq<Action>, after: seq<Action>, t: Call)
    requires var s := Run(INITIAL, before); t in s.calls && s.calls[t] == SetDone
    ensures var s := Run(INITIAL, before + after); t in s.calls && s.calls[t] == SetDone && s.pending == []
  {
    if after == [] {
      assert before + after == before;
    } else {
      BufferEmptyForGood(before, after[..|after| - 1], t);
      assert (before + after)[..|before + after| - 1] == before + after[..|after| - 1];
      SetDoneStays(Run(INITIAL, before + after[..|after| - 1]), after[|after| - 1], t);
    }
    CandidatesConserved(before + after, t);
  }

  // ----- No deadlock -----

  /** Whoever has a lock is a call in a stage that gives it back. */
  predicate Held(s: State) {
    && (s.stateLock.Some? ==> s.stateLock.value in s.calls && HoldsState(s.calls[s.stateLock.value]))
    && (s.pendingLock.Some? ==> s.pendingLock.value in s.calls && HoldsPending(s.calls[s.pendingLock.value]))
  }

  predicate Ended(g: Stage) { g.AddDone? || g.SetDone? || g.SetFailed? }

  lemma MoveKeepsHeld(s: State, t: Call, ok: bool)
    requires Held(s) && Locks(s) && t in s.calls
    ensures Held(Move(s, t, ok))
  {}

  lemma {:induction false} RunKeepsHeld(acts: seq<Action>)
    ensures Held(Run(INITIAL, acts))
  {
    if acts != [] {
      var s, a := Run(INITIAL, acts[..|acts| - 1]), acts[|acts| - 1];
      RunKeepsHeld(acts[..|acts| - 1]);
      RunKeepsInv(acts[..|acts| - 1]);
      if a.Go? && a.t in s.calls { MoveKeepsHeld(s, a.t, a.ok); }
    }
  }

  /** Which call can move: the holder of the inner lock, else the holder of the outer one, else any. */
  function Mover(s: State, t: Call): Call {
    if s.pendingLock.Some? then s.pendingLock.value else if s.stateLock.Some? then s.stateLock.value else t
  }

  lemma MoverMoves(s: State, t: Call, ok: bool)
    requires Held(s) && t in s.calls && !Ended(s.calls[t])
    ensures var u := Mover(s, t); u in s.calls && Move(s, u, ok).calls[u] != s.calls[u]
  {}

  /** The two locks never deadlock: while a call has not ended, some call can move. */
  lemma NoDeadlock(acts: seq<Action>, t: Call, ok: bool)
    requires var s := Run(INITIAL, acts); t in s.calls && !Ended(s.calls[t])
    ensures exists u :: Step(Run(INITIAL, acts), Go(u, ok)) != Run(INITIAL, acts)
  {
    RunKeepsHeld(acts);
    var s := Run(INITIAL, acts);
    MoverMoves(s, t, ok);
    assert Step(s, Go(Mover(s, t), ok)) != s;
  }

  // ----- What a call comes to -----

  predicate Described(g: Stage) { g.SetMarked? || g.SetFlush? || g.SetDraining? || g.SetDone? }

  /** The description counts as set exactly from when some call whose description was taken has said so. */
  ghost predicate RemoteOk(s: State) {
    s.remote == Set <==> exists t :: t in s.calls && Described(s.calls[t])
  }

  lemma StepKeepsRemote(s: State, a: Action)
    requires RemoteOk(s)
    ensures RemoteOk(Step(s, a))
  {
    var s' := Step(s, a);
    if s.remote == Set {
      var t :| t in s.calls && Described(s.calls[t]);
      assert t in s'.calls && Described(s'.calls[t]);
    } else if s'.remote == Set {
      assert Described(s'.calls[a.t]);
    }
  }

  lemma {:induction false} RemoteExactly(acts: seq<Action>)
    ensures RemoteOk(Run(INITIAL, acts))
  {
    if acts != [] {
      RemoteExactly(acts[..|acts| - 1]);
      StepKeepsRemote(Run(INITIAL, acts[..|acts| - 1]), acts[|acts| - 1]);
    }
  }

  /** A description that the peer connection refuses changes nothing but its own call. */
  lemma RefusedDescription(s: State, t: Call)
    requires t in s.calls && s.calls[t] == SetStart
    ensures Step(s, Go(t, false)) == s.(calls := s.calls[t := SetFailed])
  {}

  /** The same call moved n times. */
  function Moves(s: State, t: Call, n: nat): State
    requires t in s.calls
    decreases n
  {
    if n == 0 then s else Moves(Move(s, t, true), t, n - 1)
  }

  /** The flush at its end. */
  function HandedOver(s: State, t: Call, rest: seq<Call>): State {
    s.(calls := s.calls[t := SetDone], pendingLock := None, flushed := s.flushed + rest)
  }

  lemma {:induction false} DrainGoesThrough(s: State, t: Call, rest: seq<Call>)
    requires t in s.calls && s.calls[t] == SetDraining(rest)
    ensures Moves(s, t, |rest| + 1) == HandedOver(s, t, rest)
    decreases |rest|
  {
    DrainMove(s, t, rest);
    MovesFirst(s, t, |rest|);
    hide Move, Moves, HandedOver;
    if rest != [] {
      DrainGoesThrough(Move(s, t, true), t, rest[1..]);
    }
  }

  lemma MovesFirst(s: State, t: Call, n: nat)
    requires t in s.calls
    ensures Moves(s, t, n + 1) == Moves(Move(s, t, true), t, n) && Moves(s, t, 0) == s
    ensures t in Move(s, t, true).calls && Moves(Move(s, t, true), t, 0) == Move(s, t, true)
  {}

  lemma DrainMove(s: State, t: Call, rest: seq<Call>)
    requires t in s.calls && s.calls[t] == SetDraining(rest)
    ensures var s1 := Move(s, t, true);
            if rest == [] then s1 == HandedOver(s, t, rest)
            else t in s1.calls && s1.calls[t] == SetDraining(rest[1..])
                 && HandedOver(s1, t, rest[1..]) == HandedOver(s, t, rest)
  {
    if rest == [] {
      assert s.flushed + [] == s.flushed;
    } else {
      assert s.flushed + [rest[0]] + rest[1..] == s.flushed + rest;
      MovedTwice(s.calls, t, SetDraining(rest[1..]), SetDone);
    }
  }

  lemma MovedTwice(calls: map<Call, Stage>, t: Call, g: Stage, h: Stage)
    ensures calls[t := g][t := h] == calls[t := h]
  {}

  /** Up to the flush: the description is taken, the state marked, the buffer emptied and its content in flight. */
  lemma FlushStarts(s: State, t: Call)
    requires t in s.calls && s.calls[t] == SetStart && s.stateLock.None? && s.pendingLock.None?
    ensures Moves(s, t, 5) == s.(calls := s.calls[t := SetDraining(s.pending)], remote := Set, pending := [],
                                 pendingLock := Some(t))
  {
    var s1 := Move(s, t, true);
    assert s1 == At(s, t, SetDescribed);
    var s2 := Move(s1, t, true);
    assert s2 == At(s, t, SetHolding).(stateLock := Some(t));
    var s3 := Move(s2, t, true);
    assert s3 == At(s, t, SetMarked).(stateLock := Some(t), remote := Set);
    var s4 := Move(s3, t, true);
    assert s4 == At(s, t, SetFlush).(remote := Set);
    var s5 := Move(s4, t, true);
    hide Move;
    assert Moves(s5, t, 0) == s5 && Moves(s4, t, 1) == s5 && Moves(s3, t, 2) == s5;
    assert Moves(s2, t, 3) == s5 && Moves(s1, t, 4) == s5;
  }

  lemma {:induction false} MovesOn(s: State, t: Call, m: nat, n: nat)
    requires t in s.calls
    ensures t in Moves(s, t, m).calls && Moves(s, t, m + n) == Moves(Moves(s, t, m), t, n)
    decreases m
  {
    if m > 0 { MovesOn(Move(s, t, true), t, m - 1, n); }
  }

  /** A description that is taken, with both locks free, hands over all that is buffered, in order of arrival. */
  lemma DescriptionGoesThrough(s: State, t: Call)
    requires t in s.calls && s.calls[t] == SetStart && s.stateLock.None? && s.pendingLock.None?
    ensures var s' := Moves(s, t, |s.pending| + 6);
            s' == s.(calls := s.calls[t := SetDone], remote := Set, pending := [], flushed := s.flushed + s.pending)
  {
    var s1 := s.(calls := s.calls[t := SetDraining(s.pending)], remote := Set, pending := [], pendingLock := Some(t));
    FlushStarts(s, t);
    hide Move, Moves;
    DrainGoesThrough(s1, t, s.pending);
    MovesOn(s, t, 5, |s.pending| + 1);
    MovedTwice(s.calls, t, SetDraining(s.pending), SetDone);
  }

  /** A candidate added with both locks free is buffered last before the description, and handed over after it. */
  lemma AddGoesThrough(s: State, t: Call)
    requires t in s.calls && s.calls[t] == AddStart && s.stateLock.None? && s.pendingLock.None?
    ensures if s.remote == Waiting
            then Moves(s, t, 5) == s.(calls := s.calls[t := AddDone(true)], pending := s.pending + [t],
                                      pushed := s.pushed + [t])
            else Moves(s, t, 3) == s.(calls := s.calls[t := AddDone(false)], direct := s.direct + [t])
  {
    var s1 := Move(s, t, true);
    var s2 := Move(s1, t, true);
    var s3 := Move(s2, t, true);
    var s4 := Move(s3, t, true);
    var s5 := Move(s4, t, true);
    assert s.remote == Waiting ==>
        s5 == s.(calls := s.calls[t := AddDone(true)], pending := s.pending + [t], pushed := s.pushed + [t]);
    assert s.remote == Set ==> s3 == s.(calls := s.calls[t := AddDone(false)], direct := s.direct + [t]);
    hide Move;
    assert Moves(s5, t, 0) == s5 && Moves(s4, t, 1) == s5 && Moves(s3, t, 2) == s5;
    assert Moves(s2, t, 3) == s5 && Moves(s1, t, 4) == s5;
    assert Moves(s3, t, 0) == s3 && Moves(s2, t, 1) == s3 && Moves(s1, t, 2) == s3;
  }
}
