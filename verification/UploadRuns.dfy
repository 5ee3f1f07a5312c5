/** What every run of the receiver keeps, and what a completed upload is worth. */
module UploadRuns {
  import opened Wrappers
  import opened Bytes
  import opened Framing
  import opened Upload

  // ----- Flushing -----

  function Boundary(k: nat): nat { k * FLUSH_INTERVAL }

  /** A chunk is flushed exactly when it is final or it reaches or crosses a multiple of the interval. */
  lemma FlushDueExactly(isFinal: bool, was: nat, len: nat)
    ensures FlushDue(isFinal, was + len, len)
            <==> isFinal || exists k: nat :: was < Boundary(k) <= was + len
    ensures !FlushDue(isFinal, was + len, len) ==> (was + len) / FLUSH_INTERVAL == was / FLUSH_INTERVAL
  {
    var now := was + len;
    var k := now / FLUSH_INTERVAL;
    assert now == Boundary(k) + now % FLUSH_INTERVAL;
    if now % FLUSH_INTERVAL < len {
      assert was < Boundary(k) <= now;
    } else {
      assert Boundary(k) <= was;
      forall j: nat ensures !(was < Boundary(j) <= now) {
        if j <= k { assert Boundary(j) <= Boundary(k); } else { assert Boundary(j) >= Boundary(k + 1); }
      }
    }
  }

  // ----- One path, its part file and its live session -----

  /** The session's offset, cursor and hasher all agree with the part file. */
  predicate Attached(d: Disk, u: Session) {
    && u.path in d.parts
    && u.absorbed == d.parts[u.path].bytes
    && u.offset == |u.absorbed|
    && (u.handle.At? ==> u.handle.cursor == u.offset)
  }

  /** No multiple of the flush interval lies in the unflushed tail. */
  predicate TailShort(part: Part) {
    && part.flushed <= |part.bytes|
    && part.flushed / FLUSH_INTERVAL == |part.bytes| / FLUSH_INTERVAL
  }

  /** Every live session of the path agrees with its part file, and little of that is unflushed. */
  ghost predicate Sync(s: State, p: Path) {
    && (forall i :: i in s.sessions && s.sessions[i].path == p ==> Attached(s.disk, s.sessions[i]))
    && (p in s.disk.parts ==> TailShort(s.disk.parts[p]))
  }

  /** Another upload to the path is live. */
  ghost predicate Beside(s: State, p: Path, id: Id) {
    exists i :: i in s.sessions && i != id && s.sessions[i].path == p
  }

  /** The part file is opened afresh although it has bytes. */
  predicate Truncates(d: Disk, p: Path, resume: nat) {
    !Resumes(d, p, resume) && p in d.parts && d.parts[p].bytes != []
  }

  /**
   The event takes the part file from under another live upload to p: it opens p and truncates the file or finalizes
   at once, is an accepted frame for p that writes or is FINAL, or cancels an upload to p.
   */
  ghost predicate Disturbs(s: State, e: Event, p: Path) {
    match e
    case Init(id, _, path, _, total, resume) =>
      path == p && Beside(s, p, id) && (Truncates(s.disk, p, resume) || Opened(s.disk, e).1.offset == total)
    case Frame(data) =>
      Accepts(s, data)
      && var h := ParseFrameHeader(data).value;
         s.sessions[h.id].path == p && Beside(s, p, h.id) && (|data| > FRAME_HEADER_SIZE || IsFinal(h.flags))
    case Cancel(id) => id in s.sessions && s.sessions[id].path == p && Beside(s, p, id)
    case _ => false
  }

  /**
   A frame that an upload to p accepts carries the source's bytes at its own offset. Nothing is said about order,
   nor about frames that are not accepted.
   */
  predicate Honest(s: State, e: Event, p: Path, source: Bytes) {
    e.Frame? && Accepts(s, e.data) ==>
      var h := ParseFrameHeader(e.data).value;
      var chunk := e.data[FRAME_HEADER_SIZE..];
      s.sessions[h.id].path == p ==>
        h.offset + |chunk| <= |source| && chunk == source[h.offset..h.offset + |chunk|]
  }

  predicate PartIsPrefix(s: State, p: Path, source: Bytes) {
    p in s.disk.parts ==> s.disk.parts[p].bytes <= source
  }

  lemma AttachedWrite(u: Session, bytes: Bytes, chunk: Bytes)
    requires u.absorbed == bytes && u.offset == |bytes| && (u.handle.At? ==> u.handle.cursor == u.offset)
    ensures WriteThrough(bytes, u.handle, chunk) == u.absorbed + chunk
  {}

  /** The session that writes stays attached, whoever else is there. */
  lemma AcceptKeepsAttached(s: State, h: Header, chunk: Bytes)
    requires h.id in s.sessions && Attached(s.disk, s.sessions[h.id])
    ensures Attached(Accept(s, h, chunk).disk, Accept(s, h, chunk).sessions[h.id])
    ensures Accept(s, h, chunk).disk.parts[s.sessions[h.id].path].bytes == s.sessions[h.id].absorbed + chunk
  {
    var u := s.sessions[h.id];
    AttachedWrite(u, s.disk.parts[u.path].bytes, chunk);
  }

  lemma AcceptKeepsTail(s: State, h: Header, chunk: Bytes, p: Path)
    requires Sync(s, p) && h.id in s.sessions
    ensures p in Accept(s, h, chunk).disk.parts ==> TailShort(Accept(s, h, chunk).disk.parts[p])
    ensures s.sessions[h.id].path != p ==>
              (p in Accept(s, h, chunk).disk.parts <==> p in s.disk.parts)
              && (p in s.disk.parts ==> Accept(s, h, chunk).disk.parts[p] == s.disk.parts[p])
  {
    var u := s.sessions[h.id];
    if u.path == p {
      AttachedWrite(u, s.disk.parts[p].bytes, chunk);
      FlushDueExactly(IsFinal(h.flags), u.offset, |chunk|);
    }
  }

  lemma AcceptKeepsSync(s: State, h: Header, chunk: Bytes, p: Path)
    requires Sync(s, p) && h.id in s.sessions
    requires s.sessions[h.id].path == p && Beside(s, p, h.id) ==> chunk == []
    ensures Sync(Accept(s, h, chunk), p)
  {
    AcceptKeepsTail(s, h, chunk, p);
    var s', u := Accept(s, h, chunk), s.sessions[h.id];
    forall i | i in s'.sessions && s'.sessions[i].path == p ensures Attached(s'.disk, s'.sessions[i]) {
      if i == h.id {
        AcceptKeepsAttached(s, h, chunk);
      } else if u.path == p {
        assert Beside(s, p, h.id);
        AcceptKeepsAttached(s, h, chunk);
        assert u.absorbed + [] == u.absorbed;
      }
    }
  }

  lemma FinalizeKeepsSync(sha: Digest, s: State, id: Id, p: Path)
    requires Sync(s, p)
    requires id in s.sessions && s.sessions[id].path == p ==> !Beside(s, p, id)
    ensures Sync(FinalizeUpload(sha, s, id).0, p)
  {}

  lemma OpenKeepsSync(s: State, e: Event, p: Path)
    requires Sync(s, p) && e.Init?
    requires e.path == p && Beside(s, p, e.id) ==> !Truncates(s.disk, p, e.resume)
    ensures Sync(OpenState(s, e), p)
  {
    var s' := OpenState(s, e);
    forall i | i in s'.sessions && s'.sessions[i].path == p ensures Attached(s'.disk, s'.sessions[i]) {
      if i != e.id && e.path == p { assert Beside(s, p, e.id); }
    }
  }

  /** Who else is there is seen before and after the event's own session changes. */
  lemma BesideSame(s: State, s': State, p: Path, id: Id)
    requires s'.sessions - {id} == s.sessions - {id}
    ensures Beside(s', p, id) <==> Beside(s, p, id)
  {
    forall i | i != id ensures (i in s'.sessions <==> i in s.sessions)
                               && (i in s.sessions ==> s'.sessions[i] == s.sessions[i])
    {
      assert i in s'.sessions - {id} <==> i in s.sessions - {id};
      if i in s.sessions { assert (s'.sessions - {id})[i] == (s.sessions - {id})[i]; }
    }
  }

  lemma OpenAround(s: State, e: Event)
    requires e.Init?
    ensures OpenState(s, e).sessions - {e.id} == s.sessions - {e.id}
    ensures e.id in OpenState(s, e).sessions && OpenState(s, e).sessions[e.id].path == e.path
    ensures Attached(OpenState(s, e).disk, OpenState(s, e).sessions[e.id])
  {}

  lemma AcceptAround(s: State, h: Header, chunk: Bytes)
    requires h.id in s.sessions
    ensures Accept(s, h, chunk).sessions - {h.id} == s.sessions - {h.id}
    ensures h.id in Accept(s, h, chunk).sessions && Accept(s, h, chunk).sessions[h.id].path == s.sessions[h.id].path
  {}

  lemma InitKeepsSync(sha: Digest, s: State, e: Event, p: Path)
    requires Sync(s, p) && e.Init? && !Disturbs(s, e, p)
    ensures Sync(StepInit(sha, s, e).0, p)
  {
    var s1 := OpenState(s, e);
    OpenKeepsSync(s, e, p);
    OpenAround(s, e);
    BesideSame(s, s1, p, e.id);
    hide Sync, FinalizeUpload, Beside, Truncates;
    if s1.sessions[e.id].offset == s1.sessions[e.id].total { FinalizeKeepsSync(sha, s1, e.id, p); }
  }

  lemma FrameKeepsSync(sha: Digest, s: State, data: Bytes, p: Path)
    requires Sync(s, p) && !Disturbs(s, Frame(data), p)
    ensures Sync(StepFrame(sha, s, data).0, p)
  {
    hide Sync, FinalizeUpload, Beside, Accept;
    if Accepts(s, data) {
      var h, chunk := ParseFrameHeader(data).value, data[FRAME_HEADER_SIZE..];
      AcceptKeepsSync(s, h, chunk, p);
      AcceptAround(s, h, chunk);
      BesideSame(s, Accept(s, h, chunk), p, h.id);
      if IsFinal(h.flags) { FinalizeKeepsSync(sha, Accept(s, h, chunk), h.id, p); }
    }
  }

  lemma CancelKeepsSync(s: State, id: Id, p: Path)
    requires Sync(s, p) && !Disturbs(s, Cancel(id), p)
    ensures Sync(StepCancel(s, id).0, p)
  {}

  lemma StepKeepsSync(sha: Digest, s: State, e: Event, p: Path)
    requires Sync(s, p) && !Disturbs(s, e, p)
    ensures Sync(Step(sha, s, e).0, p)
  {
    hide StepInit, StepFrame, StepCancel, Disturbs;
    match e
    case Init(_, _, _, _, _, _) => InitKeepsSync(sha, s, e, p);
    case Frame(data) => FrameKeepsSync(sha, s, data, p);
    case Cancel(id) => CancelKeepsSync(s, id, p);
    case Disconnect(client) =>
    case Restart(kept) =>
  }

  // ----- Exactly what breaks the agreement -----

  /** A finalized upload leaves no part file, so any other to the path has lost its own. */
  lemma FinalizeBreaksSync(sha: Digest, s: State, id: Id, p: Path)
    requires id in s.sessions && s.sessions[id].path == p && p in s.disk.parts && Beside(s, p, id)
    ensures !Sync(FinalizeUpload(sha, s, id).0, p)
  {
    var i :| i in s.sessions && i != id && s.sessions[i].path == p;
    var s' := FinalizeUpload(sha, s, id).0;
    assert p !in s'.disk.parts && i in s'.sessions && s'.sessions[i].path == p;
  }

  lemma TruncateBreaksSync(s: State, e: Event, p: Path)
    requires Sync(s, p) && e.Init? && e.path == p && Beside(s, p, e.id) && Truncates(s.disk, p, e.resume)
    ensures !Sync(OpenState(s, e), p)
  {
    var i :| i in s.sessions && i != e.id && s.sessions[i].path == p;
    var s' := OpenState(s, e);
    assert Attached(s.disk, s.sessions[i]);
    assert s'.disk.parts[p].bytes == [] && i in s'.sessions && s'.sessions[i] == s.sessions[i];
  }

  lemma WriteBreaksSync(s: State, h: Header, chunk: Bytes, p: Path)
    requires Sync(s, p) && h.id in s.sessions && s.sessions[h.id].path == p && Beside(s, p, h.id) && chunk != []
    ensures !Sync(Accept(s, h, chunk), p)
  {
    var i :| i in s.sessions && i != h.id && s.sessions[i].path == p;
    var s' := Accept(s, h, chunk);
    AcceptKeepsAttached(s, h, chunk);
    assert Attached(s.disk, s.sessions[i]);
    assert |s'.disk.parts[p].bytes| == |s.disk.parts[p].bytes| + |chunk|;
    assert i in s'.sessions && s'.sessions[i] == s.sessions[i];
  }

  lemma InitBreaksSync(sha: Digest, s: State, e: Event, p: Path)
    requires Sync(s, p) && e.Init? && Disturbs(s, e, p)
    ensures !Sync(StepInit(sha, s, e).0, p)
  {
    var s1 := OpenState(s, e);
    OpenAround(s, e);
    BesideSame(s, s1, p, e.id);
    assert Opened(s.disk, e).1 == s1.sessions[e.id];
    assert s1.sessions[e.id].total == e.total;
    if s1.sessions[e.id].offset == e.total {
      FinalizeBreaksSync(sha, s1, e.id, p);
    } else {
      TruncateBreaksSync(s, e, p);
    }
  }

  lemma FrameBreaksSync(sha: Digest, s: State, data: Bytes, p: Path)
    requires Sync(s, p) && Disturbs(s, Frame(data), p)
    ensures !Sync(StepFrame(sha, s, data).0, p)
  {
    var h, chunk := ParseFrameHeader(data).value, data[FRAME_HEADER_SIZE..];
    var s1 := Accept(s, h, chunk);
    AcceptAround(s, h, chunk);
    BesideSame(s, s1, p, h.id);
    AcceptKeepsAttached(s, h, chunk);
    if IsFinal(h.flags) {
      FinalizeBreaksSync(sha, s1, h.id, p);
    } else {
      WriteBreaksSync(s, h, chunk, p);
    }
  }

  lemma CancelBreaksSync(s: State, id: Id, p: Path)
    requires Disturbs(s, Cancel(id), p)
    ensures !Sync(StepCancel(s, id).0, p)
  {
    var i :| i in s.sessions && i != id && s.sessions[i].path == p;
    var s' := StepCancel(s, id).0;
    assert p !in s'.disk.parts && i in s'.sessions && s'.sessions[i].path == p;
  }

  /**
   Exactly one thing breaks the agreement of the live sessions of a path with its part file: an event that takes the
   file from under another of them.
   */
  lemma StepSyncExactly(sha: Digest, s: State, e: Event, p: Path)
    requires Sync(s, p)
    ensures Sync(Step(sha, s, e).0, p) <==> !Disturbs(s, e, p)
  {
    hide StepInit, StepFrame, StepCancel, Sync;
    if !Disturbs(s, e, p) {
      StepKeepsSync(sha, s, e, p);
    } else if e.Init? {
      InitBreaksSync(sha, s, e, p);
    } else if e.Frame? {
      FrameBreaksSync(sha, s, e.data, p);
    } else {
      CancelBreaksSync(s, e.id, p);
    }
  }

  // ----- Whole runs -----

  /** No event of the run takes the part file of p from under another live upload. */
  ghost predicate UndisturbedRun(sha: Digest, s: State, es: seq<Event>, p: Path)
    decreases |es|
  {
    es == [] || (!Disturbs(s, es[0], p) && UndisturbedRun(sha, Step(sha, s, es[0]).0, es[1..], p))
  }

  ghost predicate HonestRun(sha: Digest, s: State, es: seq<Event>, p: Path, source: Bytes)
    decreases |es|
  {
    es == [] || (Honest(s, es[0], p, source) && HonestRun(sha, Step(sha, s, es[0]).0, es[1..], p, source))
  }

  /** In every undisturbed run, offset, cursor, hasher and part file agree. */
  lemma {:induction false} RunKeepsSync(sha: Digest, s: State, es: seq<Event>, p: Path)
    requires Sync(s, p) && UndisturbedRun(sha, s, es, p)
    ensures Sync(Run(sha, s, es).0, p)
    decreases |es|
  {
    hide Sync, Step, Disturbs;
    if es != [] {
      StepKeepsSync(sha, s, es[0], p);
      RunKeepsSync(sha, Step(sha, s, es[0]).0, es[1..], p);
    }
  }

  lemma RunFront(sha: Digest, s: State, es: seq<Event>, n: nat)
    requires 0 < n <= |es|
    ensures Run(sha, s, es[..n]).0 == Run(sha, Step(sha, s, es[0]).0, es[1..][..n - 1]).0
  {
    hide Step;
    assert es[..n][1..] == es[1..][..n - 1];
  }

  /** Over whole runs: every live session agrees with the part file at every moment exactly when no event disturbs. */
  lemma {:induction false} AlwaysSyncExactly(sha: Digest, s: State, es: seq<Event>, p: Path)
    requires Sync(s, p)
    ensures (forall n :: 0 <= n <= |es| ==> Sync(Run(sha, s, es[..n]).0, p)) <==> UndisturbedRun(sha, s, es, p)
    decreases |es|
  {
    hide Sync, Step, Disturbs;
    assert es[..0] == [];
    if es != [] {
      var s1, rest := Step(sha, s, es[0]).0, es[1..];
      StepSyncExactly(sha, s, es[0], p);
      forall n | 0 < n <= |es| ensures Run(sha, s, es[..n]).0 == Run(sha, s1, rest[..n - 1]).0 {
        RunFront(sha, s, es, n);
      }
      assert rest[..0] == [];
      if Sync(s1, p) {
        AlwaysSyncExactly(sha, s1, rest, p);
        forall n | 0 <= n <= |rest| ensures Run(sha, s1, rest[..n]).0 == Run(sha, s, es[..n + 1]).0 {
          RunFront(sha, s, es, n + 1);
        }
      } else {
        assert Run(sha, s, es[..1]).0 == s1;
      }
    }
  }

  // ----- One upload to a path at a time is enough -----

  ghost predicate OneLive(s: State, p: Path) {
    forall i, j :: i in s.sessions && j in s.sessions && s.sessions[i].path == p && s.sessions[j].path == p ==> i == j
  }

  /** No upload to p is opened beside a live one. */
  ghost predicate OneAtATime(sha: Digest, s: State, es: seq<Event>, p: Path)
    decreases |es|
  {
    es == [] || (&& (es[0].Init? && es[0].path == p ==> !Beside(s, p, es[0].id))
                 && OneAtATime(sha, Step(sha, s, es[0]).0, es[1..], p))
  }

  lemma StepKeepsOneLive(sha: Digest, s: State, e: Event, p: Path)
    requires OneLive(s, p) && (e.Init? && e.path == p ==> !Beside(s, p, e.id))
    ensures OneLive(Step(sha, s, e).0, p) && !Disturbs(s, e, p)
  {
    var s' := Step(sha, s, e).0;
    hide Step, Truncates;
    forall i | i in s'.sessions && s'.sessions[i].path == p
      ensures (i in s.sessions && s.sessions[i].path == p) || (e.Init? && e.path == p && i == e.id)
    {
      SessionsFrom(sha, s, e, i);
    }
  }

  /** Sessions keep their path, and only opening adds one. */
  lemma SessionsFrom(sha: Digest, s: State, e: Event, i: Id)
    ensures i in Step(sha, s, e).0.sessions && !(e.Init? && i == e.id) ==>
              i in s.sessions && Step(sha, s, e).0.sessions[i].path == s.sessions[i].path
    ensures e.Init? && e.id in Step(sha, s, e).0.sessions ==> Step(sha, s, e).0.sessions[e.id].path == e.path
  {}

  lemma {:induction false} OneAtATimeIsUndisturbed(sha: Digest, s: State, es: seq<Event>, p: Path)
    requires OneLive(s, p) && OneAtATime(sha, s, es, p)
    ensures UndisturbedRun(sha, s, es, p)
    decreases |es|
  {
    hide Step, OneLive, Disturbs, Beside;
    if es != [] {
      StepKeepsOneLive(sha, s, es[0], p);
      OneAtATimeIsUndisturbed(sha, Step(sha, s, es[0]).0, es[1..], p);
    }
  }

  // ----- The part file is a prefix of the source -----

  lemma FinalizeKeepsPrefix(sha: Digest, s: State, id: Id, p: Path, source: Bytes)
    requires PartIsPrefix(s, p, source)
    ensures PartIsPrefix(FinalizeUpload(sha, s, id).0, p, source)
  {}

  lemma AcceptKeepsPrefix(s: State, data: Bytes, p: Path, source: Bytes)
    requires Sync(s, p) && Accepts(s, data) && Honest(s, Frame(data), p, source) && PartIsPrefix(s, p, source)
    ensures PartIsPrefix(Accept(s, ParseFrameHeader(data).value, data[FRAME_HEADER_SIZE..]), p, source)
  {
    var h := ParseFrameHeader(data).value;
    var chunk := data[FRAME_HEADER_SIZE..];
    AcceptKeepsTail(s, h, chunk, p);
    if s.sessions[h.id].path == p {
      AcceptKeepsAttached(s, h, chunk);
      assert s.sessions[h.id].absorbed == source[..h.offset];
      assert source[..h.offset] + source[h.offset..h.offset + |chunk|] == source[..h.offset + |chunk|];
    }
  }

  lemma OpenKeepsPrefix(s: State, e: Event, p: Path, source: Bytes)
    requires e.Init? && PartIsPrefix(s, p, source)
    ensures PartIsPrefix(OpenState(s, e), p, source)
  {}

  lemma StepKeepsPrefix(sha: Digest, s: State, e: Event, p: Path, source: Bytes)
    requires Sync(s, p) && Honest(s, e, p, source) && PartIsPrefix(s, p, source)
    ensures PartIsPrefix(Step(sha, s, e).0, p, source)
  {
    match e
    case Init(_, _, _, _, _, _) =>
      OpenKeepsPrefix(s, e, p, source);
      FinalizeKeepsPrefix(sha, OpenState(s, e), e.id, p, source);
    case Frame(data) =>
      if Accepts(s, data) {
        var h := ParseFrameHeader(data).value;
        AcceptKeepsPrefix(s, data, p, source);
        FinalizeKeepsPrefix(sha, Accept(s, h, data[FRAME_HEADER_SIZE..]), h.id, p, source);
      }
    case Cancel(id) =>
    case Disconnect(client) =>
    case Restart(kept) =>
  }

  /**
   Whatever is duplicated, lost, reordered, cancelled, disconnected, resumed or restarted, the part
   file of an honest upload is a prefix of the source, and it is what every live session has counted and hashed.
   */
  lemma {:induction false} PartAlwaysPrefix(sha: Digest, s: State, es: seq<Event>, p: Path, source: Bytes)
    requires Sync(s, p) && PartIsPrefix(s, p, source)
    requires UndisturbedRun(sha, s, es, p) && HonestRun(sha, s, es, p, source)
    ensures var s' := Run(sha, s, es).0;
            && PartIsPrefix(s', p, source)
            && (forall i :: i in s'.sessions && s'.sessions[i].path == p ==>
                  var u := s'.sessions[i];
                  && p in s'.disk.parts
                  && u.offset == |s'.disk.parts[p].bytes| <= |source|
                  && u.absorbed == s'.disk.parts[p].bytes == source[..u.offset])
    decreases |es|
  {
    if es == [] {
    } else {
      StepKeepsSync(sha, s, es[0], p);
      StepKeepsPrefix(sha, s, es[0], p, source);
      PartAlwaysPrefix(sha, Step(sha, s, es[0]).0, es[1..], p, source);
    }
  }

  /** At every moment of every undisturbed run, fewer than 2^20 bytes of a part file are unflushed. */
  lemma FlushBound(sha: Digest, s: State, es: seq<Event>, p: Path)
    requires Sync(s, p) && UndisturbedRun(sha, s, es, p)
    ensures var s' := Run(sha, s, es).0;
            p in s'.disk.parts ==>
              s'.disk.parts[p].flushed <= |s'.disk.parts[p].bytes| < s'.disk.parts[p].flushed + FLUSH_INTERVAL
  {
    RunKeepsSync(sha, s, es, p);
    var s' := Run(sha, s, es).0;
    if p in s'.disk.parts {
      TailBound(s'.disk.parts[p]);
    }
  }

  lemma TailBound(part: Part)
    requires TailShort(part)
    ensures part.flushed <= |part.bytes| < part.flushed + FLUSH_INTERVAL
  {}

  // ----- Completion -----

  /** The upload an event would finalize, as it stood before the event (or as the event opens it). */
  function Subject(s: State, e: Event): Option<Session> {
    match e
    case Init(_, _, _, _, _, _) => Some(Opened(s.disk, e).1)
    case Frame(data) =>
      if Accepts(s, data) then Some(s.sessions[ParseFrameHeader(data).value.id]) else None
    case _ => None
  }

  lemma FinalizeComplete(sha: Digest, s: State, id: Id, p: Path, hash: string)
    requires id in s.sessions && s.sessions[id].path == p && Attached(s.disk, s.sessions[id])
    requires Complete(id, hash) in FinalizeUpload(sha, s, id).1
    ensures var u := s.sessions[id];
            var d := FinalizeUpload(sha, s, id).0.disk;
            && p in d.finals && d.finals[p] == s.disk.parts[p].bytes
            && hash == sha(d.finals[p]) && |d.finals[p]| == u.total
            && (u.expected.Some? ==> EqIgnoreAsciiCase(u.expected.value, hash))
  {}

  /** The event ends an upload to p with this completion. */
  predicate CompletesAt(sha: Digest, s: State, e: Event, p: Path, id: Id, hash: string) {
    Subject(s, e).Some? && Subject(s, e).value.path == p && Complete(id, hash) in Step(sha, s, e).1
  }

  /**
   Integrity without any assumption on the payloads: the hash reported with a completed upload is
   the hash of the file now in place, which has the announced size and the announced hash, if any.
   */
  lemma CompletedFileHasReportedHash(sha: Digest, s: State, es: seq<Event>, e: Event, p: Path, id: Id, hash: string)
    requires Sync(s, p) && UndisturbedRun(sha, s, es, p)
    ensures var s1 := Run(sha, s, es).0;
            CompletesAt(sha, s1, e, p, id, hash) ==>
              CompletedWell(sha, Subject(s1, e).value, Step(sha, s1, e).0.disk, p, hash)
  {
    hide Step;
    RunKeepsSync(sha, s, es, p);
    if CompletesAt(sha, Run(sha, s, es).0, e, p, id, hash) {
      StepCompletes(sha, Run(sha, s, es).0, e, p, id, hash);
    }
  }

  /** The file in place has the announced size, the reported hash, and the announced hash if there was one. */
  ghost predicate CompletedWell(sha: Digest, u: Session, d: Disk, p: Path, hash: string) {
    && p in d.finals && |d.finals[p]| == u.total && hash == sha(d.finals[p])
    && (u.expected.Some? ==> EqIgnoreAsciiCase(u.expected.value, sha(d.finals[p])))
  }

  lemma StepCompletes(sha: Digest, s: State, e: Event, p: Path, id: Id, hash: string)
    requires Sync(s, p)
    requires Subject(s, e).Some? && Subject(s, e).value.path == p
    requires Complete(id, hash) in Step(sha, s, e).1
    ensures CompletedWell(sha, Subject(s, e).value, Step(sha, s, e).0.disk, p, hash)
  {
    if e.Init? {
      OpenAround(s, e);
      FinalizeComplete(sha, OpenState(s, e), e.id, p, hash);
    } else {
      var h := ParseFrameHeader(e.data).value;
      AcceptKeepsAttached(s, h, e.data[FRAME_HEADER_SIZE..]);
      FinalizeComplete(sha, Accept(s, h, e.data[FRAME_HEADER_SIZE..]), h.id, p, hash);
    }
  }

  lemma StepCompletesPrefix(sha: Digest, s: State, e: Event, p: Path, source: Bytes, id: Id, hash: string)
    requires Sync(s, p) && Honest(s, e, p, source) && PartIsPrefix(s, p, source)
    requires Subject(s, e).Some? && Subject(s, e).value.path == p
    requires Complete(id, hash) in Step(sha, s, e).1
    ensures p in Step(sha, s, e).0.disk.finals && Step(sha, s, e).0.disk.finals[p] <= source
  {
    if e.Init? {
      OpenAround(s, e);
      OpenKeepsPrefix(s, e, p, source);
      FinalizeComplete(sha, OpenState(s, e), e.id, p, hash);
    } else {
      var h := ParseFrameHeader(e.data).value;
      AcceptKeepsAttached(s, h, e.data[FRAME_HEADER_SIZE..]);
      AcceptKeepsPrefix(s, e.data, p, source);
      FinalizeComplete(sha, Accept(s, h, e.data[FRAME_HEADER_SIZE..]), h.id, p, hash);
    }
  }

  /**
   Exact upload: whatever the wire did, when an honest upload of `source` to p is reported complete with
   the source's size announced, the file in place is the source and the reported hash is the source's.
   With another size announced it is the prefix of that length. A receiver without sessions and part files is one
   start among many.
   */
  lemma ExactUpload(sha: Digest, s: State, es: seq<Event>, e: Event, p: Path, source: Bytes, id: Id, hash: string)
    requires Sync(s, p) && PartIsPrefix(s, p, source)
    requires UndisturbedRun(sha, s, es, p) && HonestRun(sha, s, es, p, source)
    requires Honest(Run(sha, s, es).0, e, p, source)
    ensures var s1 := Run(sha, s, es).0;
            CompletesAt(sha, s1, e, p, id, hash) ==>
              var total := Subject(s1, e).value.total;
              var file := Step(sha, s1, e).0.disk.finals;
              && total <= |source| && p in file
              && file[p] == source[..total] && hash == sha(source[..total])
              && (total == |source| ==> file[p] == source && hash == sha(source))
  {
    hide Step, Honest;
    RunKeepsSync(sha, s, es, p);
    PartAlwaysPrefix(sha, s, es, p, source);
    var s1 := Run(sha, s, es).0;
    if CompletesAt(sha, s1, e, p, id, hash) {
      StepCompletes(sha, s1, e, p, id, hash);
      StepCompletesPrefix(sha, s1, e, p, source, id, hash);
      assert source[..|source|] == source;
    }
  }

  // ----- One outcome per transfer -----

  predicate IsOutcome(o: Output, id: Id) {
    match o
    case Complete(i, _) => i == id
    case SizeMismatch(i, _, _) => i == id
    case HashMismatch(i) => i == id
    case Cancelled(i) => i == id
    case _ => false
  }

  function Outcomes(os: seq<Output>, id: Id): nat {
    if os == [] then 0 else (if IsOutcome(os[0], id) then 1 else 0) + Outcomes(os[1..], id)
  }

  function Inits(es: seq<Event>, id: Id): nat {
    if es == [] then 0 else (if es[0].Init? && es[0].id == id then 1 else 0) + Inits(es[1..], id)
  }

  function Live(s: State, id: Id): nat { if id in s.sessions then 1 else 0 }

  lemma {:induction false} OutcomesAppend(a: seq<Output>, b: seq<Output>, id: Id)
    ensures Outcomes(a + b, id) == Outcomes(a, id) + Outcomes(b, id)
  {
    if a == [] {
      assert a + b == b;
    } else {
      assert (a + b)[1..] == a[1..] + b;
      OutcomesAppend(a[1..], b, id);
    }
  }

  lemma FinalizeOutcomes(sha: Digest, s: State, i: Id, before: seq<Output>, id: Id)
    requires Outcomes(before, id) == 0
    ensures var (s', o) := FinalizeUpload(sha, s, i);
            Outcomes(before + o, id) + Live(s', id) <= Live(s, id)
  {
    OutcomesAppend(before, FinalizeUpload(sha, s, i).1, id);
  }

  lemma FrameOutcomes(sha: Digest, s: State, data: Bytes, id: Id)
    requires Accepts(s, data)
    ensures Outcomes(StepFrame(sha, s, data).1, id) + Live(StepFrame(sha, s, data).0, id) <= Live(s, id)
  {
    var h := ParseFrameHeader(data).value;
    var acks := AcksFor(h, h.offset + |data| - FRAME_HEADER_SIZE);
    FinalizeOutcomes(sha, Accept(s, h, data[FRAME_HEADER_SIZE..]), h.id, acks, id);
  }

  /** The balance one step can change: an outcome ends a session, and only opening one starts it. */
  lemma StepOutcomes(sha: Digest, s: State, e: Event, id: Id)
    ensures Outcomes(Step(sha, s, e).1, id) + Live(Step(sha, s, e).0, id) <= Inits([e], id) + Live(s, id)
  {
    match e
    case Init(i, _, _, _, _, _) =>
      FinalizeOutcomes(sha, OpenState(s, e), i, [Ready(i, Opened(s.disk, e).1.offset)], id);
    case Frame(data) =>
      if Accepts(s, data) { FrameOutcomes(sha, s, data, id); }
    case Cancel(i) =>
      assert [Cancelled(i), CancelReply(i)] == [Cancelled(i)] + [CancelReply(i)];
      OutcomesAppend([Cancelled(i)], [CancelReply(i)], id);
    case Disconnect(client) =>
    case Restart(kept) =>
  }

  /** In every run, an id has at most one outcome for each time it was opened (counting a session already live). */
  lemma {:induction false} OneOutcomePerInit(sha: Digest, s: State, es: seq<Event>, id: Id)
    ensures Outcomes(Run(sha, s, es).1, id) + Live(Run(sha, s, es).0, id) <= Inits(es, id) + Live(s, id)
    decreases |es|
  {
    if es != [] {
      var (s1, o1) := Step(sha, s, es[0]);
      StepOutcomes(sha, s, es[0], id);
      OneOutcomePerInit(sha, s1, es[1..], id);
      OutcomesAppend(o1, Run(sha, s1, es[1..]).1, id);
      assert Inits([es[0]], id) + Inits(es[1..], id) == Inits(es, id);
    }
  }

  /** The path whose upload an event can end. */
  function EndedPath(s: State, e: Event): Option<Path> {
    if e.Cancel? then (if e.id in s.sessions then Some(s.sessions[e.id].path) else None)
    else match Subject(s, e) case Some(u) => Some(u.path) case None => None
  }

  /** Every file of every other path is what it was. */
  predicate SameElsewhere(before: Disk, after: Disk, p: Path) {
    && after.finals - {p} == before.finals - {p}
    && after.parts - {p} == before.parts - {p}
    && after.states - {p} == before.states - {p}
  }

  predicate CleanedUp(before: State, after: State, id: Id, p: Path) {
    && id !in after.sessions
    && p !in after.disk.parts && p !in after.disk.states
    && SameElsewhere(before.disk, after.disk, p)
  }

  lemma OpenElsewhere(s: State, e: Event)
    requires e.Init?
    ensures SameElsewhere(s.disk, OpenState(s, e).disk, e.path)
  {}

  lemma AcceptElsewhere(s: State, h: Header, chunk: Bytes)
    requires h.id in s.sessions
    ensures SameElsewhere(s.disk, Accept(s, h, chunk).disk, s.sessions[h.id].path)
  {}

  lemma CleanedUpAfter(s: State, s1: State, after: State, id: Id, p: Path)
    requires SameElsewhere(s.disk, s1.disk, p) && CleanedUp(s1, after, id, p)
    ensures CleanedUp(s, after, id, p)
  {}

  lemma FinalizeCleansUp(sha: Digest, s: State, id: Id, o: Output)
    requires o in FinalizeUpload(sha, s, id).1
    ensures id in s.sessions
    ensures IsOutcome(o, id) && CleanedUp(s, FinalizeUpload(sha, s, id).0, id, s.sessions[id].path)
    ensures forall i :: IsOutcome(o, i) ==> i == id
  {}

  lemma InitCleansUp(sha: Digest, s: State, e: Event, id: Id, o: Output)
    requires e.Init? && o in StepInit(sha, s, e).1 && IsOutcome(o, id)
    ensures CleanedUp(s, StepInit(sha, s, e).0, id, e.path)
  {
    var s1 := OpenState(s, e);
    OpenElsewhere(s, e);
    FinalizeCleansUp(sha, s1, e.id, o);
    hide FinalizeUpload, SameElsewhere, CleanedUp;
    CleanedUpAfter(s, s1, StepInit(sha, s, e).0, id, e.path);
  }

  lemma FrameCleansUp(sha: Digest, s: State, data: Bytes, id: Id, o: Output)
    ensures o in StepFrame(sha, s, data).1 && IsOutcome(o, id) ==>
              && Accepts(s, data)
              && CleanedUp(s, StepFrame(sha, s, data).0, id, s.sessions[ParseFrameHeader(data).value.id].path)
  {
    if !(o in StepFrame(sha, s, data).1 && IsOutcome(o, id)) { return; }
    var h, chunk := ParseFrameHeader(data).value, data[FRAME_HEADER_SIZE..];
    var p := s.sessions[h.id].path;
    var s1 := Accept(s, h, chunk);
    AcceptElsewhere(s, h, chunk);
    AcceptIn(s, h, chunk);
    FinalizeCleansUp(sha, s1, h.id, o);
    hide FinalizeUpload, SameElsewhere, CleanedUp, Accept;
    CleanedUpAfter(s, s1, StepFrame(sha, s, data).0, id, p);
  }

  /**
   After any outcome the id is unregistered, no partial file of the upload is left, and every part, state and
   finished file of every other path is what it was.
   */
  lemma OutcomeCleansUp(sha: Digest, s: State, e: Event, id: Id, o: Output)
    ensures o in Step(sha, s, e).1 && IsOutcome(o, id) ==>
              EndedPath(s, e).Some? && CleanedUp(s, Step(sha, s, e).0, id, EndedPath(s, e).value)
  {
    if o in Step(sha, s, e).1 && IsOutcome(o, id) {
      hide StepInit, StepFrame;
      match e
      case Init(_, _, _, _, _, _) => InitCleansUp(sha, s, e, id, o);
      case Frame(data) => FrameCleansUp(sha, s, data, id, o);
      case Cancel(i) =>
    }
  }

  /** Until the id is opened again, every frame for it, in any run, is ignored. */
  lemma {:induction false} UnopenedIdIsInert(sha: Digest, s: State, es: seq<Event>, id: Id, data: Bytes)
    requires id !in s.sessions && Inits(es, id) == 0
    requires ParseFrameHeader(data).Some? && ParseFrameHeader(data).value.id == id
    ensures var s1 := Run(sha, s, es).0;
            id !in s1.sessions && Step(sha, s1, Frame(data)) == (s1, [])
    decreases |es|
  {
    if es != [] {
      StepOutcomes(sha, s, es[0], id);
      UnopenedIdIsInert(sha, Step(sha, s, es[0]).0, es[1..], id, data);
    }
  }

  // ----- Why one upload to a path at a time is needed -----

  /**
   Two live uploads to one path: the second recreates the part file under the first, whose cursor stays.
   The first is then reported complete with the right size and the hash of what was sent, but the
   file in place starts with zeros.
   */
  lemma TwoUploadsCorruptOneFile(sha: Digest, s: State, f1: Bytes, f2: Bytes)
    requires s == State(Disk(map[], map[], map[]), map[])
    requires f1 == BuildFrame([97], 0, 1, 0, [1, 2]) && f2 == BuildFrame([97], 2, 2, FLAG_FINAL, [3, 4])
    ensures var s1 := Step(sha, s, Init([97], "c", "f", None, 4, 0)).0;
            var s2 := Step(sha, s1, Frame(f1)).0;
            var s3 := Step(sha, s2, Init([98], "c", "f", None, 4, 0)).0;
            var (s4, out) := Step(sha, s3, Frame(f2));
            && Disturbs(s2, Init([98], "c", "f", None, 4, 0), "f")
            && Complete([97], sha([1, 2, 3, 4])) in out
            && "f" in s4.disk.finals && s4.disk.finals["f"] == [0, 0, 3, 4]
  {
    var e1, e3 := Init([97], "c", "f", None, 4, 0), Init([98], "c", "f", None, 4, 0);
    FrameRoundTrip([97], 0, 1, 0, [1, 2]);
    FrameRoundTrip([97], 2, 2, FLAG_FINAL, [3, 4]);
    hide Step, Disturbs, BuildFrame, ParseFrameHeader;
    FirstOpened(sha, s, e1);
    var s1 := Step(sha, s, e1).0;
    FirstChunk(sha, s1, f1);
    var s2 := Step(sha, s1, Frame(f1)).0;
    Recreated(sha, s2, e3);
    CursorPastEnd(sha, Step(sha, s2, e3).0, f2);
  }

  lemma FirstOpened(sha: Digest, s: State, e: Event)
    requires s == State(Disk(map[], map[], map[]), map[]) && e == Init([97], "c", "f", None, 4, 0)
    ensures var s' := Step(sha, s, e).0;
            && "f" in s'.disk.parts && s'.disk.parts["f"].bytes == []
            && [97] in s'.sessions && s'.sessions[[97]] == Session("f", "c", At(0), [], 0, 4, None, 0)
  {}

  lemma FirstChunk(sha: Digest, s: State, data: Bytes)
    requires "f" in s.disk.parts && s.disk.parts["f"].bytes == []
    requires [97] in s.sessions && s.sessions[[97]] == Session("f", "c", At(0), [], 0, 4, None, 0)
    requires ParseFrameHeader(data) == Some(Header([97], 0, 1, 0)) && data[FRAME_HEADER_SIZE..] == [1, 2]
    ensures var s' := Step(sha, s, Frame(data)).0;
            && "f" in s'.disk.parts && s'.disk.parts["f"].bytes == [1, 2]
            && [97] in s'.sessions && s'.sessions[[97]] == Session("f", "c", At(2), [1, 2], 2, 4, None, 1)
  {
    assert WriteThrough([], At(0), [1, 2]) == [1, 2];
    hide ParseFrameHeader;
  }

  lemma Recreated(sha: Digest, s: State, e: Event)
    requires "f" in s.disk.parts && s.disk.parts["f"].bytes == [1, 2]
    requires e == Init([98], "c", "f", None, 4, 0) && [97] in s.sessions && s.sessions[[97]].path == "f"
    ensures Disturbs(s, e, "f")
    ensures var s' := Step(sha, s, e).0;
            && "f" in s'.disk.parts && s'.disk.parts["f"].bytes == []
            && [97] in s'.sessions && s'.sessions[[97]] == s.sessions[[97]]
  {
    var a: Id, b: Id := [97], [98];
    assert a[0] != b[0];
    assert Beside(s, "f", b);
  }

  lemma CursorPastEnd(sha: Digest, s: State, data: Bytes)
    requires "f" in s.disk.parts && s.disk.parts["f"].bytes == []
    requires [97] in s.sessions && s.sessions[[97]] == Session("f", "c", At(2), [1, 2], 2, 4, None, 1)
    requires ParseFrameHeader(data) == Some(Header([97], 2, 2, FLAG_FINAL)) && data[FRAME_HEADER_SIZE..] == [3, 4]
    ensures var (s', out) := Step(sha, s, Frame(data));
            && Complete([97], sha([1, 2, 3, 4])) in out
            && "f" in s'.disk.finals && s'.disk.finals["f"] == [0, 0, 3, 4]
  {
    var h := Header([97], 2, 2, FLAG_FINAL);
    WrittenPastEnd(s);
    PublishedPastEnd(sha, Accept(s, h, [3, 4]));
    assert IsFinal(FLAG_FINAL) && Accepts(s, data);
    hide Accept, ParseFrameHeader, FinalizeUpload, IsFinal, Accepts, AcksFor;
  }

  lemma PublishedPastEnd(sha: Digest, s: State)
    requires "f" in s.disk.parts && s.disk.parts["f"].bytes == [0, 0, 3, 4]
    requires [97] in s.sessions && s.sessions[[97]] == Session("f", "c", At(4), [1, 2, 3, 4], 4, 4, None, 2)
    ensures var (s', out) := FinalizeUpload(sha, s, [97]);
            && out == [Complete([97], sha([1, 2, 3, 4]))]
            && "f" in s'.disk.finals && s'.disk.finals["f"] == [0, 0, 3, 4]
  {}

  lemma WrittenPastEnd(s: State)
    requires "f" in s.disk.parts && s.disk.parts["f"].bytes == []
    requires [97] in s.sessions && s.sessions[[97]] == Session("f", "c", At(2), [1, 2], 2, 4, None, 1)
    ensures var s' := Accept(s, Header([97], 2, 2, FLAG_FINAL), [3, 4]);
            && "f" in s'.disk.parts && s'.disk.parts["f"].bytes == [0, 0, 3, 4]
            && [97] in s'.sessions && s'.sessions[[97]] == Session("f", "c", At(4), [1, 2, 3, 4], 4, 4, None, 2)
  {
    assert [1, 2] + [3, 4] == [1, 2, 3, 4];
    assert WriteThrough([], At(2), [3, 4]) == [0, 0, 3, 4];
  }
}
