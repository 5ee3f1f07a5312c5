/** What each event does to uploads, said in terms of the files and the live sessions. */
module UploadEffects {
  import opened Wrappers
  import opened Bytes
  import opened Framing
  import opened Upload
  import UploadRuns

  // ----- Flags and writes -----

  /** The flags are bits 1 and 2 of the byte, whatever the others are. */
  lemma FlagBits(flags: byte)
    ensures IsFinal(flags) <==> (flags as bv8) & 0x02 != 0
    ensures WantsAck(flags) <==> (flags as bv8) & 0x04 != 0
  {}

  /** A write at a cursor changes the bytes it covers, keeps the others, and fills a gap with zeros. */
  lemma WriteAtCursor(was: Bytes, c: nat, data: Bytes, i: nat)
    requires data != []
    ensures var now := WriteThrough(was, At(c), data);
            && |now| == (if c + |data| > |was| then c + |data| else |was|)
            && (i < |now| ==>
                  now[i] == if c <= i < c + |data| then data[i - c] else if i < |was| then was[i] else 0)
  {}

  // ----- Opening -----

  /** What a resumed upload starts with: the part file when its length is the offset claimed, else nothing. */
  function Kept(d: Disk, path: Path, resume: nat): Bytes {
    if resume > 0 && path in d.parts && |d.parts[path].bytes| == resume then d.parts[path].bytes else []
  }

  /** How an upload that has received `whole` ends: the reply to send, and whether the file is put in place. */
  function Verdict(sha: Digest, id: Id, total: nat, expected: Option<string>, whole: Bytes): Output {
    if |whole| != total then SizeMismatch(id, total, |whole|)
    else if expected.Some? && !EqIgnoreAsciiCase(expected.value, sha(whole)) then HashMismatch(id)
    else Complete(id, sha(whole))
  }

  /** Two hashes agree when each character is the same or the two are one ASCII letter in both cases. */
  lemma SameButCase(a: string, b: string)
    ensures EqIgnoreAsciiCase(a, b) <==>
              |a| == |b| && forall i :: 0 <= i < |a| ==>
                a[i] == b[i] || BothCases(a[i], b[i]) || BothCases(b[i], a[i])
  {
    forall i | 0 <= i < |a| && i < |b|
      ensures LowerAscii(a[i]) == LowerAscii(b[i]) <==>
                a[i] == b[i] || BothCases(a[i], b[i]) || BothCases(b[i], a[i])
    {
      LowerMeaning(a[i], b[i]);
    }
  }

  predicate BothCases(upper: char, lower: char) { 'a' <= lower <= 'z' && lower as int == upper as int + 32 }

  lemma LowerMeaning(c: char, d: char)
    ensures LowerAscii(c) == LowerAscii(d) <==> c == d || BothCases(c, d) || BothCases(d, c)
  {}

  /** The upload of an id to a path has ended with this verdict on what it received, and nothing else has changed. */
  predicate Ended(s: State, s': State, id: Id, path: Path, whole: Bytes, verdict: Output) {
    && s'.sessions == s.sessions - {id}
    && s'.disk.parts == s.disk.parts - {path} && s'.disk.states == s.disk.states - {path}
    && s'.disk.finals == if verdict.Complete? then s.disk.finals[path := whole] else s.disk.finals
  }

  lemma FinalizeEnds(sha: Digest, s: State, id: Id)
    requires id in s.sessions && UploadRuns.Attached(s.disk, s.sessions[id])
    ensures var u := s.sessions[id];
            var (s', out) := FinalizeUpload(sha, s, id);
            var verdict := Verdict(sha, id, u.total, u.expected, u.absorbed);
            out == [verdict] && Ended(s, s', id, u.path, u.absorbed, verdict)
  {}

  /**
   An init is answered with the offset it resumes from. An upload that lacks nothing then ends at once; any other is
   registered for its client with what it keeps, and the rest of the disk and of the registry stays.
   */
  lemma InitOpens(sha: Digest, s: State, e: Event)
    requires e.Init?
    ensures var (s', out) := Step(sha, s, e);
            var kept := Kept(s.disk, e.path, e.resume);
            && |out| > 0 && out[0] == Ready(e.id, |kept|)
            && (|kept| != e.total ==>
                  && out == [Ready(e.id, |kept|)]
                  && e.id in s'.sessions && s'.sessions - {e.id} == s.sessions - {e.id}
                  && var u := s'.sessions[e.id];
                     && u.path == e.path && u.client == e.client && u.total == e.total && u.expected == e.expected
                     && u.offset == |kept| && u.absorbed == kept && u.lastSeq == 0
                     && UploadRuns.Attached(s'.disk, u)
                     && s'.disk.parts == s.disk.parts[e.path := Part(kept, |kept|)]
                     && s'.disk.states == s.disk.states[e.path := TransferState(e.id, e.total, |kept|, e.expected, 0)]
                     && s'.disk.finals == s.disk.finals)
            && (|kept| == e.total ==>
                  var verdict := Verdict(sha, e.id, e.total, e.expected, kept);
                  out == [Ready(e.id, |kept|), verdict] && Ended(s, s', e.id, e.path, kept, verdict))
  {
    UploadRuns.OpenAround(s, e);
    FinalizeEnds(sha, OpenState(s, e), e.id);
    hide FinalizeUpload;
    var s1, kept := OpenState(s, e), Kept(s.disk, e.path, e.resume);
    if |kept| == e.total {
      assert s1.sessions - {e.id} == s.sessions - {e.id};
      assert s1.disk.parts - {e.path} == s.disk.parts - {e.path};
      assert s1.disk.states - {e.path} == s.disk.states - {e.path};
    }
  }

  // ----- Frames -----

  /** A frame is taken when its upload is live and its offset is what has been received. */
  predicate Taken(s: State, data: Bytes) {
    && |data| >= 50 && data[0] == 1
    && ParseFrameHeader(data).Some?
    && var h := ParseFrameHeader(data).value; h.id in s.sessions && s.sessions[h.id].offset == h.offset
  }

  /** Any other frame changes nothing and is not answered. */
  lemma OtherFramesIgnored(sha: Digest, s: State, data: Bytes)
    requires !Taken(s, data)
    ensures Step(sha, s, Frame(data)) == (s, [])
  {}

  /** The acknowledgement is sent when the frame asks for it, and for every fiftieth frame. */
  function Acks(h: Header, offset: nat): seq<Output> {
    if (h.flags as bv8) & 0x04 != 0 || h.seqNo % 50 == 0 then [Ack(h.id, offset, h.seqNo)] else []
  }

  /**
   A frame that is taken adds its payload to the part file, the hasher and the offset. A FINAL one then ends the
   upload with the verdict on all that was received; another leaves it live. Nothing else changes.
   */
  lemma FrameTaken(sha: Digest, s: State, data: Bytes)
    requires Taken(s, data)
    requires UploadRuns.Attached(s.disk, s.sessions[ParseFrameHeader(data).value.id])
    ensures var h := ParseFrameHeader(data).value;
            var u := s.sessions[h.id];
            var whole := u.absorbed + data[50..];
            var (s', out) := Step(sha, s, Frame(data));
            if (h.flags as bv8) & 0x02 != 0 then
              var verdict := Verdict(sha, h.id, u.total, u.expected, whole);
              out == Acks(h, |whole|) + [verdict] && Ended(s, s', h.id, u.path, whole, verdict)
            else
              && out == Acks(h, |whole|)
              && h.id in s'.sessions && s'.sessions - {h.id} == s.sessions - {h.id}
              && var u' := s'.sessions[h.id];
                 && u'.path == u.path && u'.client == u.client && u'.total == u.total && u'.expected == u.expected
                 && u'.offset == |whole| && u'.absorbed == whole && u'.lastSeq == h.seqNo
                 && UploadRuns.Attached(s'.disk, u')
                 && s'.disk.parts - {u.path} == s.disk.parts - {u.path}
                 && s'.disk.states
                    == s.disk.states[u.path := TransferState(h.id, u.total, |whole|, u.expected, h.seqNo)]
                 && s'.disk.finals == s.disk.finals
  {
    var h, chunk := ParseFrameHeader(data).value, data[50..];
    var u, s1 := s.sessions[h.id], Accept(s, h, chunk);
    FlagBits(h.flags);
    ChunkAdded(s, h, chunk);
    FinalizeEnds(sha, s1, h.id);
    assert AcksFor(h, s1.sessions[h.id].offset) == Acks(h, |u.absorbed + chunk|);
    hide FinalizeUpload, Accept, IsFinal, WantsAck;
    if IsFinal(h.flags) {
      assert s1.sessions - {h.id} == s.sessions - {h.id};
      assert s1.disk.parts - {u.path} == s.disk.parts - {u.path};
      assert s1.disk.states - {u.path} == s.disk.states - {u.path};
    }
  }

  /** A frame that is not FINAL flushes the file exactly when it reaches or crosses a multiple of 2^20. */
  lemma FlushedExactly(sha: Digest, s: State, data: Bytes)
    requires Taken(s, data) && (ParseFrameHeader(data).value.flags as bv8) & 0x02 == 0
    requires UploadRuns.Attached(s.disk, s.sessions[ParseFrameHeader(data).value.id])
    ensures var u := s.sessions[ParseFrameHeader(data).value.id];
            var size := |u.absorbed| + |data| - 50;
            var s' := Step(sha, s, Frame(data)).0;
            && u.path in s'.disk.parts
            && s'.disk.parts[u.path].flushed
               == if exists k: nat :: |u.absorbed| < UploadRuns.Boundary(k) <= size then size
                  else s.disk.parts[u.path].flushed
  {
    var h, chunk := ParseFrameHeader(data).value, data[50..];
    FlagBits(h.flags);
    UploadRuns.FlushDueExactly(IsFinal(h.flags), |s.sessions[h.id].absorbed|, |chunk|);
    UploadRuns.AcceptKeepsAttached(s, h, chunk);
    hide FlushDue, IsFinal, UploadRuns.Boundary;
  }

  lemma ChunkAdded(s: State, h: Header, chunk: Bytes)
    requires h.id in s.sessions && UploadRuns.Attached(s.disk, s.sessions[h.id])
    ensures var u, s' := s.sessions[h.id], Accept(s, h, chunk);
            var whole := u.absorbed + chunk;
            && h.id in s'.sessions && s'.sessions - {h.id} == s.sessions - {h.id}
            && var u' := s'.sessions[h.id];
               && u'.path == u.path && u'.client == u.client && u'.total == u.total && u'.expected == u.expected
               && u'.offset == |whole| && u'.absorbed == whole && u'.lastSeq == h.seqNo
               && UploadRuns.Attached(s'.disk, u')
               && s'.disk.parts - {u.path} == s.disk.parts - {u.path}
               && s'.disk.states
                  == s.disk.states[u.path := TransferState(h.id, u.total, |whole|, u.expected, h.seqNo)]
               && s'.disk.finals == s.disk.finals
  {
    UploadRuns.AcceptKeepsAttached(s, h, chunk);
    UploadRuns.AcceptAround(s, h, chunk);
  }

  // ----- Cancelling, leaving, restarting -----

  /** A cancel is always answered; it drops the session and the partial files of an upload that is live. */
  lemma CancelDrops(sha: Digest, s: State, id: Id)
    ensures var (s', out) := Step(sha, s, Cancel(id));
            && out == (if id in s.sessions then [Cancelled(id)] else []) + [CancelReply(id)]
            && s'.sessions == s.sessions - {id} && s'.disk.finals == s.disk.finals
            && (id in s.sessions ==>
                  && s'.disk.parts == s.disk.parts - {s.sessions[id].path}
                  && s'.disk.states == s.disk.states - {s.sessions[id].path})
            && (id !in s.sessions ==> s' == s)
  {
    if id !in s.sessions { assert s.sessions - {id} == s.sessions; }
  }

  /** A client that leaves takes exactly its own sessions along, and no file. */
  lemma DisconnectDropsExactly(sha: Digest, s: State, client: ClientId)
    ensures var (s', out) := Step(sha, s, Disconnect(client));
            && out == [] && s'.disk == s.disk
            && (forall id :: id in s'.sessions <==> id in s.sessions && s.sessions[id].client != client)
            && (forall id :: id in s'.sessions ==> s'.sessions[id] == s.sessions[id])
  {}

  /** The uploads of others go on: their frames are answered and change the disk as if the client had stayed. */
  lemma OthersGoOn(sha: Digest, s: State, client: ClientId, data: Bytes)
    requires ParseFrameHeader(data).Some?
    requires var id := ParseFrameHeader(data).value.id; id in s.sessions && s.sessions[id].client != client
    ensures var s' := Step(sha, s, Disconnect(client)).0;
            var id := ParseFrameHeader(data).value.id;
            var ((t, out), (t', out')) := (Step(sha, s, Frame(data)), Step(sha, s', Frame(data)));
            && (Taken(s', data) <==> Taken(s, data))
            && out' == out && t'.disk == t.disk
            && (id in t'.sessions <==> id in t.sessions) && (id in t.sessions ==> t'.sessions[id] == t.sessions[id])
  {
    DisconnectDropsExactly(sha, s, client);
    var s', h := Step(sha, s, Disconnect(client)).0, ParseFrameHeader(data).value;
    if Taken(s, data) {
      SameForOne(sha, s, s', h, data[50..]);
    }
  }

  /** A chunk and the end it may bring see only the disk and the session they are for. */
  lemma SameForOne(sha: Digest, s: State, s': State, h: Header, chunk: Bytes)
    requires s'.disk == s.disk && h.id in s.sessions && h.id in s'.sessions && s'.sessions[h.id] == s.sessions[h.id]
    ensures var ((t, out), (t', out')) := (AcceptAndFinalize(sha, s, h, chunk), AcceptAndFinalize(sha, s', h, chunk));
            && out' == out && t'.disk == t.disk
            && (h.id in t'.sessions <==> h.id in t.sessions)
            && (h.id in t.sessions ==> t'.sessions[h.id] == t.sessions[h.id])
  {
    var s1, s1' := Accept(s, h, chunk), Accept(s', h, chunk);
    assert s1.disk == s1'.disk && s1.sessions[h.id] == s1'.sessions[h.id];
    hide Accept;
  }

  /** A restart loses the sessions and of each part file at most what was not flushed. */
  lemma RestartKeepsFlushed(sha: Digest, s: State, kept: Path -> nat, p: Path)
    requires p in s.disk.parts && s.disk.parts[p].flushed <= |s.disk.parts[p].bytes|
    ensures var s' := Step(sha, s, Restart(kept)).0;
            && s'.sessions == map[] && s'.disk.states == s.disk.states && s'.disk.finals == s.disk.finals
            && p in s'.disk.parts && s'.disk.parts[p].bytes <= s.disk.parts[p].bytes
            && |s'.disk.parts[p].bytes| >= s.disk.parts[p].flushed
            && (s.disk.parts[p].flushed <= kept(p) <= |s.disk.parts[p].bytes| ==>
                  |s'.disk.parts[p].bytes| == kept(p) && s'.disk.parts[p].flushed == kept(p))
  {}
}
