/** A download stream fed to an upload: when the copy is completed, and what it then is. */
module TransferLoop {
  import opened Wrappers
  import opened Bytes
  import opened Framing
  import opened Download
  import opened Upload
  import UploadRuns

  function FrameEvents(id: Id, cs: seq<Chunk>): seq<Event> {
    if cs == [] then [] else [Frame(Encode(id, cs[0]))] + FrameEvents(id, cs[1..])
  }

  /** A live session that has received exactly file[..pos] of a file announced with its own size. */
  predicate Receiving(s: State, id: Id, p: Path, expected: Option<string>, file: Bytes, pos: nat) {
    && pos <= |file|
    && id in s.sessions
    && var u := s.sessions[id];
       && UploadRuns.Attached(s.disk, u)
       && u.path == p && u.absorbed == file[..pos] && u.total == |file| && u.expected == expected
  }

  /** The first short read of file[pos..] is the one that reaches the end. */
  ghost predicate ShortOnlyAtEnd(file: Bytes, pos: nat, read: Reads)
    requires LegalReads(file, read) && pos <= |file|
    decreases |file| - pos
  {
    pos < |file|
    && if read(pos) < CHUNK_SIZE then pos + read(pos) == |file| else ShortOnlyAtEnd(file, pos + read(pos), read)
  }

  /** No read of file[pos..] is short. */
  ghost predicate NeverShort(file: Bytes, pos: nat, read: Reads)
    requires LegalReads(file, read) && pos <= |file|
    decreases |file| - pos
  {
    pos == |file| || (read(pos) == CHUNK_SIZE && NeverShort(file, pos + read(pos), read))
  }

  /** The announced hash, if any, is the file's, in letters of either case. */
  predicate Matches(sha: Digest, expected: Option<string>, file: Bytes) {
    expected.Some? ==> EqIgnoreAsciiCase(expected.value, sha(file))
  }

  /** The file has been put in place and reported, or turned down for its hash. */
  predicate Settled(sha: Digest, id: Id, p: Path, expected: Option<string>, file: Bytes, d: Disk, out: seq<Output>) {
    if Matches(sha, expected, file) then Complete(id, sha(file)) in out && p in d.finals && d.finals[p] == file
    else HashMismatch(id) in out && !Completes(out, id)
  }

  predicate Completes(out: seq<Output>, id: Id) {
    exists o :: o in out && o.Complete? && o.id == id
  }

  lemma ReceiveChunk(s: State, id: Id, p: Path, expected: Option<string>, file: Bytes, pos: nat, h: Header, n: nat)
    requires Receiving(s, id, p, expected, file, pos) && pos + n <= |file| && h.id == id
    ensures Receiving(Accept(s, h, file[pos..pos + n]), id, p, expected, file, pos + n)
  {
    var u := s.sessions[id];
    UploadRuns.AttachedWrite(u, s.disk.parts[p].bytes, file[pos..pos + n]);
    assert file[..pos] + file[pos..pos + n] == file[..pos + n];
  }

  lemma FinalizeReceived(sha: Digest, s: State, id: Id, p: Path, expected: Option<string>, file: Bytes, pos: nat)
    requires Receiving(s, id, p, expected, file, pos)
    ensures var (t, out) := FinalizeUpload(sha, s, id);
            && id !in t.sessions
            && (if pos == |file| then Settled(sha, id, p, expected, file, t.disk, out) else !Completes(out, id))
            && (!Completes(out, id) ==> t.disk.finals == s.disk.finals)
  {
    assert file[..|file|] == file;
  }

  lemma FrameTaken(sha: Digest, s: State, id: Id, c: Chunk)
    requires id in s.sessions && s.sessions[id].offset == c.offset && c.offset < U64_LIMIT && c.seqNo < U32_LIMIT
    requires |id| <= FRAME_ID_SIZE && NoNulAtEnds(id)
    ensures Step(sha, s, Frame(Encode(id, c)))
            == AcceptAndFinalize(sha, s, Header(id, c.offset, c.seqNo, c.flags), c.data)
  {
    EncodeSays(id, c);
    hide Encode, ParseFrameHeader, AcceptAndFinalize;
  }

  lemma ShortReadsAreFinal(n: nat)
    ensures IsFinal(FlagsFor(n)) <==> n < CHUNK_SIZE
  {}

  /** One frame of the stream: the chunk is taken, and a FINAL one ends the upload, for better or worse. */
  lemma FeedChunk(
    sha: Digest, s: State, id: Id, p: Path, expected: Option<string>, file: Bytes, pos: nat, c: Chunk, n: nat)
    requires Receiving(s, id, p, expected, file, pos) && pos + n <= |file| < U64_LIMIT
    requires |id| <= FRAME_ID_SIZE && NoNulAtEnds(id)
    requires c == Chunk(pos, c.seqNo, FlagsFor(n), file[pos..pos + n]) && c.seqNo < U32_LIMIT
    ensures var (t, out) := Step(sha, s, Frame(Encode(id, c)));
            && (n == CHUNK_SIZE ==> Receiving(t, id, p, expected, file, pos + n) && !Completes(out, id))
            && (n < CHUNK_SIZE ==> id !in t.sessions)
            && (n < CHUNK_SIZE && pos + n == |file| ==> Settled(sha, id, p, expected, file, t.disk, out))
            && (n < CHUNK_SIZE && pos + n < |file| ==> !Completes(out, id))
            && (n <= CHUNK_SIZE && !Completes(out, id) ==> t.disk.finals == s.disk.finals)
  {
    AcceptFinals(s, Header(id, c.offset, c.seqNo, c.flags), c.data);
    hide Step, Accept, FinalizeUpload, AcksFor, IsFinal, FlagsFor, Matches;
    var h := Header(id, c.offset, c.seqNo, c.flags);
    FrameTaken(sha, s, id, c);
    ShortReadsAreFinal(n);
    ReceiveChunk(s, id, p, expected, file, pos, h, n);
    var s1 := Accept(s, h, c.data);
    FinalizeReceived(sha, s1, id, p, expected, file, pos + n);
    AcksNeverComplete(h, s1.sessions[id].offset, FinalizeUpload(sha, s1, id).1, id);
  }

  lemma AcceptFinals(s: State, h: Header, chunk: Bytes)
    requires h.id in s.sessions
    ensures Accept(s, h, chunk).disk.finals == s.disk.finals
  {}

  lemma AcksNeverComplete(h: Header, offset: nat, out: seq<Output>, id: Id)
    ensures Completes(AcksFor(h, offset) + out, id) <==> Completes(out, id)
    ensures !Completes(AcksFor(h, offset), id)
    ensures forall o :: o in out ==> o in AcksFor(h, offset) + out
  {
    if Completes(out, id) {
      var o :| o in out && o.Complete? && o.id == id;
      assert o in AcksFor(h, offset) + out;
    }
  }

  lemma DeadFrame(sha: Digest, s: State, id: Id, c: Chunk)
    requires id !in s.sessions && c.offset < U64_LIMIT && c.seqNo < U32_LIMIT
    requires |id| <= FRAME_ID_SIZE && NoNulAtEnds(id)
    ensures Step(sha, s, Frame(Encode(id, c))) == (s, [])
  {
    EncodeSays(id, c);
  }

  lemma {:induction false} DeadIdNeverCompletes(sha: Digest, s: State, id: Id, cs: seq<Chunk>)
    requires id !in s.sessions
    requires |id| <= FRAME_ID_SIZE && NoNulAtEnds(id)
    requires forall i :: 0 <= i < |cs| ==> cs[i].offset < U64_LIMIT && cs[i].seqNo < U32_LIMIT
    ensures Run(sha, s, FrameEvents(id, cs)) == (s, [])
  {
    hide Step;
    if cs != [] {
      DeadFrame(sha, s, id, cs[0]);
      DeadIdNeverCompletes(sha, s, id, cs[1..]);
      RunFrames(sha, s, id, cs);
      var none: seq<Output> := [];
      assert none + none == none;
    }
  }

  ghost predicate Fed(sha: Digest, s: State, id: Id, p: Path, expected: Option<string>, file: Bytes, pos: nat,
                      read: Reads,
                      t: State, out: seq<Output>)
    requires LegalReads(file, read) && pos <= |file|
  {
    && (Completes(out, id) <==> ShortOnlyAtEnd(file, pos, read) && Matches(sha, expected, file))
    && (ShortOnlyAtEnd(file, pos, read) ==> Settled(sha, id, p, expected, file, t.disk, out))
    && (NeverShort(file, pos, read) ==> Receiving(t, id, p, expected, file, |file|))
    && (!Completes(out, id) ==> t.disk.finals == s.disk.finals)
  }

  /** When the first frame closes the id, the rest of the stream does nothing. */
  lemma RestIsDead(sha: Digest, s: State, id: Id, cs: seq<Chunk>)
    requires |id| <= FRAME_ID_SIZE && NoNulAtEnds(id) && cs != []
    requires forall i :: 0 <= i < |cs| ==> cs[i].offset < U64_LIMIT && cs[i].seqNo < U32_LIMIT
    requires id !in Step(sha, s, Frame(Encode(id, cs[0]))).0.sessions
    ensures Run(sha, s, FrameEvents(id, cs)) == Step(sha, s, Frame(Encode(id, cs[0])))
  {
    hide Step, Run, FrameEvents, Encode;
    var (s1, o1) := Step(sha, s, Frame(Encode(id, cs[0])));
    DeadIdNeverCompletes(sha, s1, id, cs[1..]);
    RunFrames(sha, s, id, cs);
    assert o1 + [] == o1;
  }

  /** A short read ends the stream's part in the matter: what follows falls on a closed id. */
  lemma FeedShort(
    sha: Digest, s: State, id: Id, p: Path, expected: Option<string>, file: Bytes, pos: nat, seqNo: nat, read: Reads)
    requires LegalReads(file, read) && pos < |file| < U64_LIMIT && read(pos) < CHUNK_SIZE
    requires |id| <= FRAME_ID_SIZE && NoNulAtEnds(id)
    requires seqNo + |Chunks(file, pos, seqNo, read)| < U32_LIMIT
    requires Receiving(s, id, p, expected, file, pos)
    ensures var (t, out) := Run(sha, s, FrameEvents(id, Chunks(file, pos, seqNo, read)));
            && (Completes(out, id) <==> pos + read(pos) == |file| && Matches(sha, expected, file))
            && (pos + read(pos) == |file| ==> Settled(sha, id, p, expected, file, t.disk, out))
            && (!Completes(out, id) ==> t.disk.finals == s.disk.finals)
  {
    hide Step, Run, FrameEvents, Encode, Receiving, Settled, Completes, Matches;
    var cs := Chunks(file, pos, seqNo, read);
    ChunksTail(file, pos, seqNo, read);
    LaterChunksFit(file, pos, seqNo, read);
    hide Chunks;
    FeedChunk(sha, s, id, p, expected, file, pos, cs[0], read(pos));
    RestIsDead(sha, s, id, cs);
    if pos + read(pos) == |file| {
      var (t, out) := Run(sha, s, FrameEvents(id, cs));
      CompletesMatches(sha, id, p, expected, file, t.disk, out);
    }
  }

  lemma CompletesMatches(sha: Digest, id: Id, p: Path, expected: Option<string>, file: Bytes, d: Disk, out: seq<Output>)
    requires Settled(sha, id, p, expected, file, d, out)
    ensures Completes(out, id) <==> Matches(sha, expected, file)
  {}

  lemma SettledAppend(sha: Digest, id: Id, p: Path, expected: Option<string>, file: Bytes, d: Disk,
                      a: seq<Output>, b: seq<Output>)
    requires Settled(sha, id, p, expected, file, d, b) && !Completes(a, id)
    ensures Settled(sha, id, p, expected, file, d, a + b)
  {
    CompletesAppend(a, b, id);
    hide Completes, Matches;
  }

  /** A full read that completes nothing and changes no finished file comes before the rest. */
  lemma FedFirst(sha: Digest, s: State, s1: State, id: Id, p: Path, expected: Option<string>, file: Bytes, pos: nat,
                 read: Reads,
                 t: State, o1: seq<Output>, o2: seq<Output>)
    requires LegalReads(file, read) && pos < |file| && read(pos) == CHUNK_SIZE
    requires !Completes(o1, id) && s1.disk.finals == s.disk.finals
    requires Fed(sha, s1, id, p, expected, file, pos + read(pos), read, t, o2)
    ensures Fed(sha, s, id, p, expected, file, pos, read, t, o1 + o2)
  {
    CompletesAppend(o1, o2, id);
    if ShortOnlyAtEnd(file, pos, read) { SettledAppend(sha, id, p, expected, file, t.disk, o1, o2); }
    hide Completes, Matches, Settled, Receiving;
  }

  lemma {:induction false} FeedStream(
    sha: Digest, s: State, id: Id, p: Path, expected: Option<string>, file: Bytes, pos: nat, seqNo: nat, read: Reads)
    requires LegalReads(file, read) && pos <= |file| < U64_LIMIT
    requires |id| <= FRAME_ID_SIZE && NoNulAtEnds(id)
    requires seqNo + |Chunks(file, pos, seqNo, read)| < U32_LIMIT
    requires Receiving(s, id, p, expected, file, pos)
    ensures var (t, out) := Run(sha, s, FrameEvents(id, Chunks(file, pos, seqNo, read)));
            Fed(sha, s, id, p, expected, file, pos, read, t, out)
    decreases |file| - pos
  {
    hide Step;
    if pos < |file| {
      if read(pos) < CHUNK_SIZE {
        FeedShort(sha, s, id, p, expected, file, pos, seqNo, read);
      } else {
        var cs := Chunks(file, pos, seqNo, read);
        ChunksTail(file, pos, seqNo, read);
        FeedChunk(sha, s, id, p, expected, file, pos, cs[0], read(pos));
        var (s1, o1) := Step(sha, s, Frame(Encode(id, cs[0])));
        FeedStream(sha, s1, id, p, expected, file, pos + read(pos), seqNo + 1, read);
        RunFrames(sha, s, id, cs);
        hide Run, FrameEvents, Chunks, Encode, Fed, Receiving;
        var (t, o2) := Run(sha, s1, FrameEvents(id, cs[1..]));
        FedFirst(sha, s, s1, id, p, expected, file, pos, read, t, o1, o2);
      }
    }
  }

  lemma RunFrames(sha: Digest, s: State, id: Id, cs: seq<Chunk>)
    requires cs != []
    ensures var (s1, o1) := Step(sha, s, Frame(Encode(id, cs[0])));
            var (t, o2) := Run(sha, s1, FrameEvents(id, cs[1..]));
            Run(sha, s, FrameEvents(id, cs)) == (t, o1 + o2)
  {
    assert FrameEvents(id, cs)[1..] == FrameEvents(id, cs[1..]);
  }

  lemma CompletesAppend(a: seq<Output>, b: seq<Output>, id: Id)
    ensures Completes(a + b, id) <==> Completes(a, id) || Completes(b, id)
    ensures forall o :: o in a || o in b ==> o in a + b
  {
    if Completes(a, id) {
      var o :| o in a && o.Complete? && o.id == id;
      assert o in a + b;
    } else if Completes(b, id) {
      var o :| o in b && o.Complete? && o.id == id;
      assert o in a + b;
    }
  }

  lemma LaterChunksFit(file: Bytes, pos: nat, seqNo: nat, read: Reads)
    requires LegalReads(file, read) && pos <= |file| < U64_LIMIT
    requires seqNo + |Chunks(file, pos, seqNo, read)| < U32_LIMIT
    ensures var cs := Chunks(file, pos, seqNo, read);
            forall i :: 0 <= i < |cs| ==> cs[i].offset < U64_LIMIT && cs[i].seqNo < U32_LIMIT
  {
    forall i | 0 <= i < |Chunks(file, pos, seqNo, read)|
      ensures var cs := Chunks(file, pos, seqNo, read); cs[i].offset < U64_LIMIT && cs[i].seqNo < U32_LIMIT
    {
      ChunkByIndex(file, pos, seqNo, read, i);
    }
  }

  /**
   A download from `resume` copied through an upload resumed where the download starts, announced with any hash or
   none. The copy is completed, as the file and under its hash, exactly when nothing was left to send or the first
   short read was the last, and the announced hash, if any, is the file's. Everything sent but another hash announced,
   the copy is turned down for it. Otherwise an early FINAL has failed the upload, or the last chunk was full and the
   upload still waits. Without a completion no finished file has changed.
   */
  lemma DownloadIntoUpload(
    sha: Digest, s: State, id: Id, client: ClientId, p: Path, expected: Option<string>, file: Bytes, resume: nat,
    read: Reads)
    requires LegalReads(file, read) && |file| < U64_LIMIT
    requires |id| <= FRAME_ID_SIZE && NoNulAtEnds(id)
    requires |Chunks(file, Min(resume, |file|), 0, read)| < U32_LIMIT
    requires Min(resume, |file|) > 0 ==>
               p in s.disk.parts && s.disk.parts[p].bytes == file[..Min(resume, |file|)]
    ensures var start := Min(resume, |file|);
            var (s1, o1) := Step(sha, s, Init(id, client, p, expected, |file|, start));
            var (t, o2) := Run(sha, s1, FrameEvents(id, Chunks(file, start, 0, read)));
            var sent := start == |file| || ShortOnlyAtEnd(file, start, read);
            && (Completes(o1 + o2, id) <==> sent && Matches(sha, expected, file))
            && (sent ==> Settled(sha, id, p, expected, file, t.disk, o1 + o2))
            && (start < |file| && NeverShort(file, start, read) ==> Receiving(t, id, p, expected, file, |file|))
            && (!Completes(o1 + o2, id) ==> t.disk.finals == s.disk.finals)
  {
    hide Step, Matches;
    var start := Min(resume, |file|);
    var e := Init(id, client, p, expected, |file|, start);
    OpensReceiving(sha, s, e, file);
    var (s1, o1) := Step(sha, s, e);
    var (t, o2) := Run(sha, s1, FrameEvents(id, Chunks(file, start, 0, read)));
    CompletesAppend(o1, o2, id);
    if start < |file| {
      FeedStream(sha, s1, id, p, expected, file, start, 0, read);
    } else {
      CompletesMatches(sha, id, p, expected, file, s1.disk, o1);
    }
  }

  lemma OpensReceiving(sha: Digest, s: State, e: Event, file: Bytes)
    requires e.Init? && e.total == |file| && e.resume <= |file|
    requires e.resume > 0 ==> e.path in s.disk.parts && s.disk.parts[e.path].bytes == file[..e.resume]
    ensures var (t, out) := Step(sha, s, e);
            && (e.resume < |file| ==> Receiving(t, e.id, e.path, e.expected, file, e.resume) && !Completes(out, e.id))
            && (e.resume == |file| ==> Settled(sha, e.id, e.path, e.expected, file, t.disk, out))
            && (!Completes(out, e.id) ==> t.disk.finals == s.disk.finals)
  {
    var s1 := OpenState(s, e);
    assert Receiving(s1, e.id, e.path, e.expected, file, e.resume) && s1.disk.finals == s.disk.finals;
    FinalizeReceived(sha, s1, e.id, e.path, e.expected, file, e.resume);
    CompletesAppend([Ready(e.id, s1.sessions[e.id].offset)], FinalizeUpload(sha, s1, e.id).1, e.id);
    hide FinalizeUpload, OpenState, Matches;
  }

  /** With full reads the condition is plain arithmetic on the sizes. */
  lemma {:induction false} FullReadsCondition(file: Bytes, pos: nat, read: Reads)
    requires LegalReads(file, read) && FullReads(file, read) && pos <= |file|
    ensures ShortOnlyAtEnd(file, pos, read) <==> (|file| - pos) % CHUNK_SIZE != 0
    ensures NeverShort(file, pos, read) <==> (|file| - pos) % CHUNK_SIZE == 0
    decreases |file| - pos
  {
    if pos < |file| {
      ChunksLeft(|file| - pos, read(pos));
      FullReadsCondition(file, pos + read(pos), read);
    }
  }

  /** A file of exactly one chunk, read in full: no frame is FINAL, and the upload waits with all of it received. */
  lemma OneFullChunkStalls(
    sha: Digest, s: State, id: Id, client: ClientId, p: Path, expected: Option<string>, file: Bytes, read: Reads)
    requires |file| == CHUNK_SIZE && LegalReads(file, read) && FullReads(file, read)
    requires |id| <= FRAME_ID_SIZE && NoNulAtEnds(id)
    ensures var (s1, o1) := Step(sha, s, Init(id, client, p, expected, |file|, 0));
            var (t, o2) := Run(sha, s1, FrameEvents(id, Chunks(file, 0, 0, read)));
            !Completes(o1 + o2, id) && Receiving(t, id, p, expected, file, |file|)
  {
    FullReadsCondition(file, 0, read);
    FullReadsMarkTheEnd(file, 0, 0, read);
    DownloadIntoUpload(sha, s, id, client, p, expected, file, 0, read);
    assert !ShortOnlyAtEnd(file, 0, read) && NeverShort(file, 0, read);
  }

  /** A file of two bytes read one at a time: FINAL on the first frame fails the upload. */
  lemma EarlyFinalFails(sha: Digest, s: State, id: Id, client: ClientId, p: Path, expected: Option<string>, file: Bytes)
    requires |file| == 2 && |id| <= FRAME_ID_SIZE && NoNulAtEnds(id)
    ensures var (s1, o1) := Step(sha, s, Init(id, client, p, expected, 2, 0));
            var (t, o2) := Run(sha, s1, FrameEvents(id, Chunks(file, 0, 0, pos => 1)));
            !Completes(o1 + o2, id) && t.disk.finals == s.disk.finals
  {
    var read: Reads := pos => 1;
    assert Chunks(file, 2, 2, read) == [];
    DownloadIntoUpload(sha, s, id, client, p, expected, file, 0, read);
    assert !ShortOnlyAtEnd(file, 0, read);
  }
}
