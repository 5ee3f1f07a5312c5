/**
 The receiving side of a file transfer: one step for every message or event that touches it.
 A file being received is kept in a part file; a session holds the open handle, the offset
 and the bytes its running hash has absorbed. The digest is the parameter `sha`, as a hex string.
 */
module Upload {
  import opened Wrappers
  import opened Bytes
  import opened Framing

  type Id = Bytes
  type Path(==, !new) = string
  type ClientId = string
  type Digest = Bytes -> string

  const FLUSH_INTERVAL: nat := 1024 * 1024

  /** How the part file was opened: appending (a resumed upload) or with a cursor of its own. */
  datatype Handle = Appending | At(cursor: nat)

  datatype Session = Session(
    path: Path, client: ClientId, handle: Handle, absorbed: Bytes,
    offset: nat, total: nat, expected: Option<string>, lastSeq: nat)

  /** The record persisted beside the part file. */
  datatype TransferState = TransferState(
    id: Id, total: nat, offset: nat, expected: Option<string>, lastSeq: nat)

  /** A part file and how many of its bytes have been flushed out of the process. */
  datatype Part = Part(bytes: Bytes, flushed: nat)

  datatype Disk = Disk(parts: map<Path, Part>, states: map<Path, TransferState>, finals: map<Path, Bytes>)

  datatype State = State(disk: Disk, sessions: map<Id, Session>)

  datatype Event =
    | Init(id: Id, client: ClientId, path: Path, expected: Option<string>, total: nat, resume: nat)
    | Frame(data: Bytes)
    | Cancel(id: Id)
    | Disconnect(client: ClientId)
    | Restart(kept: Path -> nat)

  datatype Output =
    | Ready(id: Id, offset: nat)
    | Ack(id: Id, offset: nat, seqNo: nat)
    | Complete(id: Id, hash: string)
    | SizeMismatch(id: Id, expected: nat, received: nat)
    | HashMismatch(id: Id)
    | Cancelled(id: Id)    // a live upload was dropped and its partial files removed
    | CancelReply(id: Id)  // the reply to every cancel request

  // ----- The part file -----

  /** A write through a handle. Bytes skipped over by a cursor past the end read as zero. */
  function WriteThrough(was: Bytes, h: Handle, data: Bytes): Bytes {
    match h
    case Appending => was + data
    case At(c) =>
      if data == [] then was
      else
        var padded := if |was| < c then was + Zeros(c - |was|) else was;
        padded[..c] + data + if c + |data| < |was| then was[c + |data|..] else []
  }

  function Advance(h: Handle, n: nat): Handle {
    match h
    case Appending => Appending
    case At(c) => At(c + n)
  }

  function LowerAscii(c: char): char {
    if 'A' <= c <= 'Z' then (c as int + 32) as char else c
  }

  predicate EqIgnoreAsciiCase(a: string, b: string) {
    |a| == |b| && forall i :: 0 <= i < |a| ==> LowerAscii(a[i]) == LowerAscii(b[i])
  }

  /** The source's test after a chunk of `len` bytes has moved the offset to `offset`. */
  predicate FlushDue(isFinal: bool, offset: nat, len: nat) {
    isFinal || offset % FLUSH_INTERVAL < len
  }

  function CleanupPartial(d: Disk, p: Path): Disk {
    d.(parts := d.parts - {p}, states := d.states - {p})
  }

  function Flushed(d: Disk, p: Path): Disk {
    if p in d.parts then d.(parts := d.parts[p := Part(d.parts[p].bytes, |d.parts[p].bytes|)]) else d
  }

  function Written(d: Disk, p: Path, h: Handle, data: Bytes): Disk {
    if p in d.parts then
      d.(parts := d.parts[p := d.parts[p].(bytes := WriteThrough(d.parts[p].bytes, h, data))])
    else d
  }

  // ----- The steps -----

  /** A resume is honoured only when the part file has exactly the claimed length; otherwise it is recreated. */
  predicate Resumes(d: Disk, p: Path, resume: nat) {
    resume > 0 && p in d.parts && |d.parts[p].bytes| == resume
  }

  function Opened(d: Disk, e: Event): (Part, Session)
    requires e.Init?
  {
    if Resumes(d, e.path, e.resume) then
      var bytes := d.parts[e.path].bytes;
      (Part(bytes, |bytes|),
       Session(e.path, e.client, Appending, bytes, e.resume, e.total, e.expected, 0))
    else
      (Part([], 0), Session(e.path, e.client, At(0), [], 0, e.total, e.expected, 0))
  }

  function Snapshot(id: Id, s: Session): TransferState {
    TransferState(id, s.total, s.offset, s.expected, s.lastSeq)
  }

  function FinalizeUpload(sha: Digest, s: State, id: Id): (State, seq<Output>) {
    if id !in s.sessions then (s, [])
    else
      var u := s.sessions[id];
      var rest := s.sessions - {id};
      var d := Flushed(s.disk, u.path);
      var hash := sha(u.absorbed);
      if u.offset != u.total then
        (State(CleanupPartial(d, u.path), rest), [SizeMismatch(id, u.total, u.offset)])
      else if u.expected.Some? && !EqIgnoreAsciiCase(u.expected.value, hash) then
        (State(CleanupPartial(d, u.path), rest), [HashMismatch(id)])
      else if u.path !in d.parts then
        (State(d, rest), [])  // the rename fails
      else
        var d' := Disk(d.parts - {u.path}, d.states - {u.path}, d.finals[u.path := d.parts[u.path].bytes]);
        (State(d', rest), [Complete(id, hash)])
  }

  lemma FinalizeForgets(sha: Digest, s: State, id: Id)
    ensures FinalizeUpload(sha, s, id).0.sessions == s.sessions - {id}
    ensures id !in s.sessions ==> FinalizeUpload(sha, s, id) == (s, [])
  {}

  /** The part file is open, the state file written and the session registered; finalization has not run. */
  function OpenState(s: State, e: Event): State
    requires e.Init?
  {
    var (part, u) := Opened(s.disk, e);
    State(s.disk.(parts := s.disk.parts[e.path := part], states := s.disk.states[e.path := Snapshot(e.id, u)]),
          s.sessions[e.id := u])
  }

  function StepInit(sha: Digest, s: State, e: Event): (State, seq<Output>)
    requires e.Init?
  {
    var s1 := OpenState(s, e);
    var u := s1.sessions[e.id];
    if u.offset == u.total then
      var (s2, o) := FinalizeUpload(sha, s1, e.id);
      (s2, [Ready(e.id, u.offset)] + o)
    else
      (s1, [Ready(e.id, u.offset)])
  }

  function Accounted(u: Session, chunk: Bytes, seqNo: nat): Session {
    u.(handle := Advance(u.handle, |chunk|), absorbed := u.absorbed + chunk,
       offset := u.offset + |chunk|, lastSeq := seqNo)
  }

  /** The chunk has been written and accounted for; finalization has not run. */
  function Accept(s: State, h: Header, chunk: Bytes): State
    requires h.id in s.sessions
  {
    var u := s.sessions[h.id];
    var u' := Accounted(u, chunk, h.seqNo);
    var d1 := Written(s.disk, u.path, u.handle, chunk);
    var d2 := if FlushDue(IsFinal(h.flags), u'.offset, |chunk|) then Flushed(d1, u.path) else d1;
    State(d2.(states := d2.states[u.path := Snapshot(h.id, u')]), s.sessions[h.id := u'])
  }

  lemma AcceptIn(s: State, h: Header, chunk: Bytes)
    requires h.id in s.sessions
    ensures Accept(s, h, chunk).sessions == s.sessions[h.id := Accounted(s.sessions[h.id], chunk, h.seqNo)]
  {}

  /** The session a frame is for, when the receiver accepts it. */
  predicate Accepts(s: State, data: Bytes) {
    && ParseFrameHeader(data).Some?
    && var h := ParseFrameHeader(data).value;
       h.id in s.sessions && h.offset == s.sessions[h.id].offset
  }

  function AcksFor(h: Header, offset: nat): seq<Output> {
    if WantsAck(h.flags) || h.seqNo % 50 == 0 then [Ack(h.id, offset, h.seqNo)] else []
  }

  function AcceptAndFinalize(sha: Digest, s: State, h: Header, chunk: Bytes): (State, seq<Output>)
    requires h.id in s.sessions
  {
    var s1 := Accept(s, h, chunk);
    var acks := AcksFor(h, s1.sessions[h.id].offset);
    if IsFinal(h.flags) then
      var (s2, o) := FinalizeUpload(sha, s1, h.id);
      (s2, acks + o)
    else (s1, acks)
  }

  function StepFrame(sha: Digest, s: State, data: Bytes): (State, seq<Output>) {
    if !Accepts(s, data) then (s, [])
    else AcceptAndFinalize(sha, s, ParseFrameHeader(data).value, data[FRAME_HEADER_SIZE..])
  }

  function StepCancel(s: State, id: Id): (State, seq<Output>) {
    if id in s.sessions then
      (State(CleanupPartial(s.disk, s.sessions[id].path), s.sessions - {id}), [Cancelled(id), CancelReply(id)])
    else (s, [CancelReply(id)])
  }

  function StepDisconnect(s: State, client: ClientId): State {
    s.(sessions := map id | id in s.sessions && s.sessions[id].client != client :: s.sessions[id])
  }

  /** The process is restarted: the registry is lost, and of each part file any amount not yet flushed. */
  function StepRestart(s: State, kept: Path -> nat): State {
    State(s.disk.(parts := map p | p in s.disk.parts :: Truncated(s.disk.parts[p], kept(p))), map[])
  }

  function Truncated(part: Part, kept: nat): Part {
    if part.flushed <= kept <= |part.bytes| then Part(part.bytes[..kept], kept) else part
  }

  function Step(sha: Digest, s: State, e: Event): (State, seq<Output>) {
    match e
    case Init(_, _, _, _, _, _) => StepInit(sha, s, e)
    case Frame(data) => StepFrame(sha, s, data)
    case Cancel(id) => StepCancel(s, id)
    case Disconnect(client) => (StepDisconnect(s, client), [])
    case Restart(kept) => (StepRestart(s, kept), [])
  }

  /** The state after a run, and everything sent during it. */
  function Run(sha: Digest, s: State, es: seq<Event>): (State, seq<Output>)
    decreases |es|
  {
    if es == [] then (s, [])
    else
      var (s1, o1) := Step(sha, s, es[0]);
      var (s2, o2) := Run(sha, s1, es[1..]);
      (s2, o1 + o2)
  }
}
