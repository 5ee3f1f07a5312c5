/** The receiver as it runs: a registry of live session objects, updated in place, and the disk. */
module UploadServer {
  import opened Wrappers
  import opened Bytes
  import opened Framing
  import opened Upload

  class UploadSession {
    const path: Path
    const clientId: ClientId
    const totalSize: nat
    const expectedHash: Option<string>
    var file: Handle
    var hasher: Bytes
    var currentOffset: nat
    var lastSeq: nat

    constructor (u: Session)
      ensures View() == u
    {
      path, clientId, totalSize, expectedHash := u.path, u.client, u.total, u.expected;
      file, hasher, currentOffset, lastSeq := u.handle, u.absorbed, u.offset, u.lastSeq;
    }

    function View(): Session
      reads this
    {
      Session(path, clientId, file, hasher, currentOffset, totalSize, expectedHash, lastSeq)
    }

    /** Moves the handle, the hasher and the offset past a chunk. */
    method Account(chunk: Bytes, seqNo: nat)
      modifies this
      ensures View() == Accounted(old(View()), chunk, seqNo)
    {
      file := Advance(file, |chunk|);
      hasher := hasher + chunk;
      currentOffset := currentOffset + |chunk|;
      lastSeq := seqNo;
    }
  }

  class Receiver {
    const sha: Digest
    var parts: map<Path, Part>
    var states: map<Path, TransferState>
    var finals: map<Path, Bytes>
    var sessions: map<Id, UploadSession>
    var sent: seq<Output>
    ghost var model: map<Id, Session>  // what the session objects hold

    /** No session object is registered under two ids, and `held` is what the objects hold. */
    static ghost predicate Mirrors(objects: map<Id, UploadSession>, held: map<Id, Session>)
      reads objects.Values
    {
      && (forall i, j :: i in objects && j in objects && i != j ==> objects[i] != objects[j])
      && held.Keys == objects.Keys
      && (forall i :: i in objects ==> objects[i].View() == held[i])
    }

    ghost predicate Valid()
      reads this, sessions.Values
    {
      Mirrors(sessions, model)
    }

    lemma Held()
      requires Valid()
      ensures model.Keys == sessions.Keys && forall id :: id in sessions ==> sessions[id].View() == model[id]
    {}

    ghost function View(): State
      reads this
    {
      State(Disk(parts, states, finals), model)
    }

    constructor (sha: Digest, parts: map<Path, Part>, finals: map<Path, Bytes>)
      ensures Valid() && this.sha == sha && sent == []
      ensures View() == State(Disk(parts, map[], finals), map[])
    {
      this.sha, this.parts, this.finals := sha, parts, finals;
      states, sessions, sent, model := map[], map[], [], map[];
    }

    method CleanupPartial(p: Path)
      modifies this`parts, this`states
      ensures Disk(parts, states, finals) == Upload.CleanupPartial(old(Disk(parts, states, finals)), p)
      ensures p !in parts && p !in states
      ensures forall q :: q != p ==> (q in parts <==> q in old(parts)) && (q in states <==> q in old(states))
      ensures forall q :: (q in parts ==> parts[q] == old(parts)[q]) && (q in states ==> states[q] == old(states)[q])
    {
      parts := parts - {p};
      states := states - {p};
    }

    method Flush(p: Path)
      modifies this`parts
      ensures Disk(parts, states, finals) == Flushed(old(Disk(parts, states, finals)), p)
    {
      if p in parts {
        parts := parts[p := Part(parts[p].bytes, |parts[p].bytes|)];
      }
    }

    /** Publishes or discards the part file of a session already out of the registry. */
    method Settle(id: Id, session: UploadSession, ghost was: State)
      requires id in was.sessions && was.sessions[id] == session.View() && was.disk == Disk(parts, states, finals)
      modifies this`parts, this`states, this`finals, this`sent
      ensures Disk(parts, states, finals) == Upload.FinalizeUpload(sha, was, id).0.disk
      ensures sent == old(sent) + Upload.FinalizeUpload(sha, was, id).1
    {
      Flush(session.path);
      var hash := sha(session.hasher);
      if session.currentOffset != session.totalSize {
        sent := sent + [SizeMismatch(id, session.totalSize, session.currentOffset)];
        CleanupPartial(session.path);
        return;
      }
      if session.expectedHash.Some? && !EqIgnoreAsciiCase(session.expectedHash.value, hash) {
        sent := sent + [HashMismatch(id)];
        CleanupPartial(session.path);
        return;
      }
      if session.path !in parts { return; }
      finals := finals[session.path := parts[session.path].bytes];
      CleanupPartial(session.path);
      sent := sent + [Complete(id, hash)];
    }

    method FinalizeUpload(id: Id)
      requires Valid()
      modifies this
      ensures Valid() && sessions.Values <= old(sessions.Values)
      ensures var (s', o) := Upload.FinalizeUpload(sha, old(View()), id);
              View() == s' && sent == old(sent) + o
    {
      hide Upload.FinalizeUpload, Mirrors;
      Held();
      FinalizeForgets(sha, View(), id);
      if id !in sessions { return; }
      var session := sessions[id];
      ghost var was := View();
      Forget(id);
      Settle(id, session, was);
    }

    method Write(p: Path, h: Handle, data: Bytes)
      modifies this`parts
      ensures Disk(parts, states, finals) == Written(old(Disk(parts, states, finals)), p, h, data)
    {
      if p in parts {
        parts := parts[p := parts[p].(bytes := WriteThrough(parts[p].bytes, h, data))];
      }
    }

    /** Opens or recreates the part file; `hasher` is what has to be hashed before the first chunk. */
    method OpenPart(p: Path, resume: nat) returns (file: Handle, hasher: Bytes, actual: nat)
      modifies this`parts
      ensures forall e: Event :: e.Init? && e.path == p && e.resume == resume ==>
                var (part, u) := Opened(old(Disk(parts, states, finals)), e);
                && parts == old(parts)[p := part]
                && u == Session(p, e.client, file, hasher, actual, e.total, e.expected, 0)
    {
      actual, file := 0, At(0);
      if resume > 0 && p in parts && |parts[p].bytes| == resume {
        actual, file := resume, Appending;
        parts := parts[p := Part(parts[p].bytes, resume)];
      } else {
        parts := parts[p := Part([], 0)];
      }
      hasher := [];
      if actual > 0 {
        hasher := parts[p].bytes;
      }
    }

    /** Registers a session object under an id, in place of one that may be there. */
    method Register(id: Id, u: Session)
      requires Valid()
      modifies this`sessions, this`model
      ensures Valid() && fresh(sessions.Values - old(sessions.Values))
      ensures model == old(model)[id := u]
    {
      var session := new UploadSession(u);
      sessions := sessions[id := session];
      model := model[id := u];
    }

    method Open(id: Id, client: ClientId, path: Path, hash: Option<string>, total: nat, resume: nat)
      returns (actual: nat)
      requires Valid()
      modifies this
      ensures Valid() && fresh(sessions.Values - old(sessions.Values))
      ensures View() == OpenState(old(View()), Init(id, client, path, hash, total, resume))
      ensures id in model && actual == model[id].offset && model[id].total == total
      ensures sent == old(sent) + [Ready(id, actual)]
    {
      var file, hasher;
      file, hasher, actual := OpenPart(path, resume);
      states := states[path := TransferState(id, total, actual, hash, 0)];
      Register(id, Session(path, client, file, hasher, actual, total, hash, 0));
      sent := sent + [Ready(id, actual)];
    }

    method HandleTransferInit(id: Id, client: ClientId, path: Path, hash: Option<string>, total: nat, resume: nat)
      requires Valid()
      modifies this
      ensures Valid() && fresh(sessions.Values - old(sessions.Values))
      ensures var (s', o) := Step(sha, old(View()), Init(id, client, path, hash, total, resume));
              View() == s' && sent == old(sent) + o
    {
      hide Mirrors, Upload.FinalizeUpload, Opened;
      var actual := Open(id, client, path, hash, total, resume);
      if actual == total {
        FinalizeUpload(id);
      }
    }

    /** Accounts for a chunk in the live session of an id. */
    method AccountFor(id: Id, chunk: Bytes, seqNo: nat)
      requires Valid() && id in sessions
      modifies this`model, sessions[id]
      ensures Valid()
      ensures model == old(model)[id := Accounted(old(model)[id], chunk, seqNo)]
    {
      sessions[id].Account(chunk, seqNo);
      model := model[id := sessions[id].View()];
    }

    /** Writes the chunk, accounts for it, flushes when due and rewrites the state file. */
    method AcceptChunk(h: Header, chunk: Bytes)
      requires Valid() && h.id in sessions
      modifies this`parts, this`states, this`model, sessions[h.id]
      ensures Valid()
      ensures View() == Accept(old(View()), h, chunk)
    {
      hide WriteThrough, FlushDue, IsFinal, Mirrors;
      Held();
      var session := sessions[h.id];
      Write(session.path, session.file, chunk);
      AccountFor(h.id, chunk, h.seqNo);
      Held();
      if FlushDue(IsFinal(h.flags), session.currentOffset, |chunk|) {
        Flush(session.path);
      }
      states := states[session.path := TransferState(h.id, session.totalSize, session.currentOffset,
                                                     session.expectedHash, session.lastSeq)];
    }

    /** A chunk whose offset has been checked. */
    method TakeChunk(h: Header, chunk: Bytes)
      requires Valid() && h.id in sessions
      modifies this, sessions[h.id]
      ensures Valid() && sessions.Values <= old(sessions.Values)
      ensures var (s', o) := AcceptAndFinalize(sha, old(View()), h, chunk);
              View() == s' && sent == old(sent) + o
    {
      hide Accept, Upload.FinalizeUpload, IsFinal, AcksFor, Mirrors;
      Held();
      AcceptIn(View(), h, chunk);
      AcceptChunk(h, chunk);
      Held();
      sent := sent + AcksFor(h, sessions[h.id].currentOffset);
      if IsFinal(h.flags) {
        FinalizeUpload(h.id);
      }
    }

    method HandleTransferChunkRaw(data: Bytes)
      requires Valid()
      modifies this, sessions.Values
      ensures Valid() && sessions.Values <= old(sessions.Values)
      ensures var (s', o) := Step(sha, old(View()), Frame(data));
              View() == s' && sent == old(sent) + o
    {
      hide Mirrors, AcceptAndFinalize;
      Held();
      var header := ParseFrameHeader(data);
      if header.None? { return; }
      if header.value.id !in sessions { return; }
      if header.value.offset != sessions[header.value.id].currentOffset { return; }
      TakeChunk(header.value, data[FRAME_HEADER_SIZE..]);
    }

    method HandleTransferCancel(id: Id)
      requires Valid()
      modifies this
      ensures Valid() && sessions.Values <= old(sessions.Values)
      ensures var (s', o) := Step(sha, old(View()), Cancel(id));
              View() == s' && sent == old(sent) + o
    {
      hide Mirrors;
      Held();
      if id in sessions {
        var session := sessions[id];
        Forget(id);
        CleanupPartial(session.path);
        sent := sent + [Cancelled(id)];
      }
      sent := sent + [CancelReply(id)];
    }

    /** Drops the live session of an id; what is on disk stays. */
    method Forget(id: Id)
      requires Valid() && id in sessions
      modifies this`sessions, this`model
      ensures Valid() && sessions.Values <= old(sessions.Values) && sessions == old(sessions) - {id}
      ensures model == old(model) - {id}
    {
      sessions := sessions - {id};
      model := model - {id};
    }

    /** The ids whose session belongs to a client. */
    method SessionsOf(client: ClientId) returns (ids: set<Id>)
      requires Valid()
      ensures ids == set id | id in model && model[id].client == client
    {
      ids := set id | id in sessions && sessions[id].clientId == client;
      assert forall id :: id in sessions ==> sessions[id].View() == model[id];
    }

    method ForgetAll(ids: set<Id>)
      requires Valid() && ids <= model.Keys
      modifies this`sessions, this`model
      ensures Valid() && sessions.Values <= old(sessions.Values)
      ensures model.Keys == old(model).Keys - ids && sessions == old(sessions) - ids
      ensures forall id :: id in model ==> model[id] == old(model)[id]
    {
      hide Mirrors;
      Held();
      var left := ids;
      while left != {}
        invariant Valid() && sessions.Values <= old(sessions.Values)
        invariant left <= ids && model.Keys == old(model).Keys - (ids - left) && sessions.Keys == model.Keys
        invariant sessions == old(sessions) - (ids - left)
        invariant forall id :: id in model ==> model[id] == old(model)[id]
      {
        var id :| id in left;
        left := left - {id};
        Forget(id);
        Held();
      }
    }

    method CleanupClientUploads(client: ClientId)
      requires Valid()
      modifies this`sessions, this`model
      ensures Valid() && sessions.Values <= old(sessions.Values)
      ensures View() == Step(sha, old(View()), Disconnect(client)).0
      ensures forall id :: id in sessions <==> id in old(sessions) && old(sessions[id].clientId) != client
      ensures forall id :: id in sessions ==> sessions[id] == old(sessions)[id]
    {
      hide Mirrors;
      Held();
      var toRemove := SessionsOf(client);
      ForgetAll(toRemove);
      assert model == StepDisconnect(old(View()), client).sessions;
    }
  }
}
