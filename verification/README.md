# Frankn, verified models

Frankn lets a phone or desktop client reach a host over WebRTC, with a signaling server in between. These Dafny
modules model the state machines whose guarantees hold over unbounded runs, and two small codecs, and prove those
guarantees.

| files | what they are |
|---|---|
| `Bytes`, `Framing` | big-endian numbers and the 50-byte header of a transfer frame |
| `Upload`, `UploadEffects`, `UploadRuns`, `UploadServer` | the resumable receiver: transition function, what each event does, what every run keeps, and the objects and maps that refine it |
| `Download`, `TransferLoop` | the chunking sender, and sender and receiver put together |
| `Envelope` | the 160-byte signed envelope and the OPAQUE login context |
| `Relay`, `RelayEffects`, `RelayRuns`, `Presence`, `RelayServer` | the signaling server: transition function, what each message does and who is on record, pairing and replay over runs, presence over runs, and the shared maps that refine it |
| `Outbox`, `IceBuffer` | two lock protocols, one step for each lock operation |
| `Login`, `LoginSucceeds`, `AuthManager` | login attempts with their timers, exactly when they start and succeed, and the two maps that refine them |
| `Gate`, `GateRuns`, `GateProgress` | the role gate and pairing, one step for each lock operation, on top of `Login`: what is never let through, and what always is |
| `Registries`, `RegistryEffects`, `RegistryServer` | the node registry and the capability inventory, what each event does to them, and the objects that refine them |
| `ToolCall`, `TypeText` | the tool-call parser and the virtual keyboard |

`dafny verify dfyconfig.toml` covers the whole project.

Each imperative part of Rust is a class or a method proved equal to a transition function; the theorems over runs are
about that function. A run is any finite sequence of events, with the times at which they happen. Cryptography is a
parameter: SHA-256 and Ed25519 verification are functions the theorems quantify over, a hasher is the bytes it has
absorbed, base64url decoding is a function that may fail, and random session ids come with the event and are assumed
fresh where a theorem says so. OPAQUE (section 6 of RFC 9807) answers come with the event too.

## Where the code does less than its design says

- Two live uploads to one path damage the file although the hash matches (`UploadRuns.TwoUploadsCorruptOneFile`). `UploadRuns.AlwaysSyncExactly` says which events do: exactly those that truncate, write, finalize or remove the part file while another upload to the path is live. The transfer theorems ask that there be none, which one upload at a time ensures (`UploadRuns.OneAtATimeIsUndisturbed`).
- A download whose rest is a multiple of 61440 bytes has no FINAL frame, and a short read in the middle sets FINAL too early; `TransferLoop.DownloadIntoUpload` says exactly which downloads a receiver built like this one would complete, and `OneFullChunkStalls` and `EarlyFinalFails` give one of each kind.
- Presence stays wrong after the id of a live host is registered again as a client while a client was told it is online (`PresenceRuns.RetypedHostMisleads`), and over a whole run only then (`PresenceRuns.PresenceAgreement`).
- Between two hosts the pairing window of the sending host is not enforced when the target admits the sender (`RelayRuns.PrivateHostReachesOutsider`), and only then (`RelayRuns.SendersPolicyBindsExactly`).
- A capability that a node drops when it registers again stays in the inventory (`Registries.StaleEntryRemains`); `Registries.NeverStaleExactly` says which runs never show one.
- The tool-call parser panics on a text that closes a call before opening it (`ToolCall.ClosingFirstPanics`), and on no other (`ToolCall.PanicsExactly`).

## Model

| member | source | states |
|---|---|---|
| `Framing.FrameRoundTrip` | frankn-host/src/capabilities/fs/transfer/framing.rs:19-38 | Parsing what the sender frames gives back id, offset, number, flags and payload, for all u64 offsets, u32 numbers, flags and payloads, if and only if the id has at most 36 bytes and no NUL at either end |
| `Framing.ParsedFrameRebuilds` | frankn-host/src/capabilities/fs/transfer/framing.rs:19-38 | The other direction: an accepted frame is byte for byte what the sender builds from its parsed fields, if and only if its id field does not start with a NUL or is all NULs |
| `Framing.FrameLayout` | frankn-host/src/capabilities/fs/transfer/download.rs:152-167 | The place of every field of a frame: magic, id, offset, number, flags, payload |
| `Bytes.FromBEToBE` | frankn-host/src/capabilities/fs/transfer/framing.rs:34-35 | Big-endian decoding undoes encoding for every value that fits |
| `Bytes.ToBEFromBE` | frankn-host/src/capabilities/fs/transfer/framing.rs:34-35 | Big-endian encoding undoes decoding for every byte string |
| `Bytes.BigEndianDigit` | frankn-host/src/capabilities/fs/transfer/framing.rs:34-35 | Each encoded byte is the digit of its place, most significant first |
| `UploadRuns.FlushDueExactly` | frankn-host/src/capabilities/fs/transfer/upload.rs:261-263 | A chunk is flushed if and only if it is FINAL or some multiple of 2^20 lies in (old offset, new offset] |
| `UploadRuns.RunKeepsSync` | frankn-host/src/capabilities/fs/transfer/upload.rs:209-294 | In every undisturbed run, one in which no event takes the part file of the path from under another live upload to it, the offset, write cursor and hasher of every live session of the path agree with the part file |
| `UploadRuns.PartAlwaysPrefix` | frankn-host/src/capabilities/fs/transfer/upload.rs:209-294 | In every undisturbed run with honest payloads in the accepted frames, whatever is duplicated, lost or reordered, through cancels, disconnects, resumes and restarts, the part file is a prefix of the source, its length is the offset of every live session of the path, and their hashers have absorbed exactly it |
| `UploadRuns.FlushBound` | frankn-host/src/capabilities/fs/transfer/upload.rs:257-263 | At every moment of every undisturbed run fewer than 2^20 bytes of the part file are unflushed |
| `UploadRuns.CompletedFileHasReportedHash` | frankn-host/src/capabilities/fs/transfer/upload.rs:296-363 | After an undisturbed run and whatever the payloads were, the file in place after a completion has the announced size, the reported hash, and the announced hash if there was one |
| `UploadRuns.ExactUpload` | frankn-host/src/capabilities/fs/transfer/upload.rs:296-363 | After an undisturbed run with honest payloads, whenever an upload is reported complete with the announced size of the source, the file in place is the source and the reported hash is the hash of the source; with a smaller announced size it is the prefix of that length |
| `UploadRuns.OneOutcomePerInit` | frankn-host/src/capabilities/fs/transfer/upload.rs:158-206 | Over every run an id has at most one of complete, size mismatch, hash mismatch and cancelled for each time it was opened |
| `UploadRuns.OutcomeCleansUp` | frankn-host/src/capabilities/fs/transfer/upload.rs:296-363 | After any outcome the id is unregistered, neither the part nor the state file of its path remains, and every part, state and finished file of every other path is what it was |
| `UploadRuns.UnopenedIdIsInert` | frankn-host/src/capabilities/fs/transfer/upload.rs:230-238 | Until an id is opened again, in any run, every frame for it leaves the state as it was and sends nothing |
| `UploadRuns.StepSyncExactly` | frankn-host/src/capabilities/fs/transfer/upload.rs:107-363 | A step keeps offset, write cursor, hasher and part file of all live sessions of a path in agreement if and only if it does not disturb: while another upload to the path is live, open it truncating a part file that has bytes or finalizing at once, accept a frame for it that writes or is FINAL, or cancel an upload to it |
| `UploadRuns.AlwaysSyncExactly` | frankn-host/src/capabilities/fs/transfer/upload.rs:17-363 | Over whole runs: they agree at every moment if and only if no event of the run disturbs |
| `UploadRuns.OneAtATimeIsUndisturbed` | frankn-host/src/capabilities/fs/transfer/upload.rs:17-294 | A run that never opens an upload to the path beside a live one is undisturbed |
| `UploadRuns.TwoUploadsCorruptOneFile` | frankn-host/src/capabilities/fs/transfer/upload.rs:107-119 | A concrete run with a disturbing event: a second upload truncates the part file of a first, which is reported complete with the hash of what was sent while the file in place starts with zeros |
| `UploadEffects.FlagBits` | frankn-host/src/capabilities/fs/transfer/framing.rs:9-10 | FINAL and ACK are bits 1 and 2 of the flags, whatever the other bits are |
| `UploadEffects.WriteAtCursor` | frankn-host/src/capabilities/fs/transfer/upload.rs:252-255 | A write at a cursor changes the bytes it covers and no others, and a gap before it reads as zeros |
| `UploadEffects.InitOpens` | frankn-host/src/capabilities/fs/transfer/upload.rs:17-179 | An init is answered with the offset it resumes from, which is the one claimed if the part file has that length and 0 otherwise; then either the upload is registered for its client with what it keeps, or, with nothing lacking, it ends at once with the verdict on it; everything else on disk and in the registry stays |
| `UploadEffects.OtherFramesIgnored` | frankn-host/src/capabilities/fs/transfer/upload.rs:209-238 | A frame that is malformed, for no live upload, or not at its offset changes nothing and is not answered |
| `UploadEffects.FrameTaken` | frankn-host/src/capabilities/fs/transfer/upload.rs:209-294 | Any other frame adds its payload to part file, hasher and offset of its upload and is acknowledged when it asks for it or its number is a multiple of 50; a FINAL one ends the upload with the verdict on all received: complete, wrong size or wrong hash; nothing else changes |
| `UploadEffects.FlushedExactly` | frankn-host/src/capabilities/fs/transfer/upload.rs:257-266 | A frame that is not FINAL leaves everything flushed if it reaches or crosses a multiple of 2^20, and what was flushed before otherwise |
| `UploadEffects.SameButCase` | frankn-host/src/capabilities/fs/transfer/upload.rs:331-333 | Hashes agree when they differ in nothing but the case of ASCII letters |
| `UploadEffects.CancelDrops` | frankn-host/src/capabilities/fs/transfer/upload.rs:181-207 | A cancel is always answered, and takes session, part and state file of a live upload and nothing else |
| `UploadEffects.DisconnectDropsExactly` | frankn-host/src/capabilities/fs/transfer/upload.rs:365-384 | A client that leaves takes exactly its own uploads from the registry, and no file |
| `UploadEffects.OthersGoOn` | frankn-host/src/capabilities/fs/transfer/upload.rs:365-384 | A frame for the upload of another client is taken, answered and written after that exactly as before |
| `UploadEffects.RestartKeepsFlushed` | frankn-host/src/capabilities/fs/transfer/upload.rs:257-266 | A restart loses the registry and of each part file at most what was not flushed |
| `UploadServer.Receiver.OpenPart` | frankn-host/src/capabilities/fs/transfer/upload.rs:51-134 | Opens the part file for appending and hashes it exactly when the resume offset is positive and equals its length, and recreates it otherwise |
| `UploadServer.Receiver.HandleTransferInit` | frankn-host/src/capabilities/fs/transfer/upload.rs:17-179 | The method on session objects and disk maps reaches the state and sends the replies of the transition function, including the finalization of an upload that has nothing left to receive |
| `UploadServer.Receiver.AcceptChunk` | frankn-host/src/capabilities/fs/transfer/upload.rs:252-273 | Write, account, flush when due and rewrite the state file, in place, as the transition function says |
| `UploadServer.Receiver.HandleTransferChunkRaw` | frankn-host/src/capabilities/fs/transfer/upload.rs:209-294 | The method refines the transition: malformed frames, unknown ids and wrong offsets change nothing |
| `UploadServer.Receiver.FinalizeUpload` | frankn-host/src/capabilities/fs/transfer/upload.rs:296-363 | The method refines the transition function for its four outcomes |
| `UploadServer.Receiver.HandleTransferCancel` | frankn-host/src/capabilities/fs/transfer/upload.rs:181-207 | The method refines the transition: session and partial files go, and the reply is sent either way |
| `UploadServer.Receiver.CleanupPartial` | frankn-host/src/capabilities/fs/transfer/state.rs:55-58 | The path has neither a part nor a state file afterwards, and every other path has what it had |
| `UploadServer.Receiver.CleanupClientUploads` | frankn-host/src/capabilities/fs/transfer/upload.rs:365-384 | The two-pass loop leaves the disk alone, drops exactly the sessions whose client has left, and keeps every other as it was |
| `Download.PushFrame` | frankn-host/src/capabilities/fs/transfer/download.rs:152-167 | The frame pushed byte by byte into a buffer is the frame of the layout |
| `Download.StreamDownload` | frankn-host/src/capabilities/fs/transfer/download.rs:114-198 | What the frames sent carry after their headers is a prefix of file[resume..], all of it unless cancelled or a send fails, and nothing for a resume at or past the end; the first frame says the offset resumed from; the stream ends with the hash of the whole file unless cancelled |
| `Download.StreamRebuildsFile` | frankn-host/src/capabilities/fs/transfer/download.rs:138-188 | For every file, resume offset and split of reads, with fewer than 2^32 frames: from min(resume, size) on, frames are numbered 1, 2, 3, ..., each starts where the payloads before it end, FINAL marks exactly the short reads, and the payloads are the rest of the file |
| `Download.StreamCarriesTheRest` | frankn-host/src/capabilities/fs/transfer/download.rs:53-188 | Whatever number of the frames is sent, they carry a prefix of file[resume..]; there is a frame to send if and only if resume is below the size, and the first is at the offset resumed from |
| `Download.FullReadsMarkTheEnd` | frankn-host/src/capabilities/fs/transfer/download.rs:164-166 | With full reads FINAL is on the last frame only, and is missing if and only if the rest is a multiple of 61440 bytes |
| `Download.EncodeSays` | frankn-host/src/capabilities/fs/transfer/download.rs:152-167 | Every frame of the stream parses to its own id, offset, number, flags and payload |
| `TransferLoop.DownloadIntoUpload` | frankn-host/src/capabilities/fs/transfer/download.rs:114-198 | Feeding the frames to an upload resumed at min(resume, size), where the download starts, announced with any hash or none, completes it, as the file and under its hash, if and only if nothing was left to send or the first short read was the one that reached the end, and the announced hash is that of the file; everything sent and another hash announced, it is turned down for the hash; when no read was short the upload still waits with the whole file received; and without a completion no finished file changes |
| `TransferLoop.OneFullChunkStalls` | frankn-host/src/capabilities/fs/transfer/download.rs:164-166 | A file of exactly one full chunk is never completed: all of it is received and the upload waits |
| `TransferLoop.EarlyFinalFails` | frankn-host/src/capabilities/fs/transfer/download.rs:164-166 | A file of two bytes read one at a time is not completed either: the first frame is already FINAL |
| `TransferLoop.FullReadsCondition` | frankn-host/src/capabilities/fs/transfer/download.rs:138-166 | With full reads that condition is arithmetic: the rest is not a multiple of 61440 bytes |
| `Envelope.CopyFrom` | frankn-host/src/signaling/mod.rs:327-372 | A slice copy into the buffer changes that slice and nothing after it |
| `Envelope.SignerBuffer` | frankn-host/src/signaling/mod.rs:316-377 | The 160-byte buffer filled in place holds exactly the canonical encoding of the fields, or the first field that does not decode to 32 bytes is reported |
| `Envelope.EncodedPlaces` | frankn-host/src/signaling/mod.rs:316-377 | The place of each field in the 160 bytes, after the 14 bytes of the domain text and the version |
| `Envelope.FieldsMeaning` | frankn-host/src/signaling/mod.rs:316-377 | There are bytes to sign if and only if session and both ends decode to 32 bytes, and the fields are those and the digest of the payload |
| `RelayServer.RebuildEnvelope` | frankn-signaling-server/src/main.rs:83-120 | The buffer the server fills holds the same encoding of the received message |
| `RelayServer.SignerAndServerAgree` | frankn-signaling-server/src/main.rs:83-120 | Signer and server build the same bytes, or fail on the same field |
| `Envelope.EncodedInjective` | frankn-host/src/signaling/mod.rs:324-372 | Equal encodings of well-sized fields come from equal fields |
| `Envelope.SignedBytesFixMessage` | frankn-host/src/signaling/mod.rs:316-377 | Equal signed bytes mean the same kind, session, sequence, timestamp, ends and payload hash, as the strings of the message, when decoding is injective |
| `Envelope.LoginContext` | frankn-opaque/src/lib.rs:49-61 | The loop that extends the buffer builds label and length-prefixed identities, and answers nothing exactly for an identity that is empty or over 256 bytes |
| `Envelope.ContextPlaces` | frankn-opaque/src/lib.rs:49-61 | The place of label, lengths and identities in the login context |
| `Envelope.ContextInjective` | frankn-opaque/src/lib.rs:49-61 | The login context is injective in the pair of client and host |
| `RelayRuns.PairingQueueBounded` | frankn-signaling-server/src/main.rs:442-463 | In every reachable state pending peers are outside the ACL, at most 128, and only of private hosts; every registered id is the digest of its key, and registrations and connections match |
| `RelayRuns.AuthorizeMeaning` | frankn-signaling-server/src/main.rs:177-221 | Authorization read as the policy of one host, the target if it is one and else the sender: accepted if and only if that one is a host and it is public, or has the other end in its ACL, or is made an offer by a client, or has an open pairing window for the other end and the signal is an answer to a client or a candidate |
| `RelayRuns.RelaysJustified` | frankn-signaling-server/src/main.rs:60-224 | In every run each relayed signal was signed, over its 160 bytes and under the session registered for the sender, by the key its sender id is the digest of; it has a host at one end; an offer to a private host from outside its ACL is from a client; and an answer or candidate between a private host and a peer outside its ACL comes less than 120 s after a relayed offer from that peer in the present registration of the host |
| `RelayRuns.SendersPolicyBindsExactly` | frankn-signaling-server/src/main.rs:181-221 | For every signal: whichever host stands in the place of the sender, the signal passes only if that host is public, lists the target or has a window open for it, if and only if the target is a client or a host that itself refuses the signal |
| `RelayRuns.PrivateHostReachesOutsider` | frankn-signaling-server/src/main.rs:181-198 | Where it does not: a run from the start in which a private host has a candidate relayed to a public host outside its ACL with no offer ever relayed |
| `RelayRuns.StepAccepts` | frankn-signaling-server/src/main.rs:158-174 | A sequence number is consumed if and only if the signal is authentic, whatever the ACL then says |
| `RelayRuns.NoDoubleRelay` | frankn-signaling-server/src/main.rs:158-174 | Over every run with fresh session ids, through replacements and reconnects, numbers accepted under a session and numbers relayed under it are strictly increasing, so no (session, number) pair is relayed twice |
| `RelayRuns.RefusedSignalConsumesNumber` | frankn-signaling-server/src/main.rs:172-198 | A signal refused by the ACL has used its number: sent again at any later time it is not accepted |
| `RelayEffects.PeersExactly` | frankn-signaling-server/src/main.rs:325-409 | An event puts an id on record exactly when it registers it with its own signed key, with an empty ACL; ends the record exactly when it ends that connection; and changes an ACL exactly when it is an accepted update, to the list it carries |
| `RelayEffects.ChannelsExactly` | frankn-signaling-server/src/main.rs:738-832 | A channel stands for the id it registered, until it disconnects |
| `RelayEffects.RecordsAreCurrent` | frankn-signaling-server/src/main.rs:325-409 | In every run an id is registered if and only if an event registered it and since then none has registered it again nor ended that connection; its record is what that event said, and its ACL the list of the last update accepted since, empty before the first |
| `RelayEffects.UpdateDecidesPresence` | frankn-signaling-server/src/main.rs:366-379 | After an accepted update a private host is shown to exactly those on the list the update carries |
| `RelayEffects.RefusedUpdates` | frankn-signaling-server/src/main.rs:325-365 | Any other update is refused and changes nothing |
| `RelayEffects.PresenceOverRuns` | frankn-signaling-server/src/main.rs:394-405 | In every run a client is shown a host if and only if the standing registration of the host is public or its last accepted ACL lists the client |
| `RelayEffects.SignedSaysAll` | frankn-signaling-server/src/main.rs:83-120 | A signature is over kind, session, number, timestamp, both ends and the digest of the payload, as the message has them |
| `RelayEffects.SendExactly` | frankn-signaling-server/src/main.rs:411-487 | A signal sent on a registered channel is queued once, on the channel its target registered with, if and only if it is from the id of that channel, signed, fresh, newer than the last taken, permitted by the host at one end, and finds room in the pairing queue; otherwise its sender alone is answered, with a refusal |
| `RelayEffects.WindowsExactly` | frankn-signaling-server/src/main.rs:442-463 | A first contact that passes has a window from now, or from the opening of its open one; closed windows are dropped then, and no other signal that passes changes a window |
| `RelayEffects.CheckAnswers` | frankn-signaling-server/src/main.rs:299-323 | A status check is answered with the verdict of the policy on exactly the hosts it names, and changes nothing |
| `RelayEffects.SubscribersExactly` | frankn-signaling-server/src/main.rs:267-297 | A subscription adds the client, once and last, to exactly the hosts it names |
| `RelayEffects.RegisterAnswers` | frankn-signaling-server/src/main.rs:738-792 | A second registration on a channel is refused, a bad key changes nothing, and an accepted one is answered with its session and tells the connection it replaces |
| `RelayEffects.LeavingUnsubscribes` | frankn-signaling-server/src/main.rs:925-979 | A client that leaves is the subscriber of no host afterwards, and a host that leaves keeps its subscribers |
| `PresenceRuns.StepAgreementExactly` | frankn-signaling-server/src/main.rs:738-832 | A step keeps what every connected client was last told equal to the policy, if and only if it does not register the id of a live host as a client while some connected client was told that host is online |
| `PresenceRuns.PresenceAgreement` | frankn-signaling-server/src/main.rs:366-405 | Over every run: at every moment the last presence the registered channel of every connected client received for a host, by reply or push, is the verdict of the policy on the state of that moment, if and only if no event of the run registers the id of a live host as a client while a connected client was told that host is online |
| `PresenceRuns.RetypedHostMisleads` | frankn-signaling-server/src/main.rs:754-792 | A run from the start with such an event, after which a subscriber still believes the host online |
| `PresenceRuns.SubscriberHears` | frankn-signaling-server/src/main.rs:267-297 | A subscription is answered with the verdict of the policy for every host it names |
| `PresenceRuns.HeardPersists` | frankn-signaling-server/src/main.rs:925-979 | A channel that has been told about a host stays told, so the agreement is never vacuous for a subscriber |
| `PresenceRuns.PushesTell` | frankn-signaling-server/src/main.rs:380-392 | A push tells exactly the connected client subscribers, each its own verdict |
| `RelayServer.Server.PushStatus` | frankn-signaling-server/src/main.rs:394-405 | The loop over subscribers sends those updates in order |
| `RelayServer.Server.HandleRegister` | frankn-signaling-server/src/main.rs:738-832 | Registration, replacement and the pushes that follow, on the shared maps, as the transition function says |
| `RelayServer.Server.HandleSubscribe` | frankn-signaling-server/src/main.rs:267-297 | The loop records each host once and answers from the same maps |
| `RelayServer.Server.HandleCheckStatus` | frankn-signaling-server/src/main.rs:299-323 | The loop answers without subscribing |
| `RelayServer.Server.HandleUpdateAcl` | frankn-signaling-server/src/main.rs:325-409 | Replaces the ACL, drops windows of peers now in it, and pushes; a refused update changes nothing |
| `RelayServer.Server.VerifyDataPlaneMessage` | frankn-signaling-server/src/main.rs:60-224 | Every refusal before the number is taken leaves the state alone; otherwise the number is taken and the verdict is that of the ACL |
| `RelayServer.Server.HandleSignal` | frankn-signaling-server/src/main.rs:411-487 | Verification, the pairing window with its queue limit, and the relay, as the transition function says |
| `RelayServer.Server.HandleDisconnect` | frankn-signaling-server/src/main.rs:925-979 | Removes the peer only if the registration is still of this connection, then tells subscribers of a host or drops the subscriptions of a client |
| `Outbox.QueueIncreases` | frankn-host/src/signaling/mod.rs:394-480 | In every interleaving of any number of senders under the outbox lock with takers of numbers outside it, the queued numbers are strictly increasing from at least 1, and whoever is inside holds the lock |
| `Outbox.HonestSendersNeverReplay` | frankn-signaling-server/src/main.rs:158-171 | Whatever the server has been sent by anyone, a signal with number k of an outbox queue is not refused as a replay as long as the numbers accepted under its session are from earlier in that queue; refused signals do not matter |
| `Outbox.QueueIsWhatWasSent` | frankn-host/src/signaling/mod.rs:394-480 | In every interleaving the queue holds exactly the numbers of the messages sent, each from one sender |
| `Outbox.SendGoesThrough` | frankn-host/src/signaling/mod.rs:394-480 | A sender that finds the lock free enqueues the next number and gives the lock back |
| `Outbox.OthersNumberSkipped` | frankn-host/src/signaling/mod.rs:394-480 | A number taken for another channel meanwhile is skipped |
| `Outbox.HolderCanMove` | frankn-host/src/signaling/mod.rs:394-480 | In every run whoever has the lock can go on, so no sender waits for ever |
| `IceBuffer.RunKeepsInv` | frankn-host/src/transport/webrtc/connection.rs:265-327 | In every interleaving of the two locks: what was buffered is, in order, what was flushed, is in flight and still waits; each call that acted has its candidate in one place, once; a flush leaves nothing behind |
| `IceBuffer.CandidatesConserved` | frankn-host/src/transport/webrtc/connection.rs:265-327 | Once a description call has returned, the buffer is empty, the candidates handed over are as a multiset those of the add calls that took effect, and buffered ones went in order of arrival |
| `IceBuffer.BufferEmptyForGood` | frankn-host/src/transport/webrtc/connection.rs:265-306 | Whatever runs afterwards, the buffer is empty at the end of it |
| `IceBuffer.NoDeadlock` | frankn-host/src/transport/webrtc/connection.rs:278-326 | While any call has not ended, some call can move: the two locks never deadlock |
| `IceBuffer.RemoteExactly` | frankn-host/src/transport/webrtc/connection.rs:265-306 | In every run the description counts as set if and only if a call whose description was taken has marked it |
| `IceBuffer.RefusedDescription` | frankn-host/src/transport/webrtc/connection.rs:265-277 | A description that the peer connection refuses changes nothing |
| `IceBuffer.DescriptionGoesThrough` | frankn-host/src/transport/webrtc/connection.rs:265-306 | One that is taken, with both locks free, hands over all that is buffered, in order, and empties the buffer |
| `IceBuffer.AddGoesThrough` | frankn-host/src/transport/webrtc/connection.rs:308-327 | A candidate added with both locks free is buffered last before that and handed over after it |
| `Login.PendingBounded` | frankn-host/src/auth/mod.rs:88-103 | At most 128 attempts are pending in every reachable state |
| `Login.SuccessesEarned` | frankn-host/src/auth/mod.rs:120-151 | In every run a success is for an attempt begun with the same scope, id, client and host under 30 s before, not cancelled, used or begun again since; and every token on the table was issued by such a success and not revoked |
| `Login.AtMostOneSuccess` | frankn-host/src/auth/mod.rs:86-133 | In every run, and so at every moment of it, an id has succeeded at most as often as attempts were begun under it, not counting one still pending |
| `Login.BegunBetweenSuccesses` | frankn-host/src/auth/mod.rs:128-133 | In every run, between two successes under one id the attempt of the second was begun |
| `Login.VerifiedTokenWasIssued` | frankn-host/src/auth/mod.rs:160-169 | A token that verifies was issued by a login within the last nine hours and not revoked since |
| `Login.TimerRemovesExpired` | frankn-host/src/auth/mod.rs:107-116 | A timer removes only an attempt that can no longer succeed |
| `Login.TimerRemovesItsOwn` | frankn-host/src/auth/mod.rs:107-116 | When the attempts under one id have distinct start instants, a timer never removes a later attempt that reuses its id |
| `Login.TimersUnobservable` | frankn-host/src/auth/mod.rs:86-151 | Every run answers every request as the same run without its timers, and leaves the same tokens and history |
| `LoginSucceeds.FinishSucceedsExactly` | frankn-host/src/auth/mod.rs:120-151 | In every timed run a finish succeeds, with the token of its proof, if and only if there is a proof and an attempt begun under 30 s before with the same scope, id, client and host, whose id no finish has named since and whose scope no cancel |
| `LoginSucceeds.BeginStartsExactly` | frankn-host/src/auth/mod.rs:71-118 | A begin starts an attempt if and only if its id has 1 to 128 bytes, its scope is not empty, the library accepts the request, and of the attempts under 30 s old none has the id and fewer than 128 are pending; the expired are dropped |
| `LoginSucceeds.TokenVerifiesExactly` | frankn-host/src/auth/mod.rs:160-169 | In every timed run a token verifies if and only if a finish was answered with it under nine hours ago and nothing has revoked it since |
| `AuthManager.Manager.BeginOpaqueLogin` | frankn-host/src/auth/mod.rs:71-118 | The method on the two maps refines the transition, and asks for a timer exactly for an attempt it begins |
| `AuthManager.Manager.FinishOpaqueLogin` | frankn-host/src/auth/mod.rs:120-151 | The attempt is removed whatever the outcome; the rest as the transition function says |
| `AuthManager.Manager.CancelOpaqueLoginsForScope` | frankn-host/src/auth/mod.rs:153-158 | Drops exactly the attempts of the scope |
| `AuthManager.Manager.Expire` | frankn-host/src/auth/mod.rs:107-116 | A timer leaves exactly the attempts that are not its id begun at its instant, each as it was |
| `AuthManager.Manager.RevokeToken` | frankn-host/src/auth/mod.rs:167-169 | Exactly the other tokens stay, issued when they were, and the attempts are untouched |
| `GateRuns.EachMessageHasOneRole` | frankn-host/src/transport/protocol/mod.rs:398-429 | Each message is allowed for exactly one role, and none for the internal one |
| `GateRuns.RunKeepsInv` | frankn-host/src/transport/protocol/mod.rs:33-92 | In every interleaving of message handling at lock granularity: roles, sessions, the ACL lock, the saved list and the history are consistent |
| `GateRuns.HandlersFollowLogin` | frankn-host/src/transport/protocol/mod.rs:48-92 | Every command or transfer handler runs after a login that succeeded on the same session, for an attempt begun under its scope and client under 30 s before; a token of a command was issued and not revoked; a node handler runs only for a configured node |
| `GateProgress.SuccessRaisesRole` | frankn-host/src/transport/protocol/mod.rs:469-512 | In every run a login that succeeded and whose task has ended has left its session authenticated, unless the list of paired clients could not be saved |
| `GateProgress.RoleStays` | frankn-host/src/transport/protocol/mod.rs:507-512 | A session that is authenticated stays so in every continuation of the run |
| `GateProgress.PairingEnds` | frankn-host/src/transport/protocol/mod.rs:469-512 | With the lock of the list free, a login that succeeded ends within six steps of its own; if the list can be saved its session is then authenticated and, on a private host, its client listed |
| `GateProgress.JudgedRunsExactly` | frankn-host/src/transport/protocol/mod.rs:53-92 | A message whose role has been read runs exactly the handler it is for: a frame of at least 50 bytes or a transfer message from an authenticated session, a command with a token that verifies, a node message from a node, and nothing else |
| `GateProgress.ArrivedRunsExactly` | frankn-host/src/transport/protocol/mod.rs:33-92 | A message that arrives for a connected peer does so in three steps, by the role of the current session of the peer |
| `GateProgress.LoginsAreARun` | frankn-host/src/transport/protocol/mod.rs:102-169 | In every run the login table is that of a run of the login requests the host makes, each with the scope of its session, its client and this host, so everything proved of login runs holds of it |
| `GateProgress.FinishLogsOnExactly` | frankn-host/src/transport/protocol/mod.rs:147-188 | A finish goes on to pairing if and only if the login table grants it |
| `GateProgress.PeersExactly` | frankn-host/src/app/sessions.rs:185-222 | The current session of a peer is its last connection until that one is unlinked; a new session is of a node exactly for a configured node, and unauthenticated otherwise |
| `GateRuns.AuthenticatedAreListed` | frankn-host/src/transport/protocol/mod.rs:469-512 | On a private host the client of every authenticated session is in the ACL, in memory and on disk |
| `GateRuns.ListsAgree` | frankn-host/src/transport/protocol/mod.rs:479-505 | The ACL equals the saved list whenever its lock is free, and is never ahead of it by anything nor behind by more than one client |
| `GateRuns.NoPairingLost` | frankn-host/src/transport/protocol/mod.rs:479-505 | However pairings interleave, the ACL is the configured list followed by every client paired since, in order, and has no duplicates if the configured one has none |
| `GateRuns.ListGrows` | frankn-host/src/transport/protocol/mod.rs:479-505 | Along every run the ACL and the saved list only grow |
| `GateRuns.FailedSaveGrantsNothing` | frankn-host/src/transport/protocol/mod.rs:483-492 | In every run a login whose save failed neither adds its client nor raises a role |
| `GateRuns.FailedSaveUndone` | frankn-host/src/transport/protocol/mod.rs:483-492 | A failed save leaves sessions, ACL and saved list as they were, revokes the token and frees the lock |
| `GateRuns.LockComesFree` | frankn-host/src/transport/protocol/mod.rs:479-505 | Whoever holds the ACL lock waits for no one and gives it back within four steps |
| `Registries.RegistriesAgree` | frankn-host/src/transport/protocol/node.rs:38-64 | In every run of connects, registrations, heartbeats, disconnects and liveness sweeps: entries are pairwise distinct by (capability id, provider), every node entry names a registered node, the last description a registered node gave of each capability is in the inventory, and the entries of the host are what they were at the start, in order |
| `Registries.SweptEntriesAreLive` | frankn-host/src/app/runtime.rs:110-162 | After a sweep every node entry is of a node heard from within the last 60 s |
| `Registries.RegisterAllMember` | frankn-host/src/capabilities/registry.rs:245-249 | What is in the inventory after a list of capabilities is registered: the last word of the list on each id, and what was there and the list is silent on |
| `Registries.RegisterStaleExactly` | frankn-host/src/transport/protocol/node.rs:47-64 | A registration leaves the inventory free of capabilities its node no longer advertises if and only if it keeps the name and drops nothing that has an entry |
| `Registries.NeverStaleExactly` | frankn-host/src/transport/protocol/node.rs:38-64 | Over whole runs: no inventory ever shows such an entry if and only if every registration advertises again what the inventory has of its node |
| `Registries.StaleEntryRemains` | frankn-host/src/transport/protocol/node.rs:47-64 | A concrete run in which a dropped capability stays in the inventory |
| `Registries.SweptOneMore` | frankn-host/src/app/runtime.rs:120-148 | Nodes forgotten one after another give the same state as all at once |
| `RegistryEffects.NodesExactly` | frankn-host/src/transport/protocol/node.rs:38-112 | A node is registered after an event if and only if the event is its accepted registration, or it was and the event is not its reconnection, its teardown, or a sweep over a minute after it was last heard; its record is what it last said and when |
| `RegistryEffects.PeersExactly` | frankn-host/src/app/sessions.rs:497-553 | A connection is in the peer map if and only if the event puts it there, or it was and the event is not the end of that very connection or a sweep of its silent node |
| `RegistryEffects.EntriesExactly` | frankn-host/src/app/runtime.rs:110-162 | What is not a registration takes exactly the entries of the nodes whose registration it ends, and keeps the others in order |
| `RegistryEffects.RegistrationExactly` | frankn-host/src/transport/protocol/node.rs:38-64 | A refused registration changes nothing; an accepted one leaves in the inventory its last word on each capability it names and everything else that was there |
| `RegistryEffects.RegisteredExactly` | frankn-host/src/transport/protocol/node.rs:38-64 | In every run a node is registered if and only if some accepted registration of it has not been ended since |
| `RegistryEffects.LastSeenExactly` | frankn-host/src/transport/protocol/node.rs:97-112 | In every run the last instant of a registered node is that of the last registration or heartbeat accepted from it |
| `RegistryServer.CapabilityInventory.Register` | frankn-host/src/capabilities/registry.rs:245-249 | The entry comes last, after exactly the entries with another id or provider, in their order |
| `RegistryServer.CapabilityInventory.UnregisterByProvider` | frankn-host/src/capabilities/registry.rs:251-254 | Exactly the entries of other providers stay, in their order |
| `RegistryServer.NodeRegistry.CollectTimedOut` | frankn-host/src/capabilities/node/registry.rs:62-68 | Lists exactly the nodes silent for more than the timeout, each once |
| `RegistryServer.NodeRegistry.UpdateHeartbeat` | frankn-host/src/capabilities/node/registry.rs:52-56 | The same nodes are registered, each as it was but for the last instant of the one heard from |
| `RegistryServer.Host.constructor` | frankn-host/src/app/runtime.rs:52-66 | The loop fills the inventory with the capabilities of the host |
| `RegistryServer.Host.HandleNewConnection` | frankn-host/src/app/sessions.rs:215-260 | Replaces the peer-map entry and forgets a node that reconnects, as the transition function says |
| `RegistryServer.Host.HandleRegister` | frankn-host/src/transport/protocol/node.rs:21-94 | Registers node and capabilities and acknowledges if and only if the sender is connected, configured and names itself |
| `RegistryServer.Host.HandleHeartbeat` | frankn-host/src/transport/protocol/node.rs:97-112 | A heartbeat counts only for its own sender |
| `RegistryServer.Host.EndConnection` | frankn-host/src/app/sessions.rs:497-553 | The end of a connection, with the registries cleaned only when it had come up |
| `RegistryServer.Host.SweepLiveness` | frankn-host/src/app/runtime.rs:110-162 | The loop over the silent nodes, in whatever order, reaches the state with all of them forgotten |
| `ToolCall.ParsesExactly` | frankn-host/src/capabilities/inference/tools.rs:16-33 | Parsing finds a call if and only if the text is a prefix without an opening tag, the tag with the name, the arguments and the closing tag of the trimmed name, which occurs in neither prefix nor arguments; name and arguments are returned trimmed |
| `ToolCall.PanicsExactly` | frankn-host/src/capabilities/inference/tools.rs:24-27 | The slice has its end before its beginning, and parsing panics, if and only if the closing tag of the first name stands before its opening tag |
| `ToolCall.ClosingFirstPanics` | frankn-host/src/capabilities/inference/tools.rs:24-27 | One such text |
| `ToolCall.ParsingUndoesRendering` | frankn-host/src/capabilities/inference/tools.rs:16-33 | For any prefix, trimmed name and arguments and any suffix meeting those conditions, parsing the rendered call gives back name and arguments |
| `ToolCall.ClosingApart` | frankn-host/src/capabilities/inference/tools.rs:23-24 | A closing tag never straddles the opening one |
| `ToolCall.TrimMeaning` | frankn-host/src/capabilities/inference/tools.rs:20-29 | Trimming is what stands between the outermost characters that are not blank |
| `ToolCall.AsciiBlanks` | frankn-host/src/capabilities/inference/tools.rs:20-29 | Of ASCII, the space and the controls 9 to 13 are blank and nothing else |
| `TypeText.Keyboard.TypeChar` | frankn-host/src/platform/linux/uinput.rs:77-143 | The events written for one character: shift around a press and a release |
| `TypeText.Keyboard.Type` | frankn-host/src/platform/linux/uinput.rs:69-73 | The events written for a text, which every keyboard with none of its keys and no shift held reads back as exactly the supported characters |
| `TypeText.MappingPrints` | frankn-host/src/platform/linux/uinput.rs:78-130 | The table sends each character to the key and level of the US layout that print it |
| `TypeText.MappingInjective` | frankn-host/src/platform/linux/uinput.rs:78-130 | No two characters share a key and level |
| `TypeText.SupportedExactly` | frankn-host/src/platform/linux/uinput.rs:78-130 | The characters that can be typed are the printable ASCII ones, newline and tab, and no others |
| `TypeText.TypedTextReadsBack` | frankn-host/src/platform/linux/uinput.rs:69-143 | Replaying what is typed gives exactly the supported characters in order, and leaves held exactly what was held before |
| `TypeText.PlainTextSurvives` | frankn-host/src/platform/linux/uinput.rs:69-143 | A text of printable ASCII, newlines and tabs typed on a released keyboard comes back whole, with every key released |

## Left out

- UploadRuns.ExactUpload: asks that no event take the part file from under another live upload to the path, and for honest payloads in the frames that are accepted; file-system errors, partial writes, a path that is itself another upload's `.part` file, and writes through a handle whose file has been removed or renamed are not modelled.
- UploadRuns.FlushBound: a flush is taken to put everything written on disk; asynchronous buffering inside the runtime is not modelled.
- UploadServer.Receiver.HandleTransferInit: path sandboxing, which rests on the symlink resolution of the operating system, and the creation of parent directories.
- UploadServer.Receiver.HandleTransferCancel: the registry of download cancel flags; a cancelled download appears in `Download.StreamDownload` as a parameter. The host answers a cancel the same way whether or not an upload was live; the model records the dropped upload beside that answer.
- Framing.FrameRoundTrip: ids are byte strings; the replacement of invalid UTF-8 on parsing is not modelled, so ids are taken to be valid UTF-8.
- Download.StreamDownload: waiting for the send buffer to drain, read errors, and the two places where the cancel flag is read, which are one here; the 32-bit frame number wraps, as in a release build.
- Overflow of 64-bit offsets and sequence counters; they are unbounded numbers here, with their width checked where they are encoded.
- The gap between the two read locks in `verify_data_plane_message` (main.rs:73 and 159), and between the locks of registration, subscription and teardown: each handler is one atomic step. Sends to a peer succeed.
- RelayServer.Server.HandleRegister: the wire handshake, protocol version, attempt limit and timeout; a failed handshake changes nothing and its reply is not modelled.
- Envelope.SignedBytesFixMessage: the media line of an ICE candidate is not part of the signed bytes in the source, so nothing is said about it.
- Ping, Pong, ListHosts and display names of peers: they touch no modelled state.
- IceBuffer.RunKeepsInv: like Outbox.QueueIncreases and GateRuns.RunKeepsInv it is proved for every interleaving of lock steps on a value that holds the fields and the lock owners; a class would show one interleaving only.
- IceBuffer.CandidatesConserved: a call whose surrounding future is dropped halfway is not modelled; whether the peer connection likes a candidate does not matter to the law.
- GateRuns.FailedSaveUndone: saving the list is all or nothing, as the atomic replacement of the configuration file intends; what a crash in the middle of it leaves is not modelled.
- GateRuns.HandlersFollowLogin: replies to the client, and the update of the ACL at the signaling server after a save.
- Registries.RegistriesAgree: registration, reconnection, teardown and each sweep are atomic; the broadcast of the inventory and the sessions that activate a capability are not modelled.
- RegistryServer.Host.EndConnection: as in the source, the teardown of an old connection forgets a node that has meanwhile reconnected; no claim is made against it.
- ToolCall.ParsesExactly: positions are counted in characters, not bytes; running the tool and the audit log are left out.
- TypeText.Keyboard.Type: the device accepts every event; mouse messages and raw key presses are left out.
- Capability sessions, camera streams, media, network, notifications, system control, SSH, process list, terminal interface, model engine, telemetry and all platform runners.
