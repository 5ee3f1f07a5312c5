/**
 The canonical encodings that signatures and logins are bound to: the 160-byte signaling envelope,
 filled in place by the signer and rebuilt by the server, and the OPAQUE login context.
 */
module Envelope {
  import opened Wrappers
  import opened Bytes

  /** Unpadded base64url decoding, and SHA-256. */
  type Decoder = string -> Option<Bytes>
  type Hash = Bytes -> Bytes

  /** "FRANKN-SIG-V1\0" */
  const DOMAIN: Bytes := [70, 82, 65, 78, 75, 78, 45, 83, 73, 71, 45, 86, 49, 0]
  const VERSION: byte := 0x01
  const ENVELOPE_SIZE: nat := 160

  datatype Fields = Fields(
    kind: byte, session: Bytes, sequence: nat, timestamp: nat, from: Bytes, to: Bytes, payloadHash: Bytes)
  {
    predicate WellSized() {
      && |session| == 32 && |from| == 32 && |to| == 32 && |payloadHash| == 32
      && sequence < U64_LIMIT && timestamp < U64_LIMIT
    }

    function Encoded(): Bytes {
      DOMAIN + [VERSION] + [kind] + session + ToBE(sequence, 8) + ToBE(timestamp, 8) + from + to + payloadHash
    }
  }

  datatype EnvelopeError = BadSession | BadFrom | BadTo

  /** A decoded 32-byte identifier. */
  function Decode32(decode: Decoder, s: string): Option<Bytes> {
    match decode(s)
    case Some(b) => if |b| == 32 then Some(b) else None
    case None => None
  }

  /** What the signed bytes say about the strings of a message. */
  function FieldsOf(decode: Decoder, sha: Hash, kind: byte, session: string, sequence: nat, timestamp: nat,
                    from: string, to: string, payload: Bytes): Result<Fields, EnvelopeError>
  {
    if Decode32(decode, session).None? then Err(BadSession)
    else if Decode32(decode, from).None? then Err(BadFrom)
    else if Decode32(decode, to).None? then Err(BadTo)
    else Ok(Fields(kind, Decode32(decode, session).value, sequence, timestamp,
                   Decode32(decode, from).value, Decode32(decode, to).value, sha(payload)))
  }

  /** Copies `src` into the buffer at `at`, as a slice copy does. */
  method CopyFrom(buf: array<byte>, at: nat, src: Bytes)
    requires at + |src| <= buf.Length
    modifies buf
    ensures buf[..at + |src|] == old(buf[..at]) + src
    ensures buf[at + |src|..] == old(buf[at + |src|..])
  {
    forall i | 0 <= i < |src| {
      buf[at + i] := src[i];
    }
  }

  /** The buffer a sender fills and signs. The session and the sender are its own. */
  method SignerBuffer(decode: Decoder, sha: Hash, kind: byte, session: string, from: string, to: string,
                      payload: Bytes, sequence: nat, timestamp: nat)
    returns (r: Result<Bytes, EnvelopeError>)
    requires forall b :: |sha(b)| == 32
    ensures r == match FieldsOf(decode, sha, kind, session, sequence, timestamp, from, to, payload)
                 case Ok(f) => Ok(f.Encoded())
                 case Err(e) => Err(e)
  {
    var buf := new byte[ENVELOPE_SIZE](_ => 0);
    CopyFrom(buf, 0, DOMAIN);
    buf[14] := VERSION;
    buf[15] := kind;
    assert buf[..16] == DOMAIN + [VERSION] + [kind];
    var sessionBytes := Decode32(decode, session);
    if sessionBytes.None? { return Err(BadSession); }
    CopyFrom(buf, 16, sessionBytes.value);
    CopyFrom(buf, 48, ToBE(sequence, 8));
    CopyFrom(buf, 56, ToBE(timestamp, 8));
    var fromBytes := Decode32(decode, from);
    if fromBytes.None? { return Err(BadFrom); }
    CopyFrom(buf, 64, fromBytes.value);
    var toBytes := Decode32(decode, to);
    if toBytes.None? { return Err(BadTo); }
    CopyFrom(buf, 96, toBytes.value);
    CopyFrom(buf, 128, sha(payload));
    assert buf[..] == buf[..160];
    r := Ok(buf[..]);
  }

  /** The place of every field in the 160 bytes, and the domain text before them. */
  lemma EncodedPlaces(f: Fields)
    requires f.WellSized()
    ensures var b := f.Encoded();
            && |b| == 160
            && (forall i :: 0 <= i < 14 ==> b[i] as nat == "FRANKN-SIG-V1\0"[i] as nat)
            && b[14] == 1 && b[15] == f.kind
            && b[16..48] == f.session && b[48..56] == ToBE(f.sequence, 8) && b[56..64] == ToBE(f.timestamp, 8)
            && b[64..96] == f.from && b[96..128] == f.to && b[128..160] == f.payloadHash
  {
    var f0 := DOMAIN + [VERSION] + [f.kind];
    var f1 := f0 + f.session;
    var f2 := f1 + ToBE(f.sequence, 8);
    var f3 := f2 + ToBE(f.timestamp, 8);
    var f4 := f3 + f.from;
    var f5 := f4 + f.to;
    DomainText();
    Ends(f5, f.payloadHash);
    Ends(f4, f.to);
    Ends(f3, f.from);
    Ends(f2, ToBE(f.timestamp, 8));
    Ends(f1, ToBE(f.sequence, 8));
    Ends(f0, f.session);
    assert f.Encoded() == f5 + f.payloadHash;
    var b := f.Encoded();
    assert b[..16] == f0;
    assert forall i :: 0 <= i < 14 ==> b[i] == f0[i] == DOMAIN[i];
    assert b[14] == f0[14] && b[15] == f0[15];
    hide *;
    assert b[..128] == f5 && b[..96] == f4 && b[..64] == f3 && b[..56] == f2 && b[..48] == f1;
    assert b[96..128] == f5[96..128] && b[64..96] == f4[64..96] && b[56..64] == f3[56..64];
    assert b[48..56] == f2[48..56] && b[16..48] == f1[16..48];
  }

  lemma DomainText()
    ensures |DOMAIN| == 14 && forall i :: 0 <= i < 14 ==> DOMAIN[i] as nat == "FRANKN-SIG-V1\0"[i] as nat
  {}

  lemma Ends(a: Bytes, b: Bytes)
    ensures (a + b)[..|a|] == a && (a + b)[|a|..] == b && (a + b)[|a|..|a| + |b|] == b
  {}

  /** The fields are the decoded strings of the message and the digest of its payload. */
  lemma FieldsMeaning(decode: Decoder, sha: Hash, kind: byte, session: string, sequence: nat, timestamp: nat,
                      from: string, to: string, payload: Bytes)
    ensures var r := FieldsOf(decode, sha, kind, session, sequence, timestamp, from, to, payload);
            && (r.Ok? <==> forall s :: s == session || s == from || s == to ==>
                             decode(s).Some? && |decode(s).value| == 32)
            && (r.Ok? ==>
                  && r.value.kind == kind && r.value.sequence == sequence && r.value.timestamp == timestamp
                  && Some(r.value.session) == decode(session) && Some(r.value.from) == decode(from)
                  && Some(r.value.to) == decode(to) && r.value.payloadHash == sha(payload))
  {}

  /** Two envelopes of well-sized fields are the same bytes only when every field is the same. */
  lemma EncodedInjective(f: Fields, g: Fields)
    requires f.WellSized() && g.WellSized()
    requires f.Encoded() == g.Encoded()
    ensures f == g
  {
    var f0, g0 := DOMAIN + [VERSION] + [f.kind], DOMAIN + [VERSION] + [g.kind];
    var f1, g1 := f0 + f.session, g0 + g.session;
    var f2, g2 := f1 + ToBE(f.sequence, 8), g1 + ToBE(g.sequence, 8);
    var f3, g3 := f2 + ToBE(f.timestamp, 8), g2 + ToBE(g.timestamp, 8);
    var f4, g4 := f3 + f.from, g3 + g.from;
    SplitEqual(f4 + f.to, f.payloadHash, g4 + g.to, g.payloadHash);
    SplitEqual(f4, f.to, g4, g.to);
    SplitEqual(f3, f.from, g3, g.from);
    SplitEqual(f2, ToBE(f.timestamp, 8), g2, ToBE(g.timestamp, 8));
    SplitEqual(f1, ToBE(f.sequence, 8), g1, ToBE(g.sequence, 8));
    SplitEqual(f0, f.session, g0, g.session);
    SplitEqual(DOMAIN + [VERSION], [f.kind], DOMAIN + [VERSION], [g.kind]);
    assert [f.kind][0] == [g.kind][0];
    Limits();
    ToBEInjective(f.sequence, g.sequence, 8);
    ToBEInjective(f.timestamp, g.timestamp, 8);
  }

  /** A decoder that maps distinct strings to distinct bytes, as unpadded base64url does. */
  ghost predicate InjectiveDecoder(decode: Decoder) {
    forall s, t :: decode(s).Some? && decode(s) == decode(t) ==> s == t
  }

  /** Equal signed bytes mean the same kind, session, numbers, ends and payload hash, as strings. */
  lemma SignedBytesFixMessage(
    decode: Decoder, sha: Hash,
    kind: byte, session: string, sequence: nat, timestamp: nat, from: string, to: string, payload: Bytes,
    kind': byte, session': string, sequence': nat, timestamp': nat, from': string, to': string, payload': Bytes)
    requires InjectiveDecoder(decode) && (forall b :: |sha(b)| == 32)
    requires sequence < U64_LIMIT && timestamp < U64_LIMIT && sequence' < U64_LIMIT && timestamp' < U64_LIMIT
    requires var f := FieldsOf(decode, sha, kind, session, sequence, timestamp, from, to, payload);
             var g := FieldsOf(decode, sha, kind', session', sequence', timestamp', from', to', payload');
             f.Ok? && g.Ok? && f.value.Encoded() == g.value.Encoded()
    ensures kind == kind' && session == session' && sequence == sequence' && timestamp == timestamp'
            && from == from' && to == to' && sha(payload) == sha(payload')
  {
    var f := FieldsOf(decode, sha, kind, session, sequence, timestamp, from, to, payload).value;
    var g := FieldsOf(decode, sha, kind', session', sequence', timestamp', from', to', payload').value;
    EncodedInjective(f, g);
    assert decode(session) == decode(session') && decode(from) == decode(from') && decode(to) == decode(to');
  }

  // ----- The login context -----

  /** "FRANKN-OPAQUE-LOGIN-V1\0" */
  const CONTEXT_LABEL: Bytes :=
    [70, 82, 65, 78, 75, 78, 45, 79, 80, 65, 81, 85, 69, 45, 76, 79, 71, 73, 78, 45, 86, 49, 0]

  const MAX_IDENTITY: nat := 256

  function Prefixed(value: Bytes): Bytes {
    ToBE(|value|, 4) + value
  }

  predicate ValidIdentity(id: Bytes) { 0 < |id| <= MAX_IDENTITY }

  lemma AppendPrefixed(a: Bytes, value: Bytes)
    ensures a + ToBE(|value|, 4) + value == a + Prefixed(value)
  {}

  lemma AppendAssoc(a: Bytes, b: Bytes, c: Bytes)
    ensures a + b + c == a + (b + c) && a + [] == a
  {}

  /** The context both ends of a login derive, or nothing for an identity of the wrong length. */
  method LoginContext(client: Bytes, host: Bytes) returns (ctx: Option<Bytes>)
    ensures ctx.Some? <==> ValidIdentity(client) && ValidIdentity(host)
    ensures ctx.Some? ==> ctx.value == CONTEXT_LABEL + (Prefixed(client) + Prefixed(host))
  {
    if client == [] || host == [] || |client| > MAX_IDENTITY || |host| > MAX_IDENTITY {
      return None;
    }
    var out := CONTEXT_LABEL;
    var values := [client, host];
    var i := 0;
    while i < 2
      invariant 0 <= i <= 2
      invariant out == CONTEXT_LABEL + if i == 0 then [] else if i == 1 then Prefixed(client)
                                       else Prefixed(client) + Prefixed(host)
    {
      hide *;
      ghost var before, value := out, values[i];
      out := out + ToBE(|values[i]|, 4);
      out := out + values[i];
      AppendPrefixed(before, value);
      AppendAssoc(CONTEXT_LABEL, Prefixed(client), Prefixed(value));
      i := i + 1;
    }
    ctx := Some(out);
  }

  /** The place of everything in the context: the label, then each length in four bytes before its identity. */
  lemma ContextPlaces(client: Bytes, host: Bytes)
    ensures var ctx := CONTEXT_LABEL + (Prefixed(client) + Prefixed(host));
            var n := |client|;
            && |ctx| == 23 + 4 + n + 4 + |host|
            && (forall i :: 0 <= i < 23 ==> ctx[i] as nat == "FRANKN-OPAQUE-LOGIN-V1\0"[i] as nat)
            && ctx[23..27] == ToBE(n, 4) && ctx[27..27 + n] == client
            && ctx[27 + n..31 + n] == ToBE(|host|, 4) && ctx[31 + n..] == host
  {
    LabelText();
    var ctx, tail := CONTEXT_LABEL + (Prefixed(client) + Prefixed(host)), Prefixed(client) + Prefixed(host);
    assert forall i :: 0 <= i < 23 ==> ctx[i] == CONTEXT_LABEL[i];
    assert ctx[23..] == tail;
    var n := |client|;
    assert tail[..4] == ToBE(n, 4) && tail[4..4 + n] == client && tail[4 + n..] == Prefixed(host);
    assert Prefixed(host)[..4] == ToBE(|host|, 4) && Prefixed(host)[4..] == host;
    assert ctx[23..27] == tail[..4] && ctx[27..27 + n] == tail[4..4 + n];
    assert ctx[27 + n..] == tail[4 + n..];
    assert ctx[27 + n..31 + n] == tail[4 + n..][..4] && ctx[31 + n..] == tail[4 + n..][4..];
  }

  lemma LabelText()
    ensures |CONTEXT_LABEL| == 23
    ensures forall i :: 0 <= i < 23 ==> CONTEXT_LABEL[i] as nat == "FRANKN-OPAQUE-LOGIN-V1\0"[i] as nat
  {}

  /** The length prefixes keep client and host apart: one context, one pair of identities. */
  lemma ContextInjective(client: Bytes, host: Bytes, client': Bytes, host': Bytes)
    requires ValidIdentity(client) && ValidIdentity(host) && ValidIdentity(client') && ValidIdentity(host')
    requires CONTEXT_LABEL + (Prefixed(client) + Prefixed(host))
             == CONTEXT_LABEL + (Prefixed(client') + Prefixed(host'))
    ensures client == client' && host == host'
  {
    Limits();
    SplitEqual(CONTEXT_LABEL, Prefixed(client) + Prefixed(host), CONTEXT_LABEL, Prefixed(client') + Prefixed(host'));
    PrefixedSplit(client, Prefixed(host), client', Prefixed(host'));
    PrefixedSplit(host, [], host', []);
  }

  lemma PrefixedSplit(a: Bytes, x: Bytes, b: Bytes, y: Bytes)
    requires |a| < U32_LIMIT && |b| < U32_LIMIT && Prefixed(a) + x == Prefixed(b) + y
    ensures a == b && x == y
  {
    Limits();
    assert Prefixed(a) + x == ToBE(|a|, 4) + (a + x);
    assert Prefixed(b) + y == ToBE(|b|, 4) + (b + y);
    SplitEqual(ToBE(|a|, 4), a + x, ToBE(|b|, 4), b + y);
    ToBEInjective(|a|, |b|, 4);
    SplitEqual(a, x, b, y);
  }
}
