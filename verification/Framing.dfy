/** The binary frame that carries one chunk of a file. */
module Framing {
  import opened Wrappers
  import opened Bytes

  const FRAME_MAGIC: byte := 0x01
  const FRAME_ID_SIZE: nat := 36
  const FRAME_OFFSET_SIZE: nat := 8
  const FRAME_SEQ_SIZE: nat := 4
  const FRAME_FLAGS_SIZE: nat := 1
  const FRAME_HEADER_SIZE: nat := 1 + FRAME_ID_SIZE + FRAME_OFFSET_SIZE + FRAME_SEQ_SIZE + FRAME_FLAGS_SIZE

  const FLAG_FINAL: byte := 0x02
  const FLAG_ACK_REQUESTED: byte := 0x04

  datatype Header = Header(id: Bytes, offset: nat, seqNo: nat, flags: byte)

  /** `flags & FLAG_FINAL != 0` and `flags & FLAG_ACK_REQUESTED != 0`. */
  predicate IsFinal(flags: byte) { flags / 2 % 2 == 1 }
  predicate WantsAck(flags: byte) { flags / 4 % 2 == 1 }

  function Zeros(n: nat): (z: Bytes)
    ensures |z| == n
  {
    seq(n, _ => 0)
  }

  function TrimLeft(s: Bytes): (t: Bytes)
    ensures t == [] || t[0] != 0
    ensures |t| <= |s| && s == Zeros(|s| - |t|) + t
  {
    if s != [] && s[0] == 0 then
      assert s == [0] + s[1..];
      TrimLeft(s[1..])
    else s
  }

  function TrimRight(s: Bytes): (t: Bytes)
    ensures t == [] || t[|t| - 1] != 0
    ensures |t| <= |s| && s == t + Zeros(|s| - |t|)
  {
    if s != [] && s[|s| - 1] == 0 then
      assert s == s[..|s| - 1] + [0];
      TrimRight(s[..|s| - 1])
    else s
  }

  /** Removes NUL bytes at both ends. */
  function TrimNul(s: Bytes): Bytes {
    TrimRight(TrimLeft(s))
  }

  predicate NoNulAtEnds(id: Bytes) {
    id == [] || (id[0] != 0 && id[|id| - 1] != 0)
  }

  function ParseFrameHeader(data: Bytes): Option<Header> {
    if |data| < FRAME_HEADER_SIZE || data[0] != FRAME_MAGIC then None
    else
      var offsetStart := 1 + FRAME_ID_SIZE;
      var seqStart := offsetStart + FRAME_OFFSET_SIZE;
      var flagsIndex := seqStart + FRAME_SEQ_SIZE;
      Some(Header(TrimNul(data[1..offsetStart]),
                  FromBE(data[offsetStart..seqStart]),
                  FromBE(data[seqStart..flagsIndex]),
                  data[flagsIndex]))
  }

  /** The id field: padded with NULs to 36 bytes, and not cut when it is longer. */
  function PaddedId(id: Bytes): Bytes {
    id + Zeros(if |id| < FRAME_ID_SIZE then FRAME_ID_SIZE - |id| else 0)
  }

  function BuildFrame(id: Bytes, offset: nat, seqNo: nat, flags: byte, chunk: Bytes): Bytes {
    [FRAME_MAGIC] + PaddedId(id) + ToBE(offset, 8) + ToBE(seqNo, 4) + [flags] + chunk
  }

  lemma {:induction false} TrimLeftZeros(n: nat)
    ensures TrimLeft(Zeros(n)) == []
  {
    if n > 0 {
      assert Zeros(n)[1..] == Zeros(n - 1);
      TrimLeftZeros(n - 1);
    }
  }

  lemma {:induction false} TrimRightPadded(id: Bytes, n: nat)
    requires id == [] || id[|id| - 1] != 0
    ensures TrimRight(id + Zeros(n)) == id
  {
    if n == 0 {
      assert id + Zeros(0) == id;
    } else {
      assert (id + Zeros(n))[..|id| + n - 1] == id + Zeros(n - 1);
      TrimRightPadded(id, n - 1);
    }
  }

  lemma TrimNulPadded(id: Bytes, n: nat)
    requires NoNulAtEnds(id)
    ensures TrimNul(id + Zeros(n)) == id
  {
    if id == [] {
      assert id + Zeros(n) == Zeros(n);
      TrimLeftZeros(n);
    } else {
      assert TrimLeft(id + Zeros(n)) == id + Zeros(n);
      TrimRightPadded(id, n);
    }
  }

  lemma {:induction false} TrimRightKeepsHead(s: Bytes)
    requires s != [] && s[0] != 0
    ensures TrimRight(s) != [] && TrimRight(s)[0] == s[0]
  {
    if s[|s| - 1] == 0 {
      TrimRightKeepsHead(s[..|s| - 1]);
    }
  }

  /** The frame's fields sit at the fixed offsets the parser reads. */
  lemma FrameLayout(id: Bytes, offset: nat, seqNo: nat, flags: byte, chunk: Bytes)
    requires |id| <= FRAME_ID_SIZE
    ensures var f := BuildFrame(id, offset, seqNo, flags, chunk);
            && |f| == FRAME_HEADER_SIZE + |chunk|
            && f[0] == FRAME_MAGIC
            && f[1..37] == PaddedId(id)
            && f[37..45] == ToBE(offset, 8)
            && f[45..49] == ToBE(seqNo, 4)
            && f[49] == flags
            && f[50..] == chunk
  {
    assert |PaddedId(id)| == 36;
  }

  /** What the sender frames, the receiver reads back, exactly for the ids the format can hold. */
  lemma FrameRoundTrip(id: Bytes, offset: nat, seqNo: nat, flags: byte, chunk: Bytes)
    requires offset < U64_LIMIT && seqNo < U32_LIMIT
    ensures var f := BuildFrame(id, offset, seqNo, flags, chunk);
            (&& ParseFrameHeader(f) == Some(Header(id, offset, seqNo, flags))
             && f[FRAME_HEADER_SIZE..] == chunk)
            <==> |id| <= FRAME_ID_SIZE && NoNulAtEnds(id)
  {
    Limits();
    FromBEToBE(offset, 8);
    FromBEToBE(seqNo, 4);
    if |id| <= FRAME_ID_SIZE {
      FrameLayout(id, offset, seqNo, flags, chunk);
      if NoNulAtEnds(id) {
        TrimNulPadded(id, FRAME_ID_SIZE - |id|);
      }
    }
  }

  lemma PaddedTrim(field: Bytes)
    requires |field| == FRAME_ID_SIZE
    ensures |TrimNul(field)| <= FRAME_ID_SIZE
    ensures PaddedId(TrimNul(field)) == field <==> field[0] != 0 || field == Zeros(FRAME_ID_SIZE)
  {
    var left := TrimLeft(field);
    if left == [] {
      assert field == Zeros(FRAME_ID_SIZE);
    } else {
      TrimRightKeepsHead(left);
      assert PaddedId(TrimNul(field))[0] == left[0];
      if field == Zeros(FRAME_ID_SIZE) {
        TrimLeftZeros(FRAME_ID_SIZE);
        assert false;
      }
    }
  }

  /** Every accepted frame whose id field is left-aligned is what the sender builds from its parsed fields. */
  lemma ParsedFrameRebuilds(data: Bytes)
    requires ParseFrameHeader(data).Some?
    ensures var h := ParseFrameHeader(data).value;
            BuildFrame(h.id, h.offset, h.seqNo, h.flags, data[FRAME_HEADER_SIZE..]) == data
            <==> data[1] != 0 || data[1..37] == Zeros(FRAME_ID_SIZE)
  {
    var h := ParseFrameHeader(data).value;
    var field, chunk := data[1..37], data[50..];
    PaddedTrim(field);
    ToBEFromBE(data[37..45]);
    ToBEFromBE(data[45..49]);
    assert data == [data[0]] + field + data[37..45] + data[45..49] + [data[49]] + chunk;
    FrameLayout(h.id, h.offset, h.seqNo, h.flags, chunk);
  }
}
