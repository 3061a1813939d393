/** The record format of the per-shard queues (kit/sig_ring), and the queue itself by its interface. */
module SigRing {
  import opened Wrappers
  import opened LittleEndian

  datatype RawFrame = RawFrame(codeObject: U64, instrOffset: U64)

  const HEADER_SIZE: nat := 8
  const FRAME_SIZE: nat := 16

  function RecordLen(depth: nat): nat {
    HEADER_SIZE + depth * FRAME_SIZE
  }

  function FrameBytes(f: RawFrame): seq<Byte> {
    ToBytes(f.codeObject, 8) + ToBytes(f.instrOffset, 8)
  }

  function FramesBytes(frames: seq<RawFrame>): (r: seq<Byte>)
    ensures |r| == |frames| * FRAME_SIZE
  {
    if frames == [] then [] else FramesBytes(frames[..|frames| - 1]) + FrameBytes(frames[|frames| - 1])
  }

  /** `[thread_id: u32][depth: u32][frames]`; the depth is cut to 32 bits. */
  function RecordBytes(tid: U32, frames: seq<RawFrame>): (r: seq<Byte>)
    ensures |r| == RecordLen(|frames|)
  {
    ToBytes(tid, 4) + ToBytes(|frames| % 0x1_0000_0000, 4) + FramesBytes(frames)
  }

  // ----------------------------------------------------------------- writing

  /** The writing end of bbqueue by its interface: a FIFO of byte frames that may refuse a grant. */
  class FrameQueue {
    var frames: seq<seq<Byte>>

    constructor ()
      ensures frames == []
    {
      frames := [];
    }

    method Grant(len: nat) returns (grant: Option<array<Byte>>)
      ensures grant.Some? ==> fresh(grant.value) && grant.value.Length == len
    {
      if * {
        grant := None;
      } else {
        var bytes := new Byte[len];
        grant := Some(bytes);
      }
    }

    method Commit(grant: array<Byte>, used: nat)
      requires used <= grant.Length
      modifies this
      ensures frames == old(frames) + [grant[..used]]
    {
      frames := frames + [grant[..used]];
    }
  }

  method CopyFromSlice(dst: array<Byte>, at: nat, src: seq<Byte>)
    requires at + |src| <= dst.Length
    modifies dst
    ensures dst[..] == old(dst[..at]) + src + old(dst[at + |src|..])
  {
    forall i | 0 <= i < |src| {
      dst[at + i] := src[i];
    }
  }

  /** False, and nothing written, when the queue refuses the grant. */
  method Write(queue: FrameQueue, tid: U32, frames: seq<RawFrame>, depth: nat) returns (written: bool)
    requires depth <= |frames|
    modifies queue
    ensures queue.frames ==
      if written then old(queue.frames) + [RecordBytes(tid, frames[..depth])] else old(queue.frames)
  {
    var len := RecordLen(depth);
    var granted := queue.Grant(len);
    if granted.None? {
      return false;
    }
    var grant := granted.value;
    CopyFromSlice(grant, 0, ToBytes(tid, 4));
    CopyFromSlice(grant, 4, ToBytes(depth % 0x1_0000_0000, 4));
    var src := FramesBytes(frames[..depth]);
    CopyFromSlice(grant, HEADER_SIZE, src);
    assert grant[..len] == RecordBytes(tid, frames[..depth]);
    queue.Commit(grant, len);
    written := true;
  }

  // ----------------------------------------------------------------- reading

  datatype RecordView = RecordView(tid: U32, depth: U32, buf: seq<Byte>)

  /** What parse_record guarantees of the views it hands out. */
  predicate InBounds(v: RecordView) {
    RecordLen(v.depth) <= |v.buf|
  }

  function ParseRecord(buf: seq<Byte>): (r: Option<RecordView>)
    ensures r.Some? ==> InBounds(r.value)
    ensures r.Some? <==> |buf| >= HEADER_SIZE && RecordLen(U32At(buf, 4)) <= |buf|
    ensures r.Some? ==> r.value.buf == buf && buf[..4] == ToBytes(r.value.tid, 4) && buf[4..8] == ToBytes(r.value.depth, 4)
  {
    if |buf| < HEADER_SIZE then None
    else
      U32AtBytes(buf, 0);
      U32AtBytes(buf, 4);
      var tid, depth := U32At(buf, 0), U32At(buf, 4);
      if |buf| < RecordLen(depth) then None else Some(RecordView(tid, depth, buf))
  }

  /** The reads are unchecked in the source; here they are in bounds because the view is. */
  function FrameAt(v: RecordView, i: nat): RawFrame
    requires InBounds(v) && i < v.depth
  {
    var offset := HEADER_SIZE + i * FRAME_SIZE;
    RawFrame(U64At(v.buf, offset), U64At(v.buf, offset + 8))
  }

  function Frames(v: RecordView): (r: seq<RawFrame>)
    requires InBounds(v)
    ensures |r| == v.depth
  {
    seq(v.depth, i requires 0 <= i < v.depth => FrameAt(v, i))
  }

  lemma {:induction false} FramesBytesAt(frames: seq<RawFrame>, i: nat)
    requires i < |frames|
    ensures FramesBytes(frames)[i * FRAME_SIZE..i * FRAME_SIZE + FRAME_SIZE] == FrameBytes(frames[i])
  {
    var n := |frames| - 1;
    if i < n {
      FramesBytesAt(frames[..n], i);
    }
  }

  lemma RecordFrameAt(tid: U32, frames: seq<RawFrame>, v: RecordView, i: nat)
    requires v.buf == RecordBytes(tid, frames) && v.depth == |frames| && i < |frames|
    ensures FrameAt(v, i) == frames[i]
  {
    FramesBytesAt(frames, i);
    var offset := HEADER_SIZE + i * FRAME_SIZE;
    var all := FramesBytes(frames)[i * FRAME_SIZE..i * FRAME_SIZE + FRAME_SIZE];
    assert v.buf[offset..offset + FRAME_SIZE] == all;
    assert v.buf[offset..offset + 8] == all[..8] == ToBytes(frames[i].codeObject, 8);
    assert v.buf[offset + 8..offset + 16] == all[8..] == ToBytes(frames[i].instrOffset, 8);
    U64AtToBytes(v.buf, offset, frames[i].codeObject);
    U64AtToBytes(v.buf, offset + 8, frames[i].instrOffset);
  }

  lemma HeaderWritten(tid: U32, frames: seq<RawFrame>)
    requires |frames| < 0x1_0000_0000
    ensures U32At(RecordBytes(tid, frames), 0) == tid && U32At(RecordBytes(tid, frames), 4) == |frames|
  {
    var buf := RecordBytes(tid, frames);
    assert buf[0..4] == ToBytes(tid, 4);
    assert buf[4..8] == ToBytes(|frames|, 4);
    U32AtToBytes(buf, 0, tid);
    U32AtToBytes(buf, 4, |frames|);
  }

  /** Parsing what was written gives back the thread, the depth and every frame. */
  lemma ParseWritten(tid: U32, frames: seq<RawFrame>)
    requires |frames| < 0x1_0000_0000
    ensures var r := ParseRecord(RecordBytes(tid, frames));
            r.Some? && r.value.tid == tid && r.value.depth == |frames| && Frames(r.value) == frames
  {
    HeaderWritten(tid, frames);
    var v := ParseRecord(RecordBytes(tid, frames)).value;
    forall i | 0 <= i < |frames| ensures Frames(v)[i] == frames[i] {
      RecordFrameAt(tid, frames, v, i);
    }
  }
}
