/**
 * The A2DP source node (Bluetooth audio coming into the graph): one output
 * port with a table of up to 32 buffers. A buffer the node holds is
 * "outstanding" and sits on the free list; decoding a packet fills free
 * buffers, which go to the peer through the I/O slot or wait on the ready
 * list; process() hands ready buffers out oldest first and recycles the
 * buffer the peer leaves in the slot.
 *
 * The SBC decoder, the Bluetooth transport and the clock are parameters.
 * Decoded sample memory is not modelled: a buffer's chunk records how many
 * bytes were decoded into it.
 */
module A2dpSource {
  import opened Spa

  const MAX_BUFFERS: nat := 32
  const DEFAULT_MIN_LATENCY: int := 128
  const DEFAULT_MAX_LATENCY: int := 1024
  /** sizeof(struct rtp_header) + sizeof(struct rtp_payload): the bytes before the SBC frames. */
  const RTP_HEADER_SIZE: nat := 13
  /** sizeof(impl.buffer): the most one read of the transport returns. */
  const READ_BUFFER_SIZE: nat := 4096
  const U32: nat := 0x1_0000_0000
  const U64: nat := 0x1_0000_0000_0000_0000

  datatype Props = Props(minLatency: int, maxLatency: int)

  /** The optional fields of a Props object (SPA_POD_OPT_Int): absent fields keep their value. */
  datatype PropsObject = PropsObject(minLatency: Option<int>, maxLatency: Option<int>)

  datatype ParamId = PropsParam | FormatParam | OtherParam
  datatype IoId = BuffersIo | OtherIo
  datatype Command = Start | Pause | OtherCommand

  /** One call of the SBC decoder: input bytes it consumed and output bytes it wrote. */
  datatype DecodeStep = DecodeStep(decoded: int, written: nat)

  /** The buffer side of the node: table, flags, lists, the peer's slot and the sample counter. */
  datatype BufState = BufState(
    buffers: seq<SpaBuffer>,
    outstanding: seq<bool>,
    nBuffers: nat,
    free: seq<nat>,
    ready: seq<nat>,
    io: Option<IoBuffers>,
    sampleCount: nat)

  predicate Shape(s: BufState) {
    |s.buffers| == MAX_BUFFERS && |s.outstanding| == MAX_BUFFERS && s.nBuffers <= MAX_BUFFERS &&
    (forall k :: 0 <= k < |s.free| ==> s.free[k] < MAX_BUFFERS) &&
    (forall k :: 0 <= k < |s.ready| ==> s.ready[k] < MAX_BUFFERS) &&
    s.sampleCount < U32
  }

  /**
   * Ownership while streaming: a bound buffer is on the free list exactly
   * when it is outstanding (held by the node), the lists hold each buffer at
   * most once, and ready buffers are not outstanding, so never also free.
   */
  predicate Owned(s: BufState)
    requires Shape(s)
  {
    NoDup(s.free) && NoDup(s.ready) &&
    (forall k :: 0 <= k < |s.free| ==> s.free[k] < s.nBuffers) &&
    (forall k :: 0 <= k < |s.ready| ==> s.ready[k] < s.nBuffers && !s.outstanding[s.ready[k]]) &&
    (forall i :: 0 <= i < s.nBuffers ==> (i in s.free <==> s.outstanding[i]))
  }

  /** reset_buffers: every bound buffer back on the free list, in index order, and nothing ready. */
  function ResetBuffers(s: BufState): (r: BufState)
    requires Shape(s)
    ensures Shape(r) && Owned(r)
    ensures |r.free| == s.nBuffers && r.ready == [] && r.nBuffers == s.nBuffers
    ensures forall i :: 0 <= i < s.nBuffers ==> i in r.free
  {
    var r := s.(free := Indices(s.nBuffers), ready := [],
                outstanding := seq(MAX_BUFFERS, i requires 0 <= i < MAX_BUFFERS => if i < s.nBuffers then true else s.outstanding[i]));
    assert forall i :: 0 <= i < s.nBuffers ==> i in r.free && r.outstanding[i] by {
      forall i | 0 <= i < s.nBuffers ensures i in r.free && r.outstanding[i] {
        assert r.free[i] == i;
      }
    }
    r
  }

  /**
   * recycle_buffer: a buffer the node does not hold goes to the tail of the
   * free list and becomes outstanding; recycling a held buffer does nothing.
   */
  function Recycle(s: BufState, id: nat): (r: BufState)
    requires Shape(s) && id < s.nBuffers
    ensures Shape(r) && r.nBuffers == s.nBuffers && r.ready == s.ready && r.io == s.io
    ensures r.outstanding[id] && (!s.outstanding[id] ==> r.free == s.free + [id])
    ensures s.outstanding[id] ==> r == s
    ensures Owned(s) && id !in s.ready ==> Owned(r) && |r.free| == |s.free| + (if s.outstanding[id] then 0 else 1)
  {
    if s.outstanding[id] then s
    else s.(free := s.free + [id], outstanding := s.outstanding[id := true])
  }

  /**
   * impl_node_process on the buffer state, with its return value: a slot
   * still holding HAVE_BUFFER is left alone; otherwise the buffer the peer
   * left in the slot is recycled and the oldest ready buffer, if any, is
   * put in the slot with HAVE_BUFFER.
   */
  function ProcessSpec(s: BufState): (r: (BufState, int))
    requires Shape(s)
    ensures Shape(r.0) && r.0.nBuffers == s.nBuffers
    ensures s.io.None? ==> r == (s, -EIO)
    ensures s.io.Some? && s.io.value.status == STATUS_HAVE_BUFFER ==> r == (s, STATUS_HAVE_BUFFER)
    ensures s.io.Some? && s.io.value.status != STATUS_HAVE_BUFFER ==>
      (s.ready == [] <==> r.1 == STATUS_OK) &&
      (s.ready == [] ==>
         r.0.ready == [] &&
         r.0.io == Some(s.io.value.(bufferId := if s.io.value.bufferId < s.nBuffers then ID_INVALID else s.io.value.bufferId))) &&
      (s.ready != [] ==>
         r.1 == STATUS_HAVE_BUFFER && r.0.ready == s.ready[1..] &&
         r.0.io == Some(IoBuffers(STATUS_HAVE_BUFFER, s.ready[0])))
    ensures s.io.Some? && s.io.value.bufferId < s.nBuffers && s.io.value.status != STATUS_HAVE_BUFFER ==>
      r.0.outstanding[s.io.value.bufferId]
    ensures Owned(s) && s.io.Some? && s.io.value.bufferId !in s.ready ==> Owned(r.0)
  {
    if s.io.None? then (s, -EIO)
    else
      var io := s.io.value;
      if io.status == STATUS_HAVE_BUFFER then (s, STATUS_HAVE_BUFFER)
      else
        var s1 := if io.bufferId < s.nBuffers then Recycle(s, io.bufferId).(io := Some(io.(bufferId := ID_INVALID))) else s;
        if s1.ready == [] then (s1, STATUS_OK)
        else
          var b := s1.ready[0];
          (s1.(ready := s1.ready[1..], io := Some(IoBuffers(STATUS_HAVE_BUFFER, b))), STATUS_HAVE_BUFFER)
  }

  datatype FillResult = FillResult(rest: seq<int>, avail: nat, ok: bool)

  /**
   * The inner loop of decode_data: SBC frames are decoded from `src` into a
   * buffer with `avail` bytes of room until the room or the input runs out;
   * `ok` is false when the decoder reports an error (0 or less: the
   * corrected test; InnerStepAsWritten is the size_t test as written). The
   * decoder's counts are clamped to the input and room left.
   */
  function Fill(dec: (seq<int>, nat) -> DecodeStep, src: seq<int>, avail: nat): (r: FillResult)
    decreases |src|
    ensures |r.rest| <= |src| && r.avail <= avail
    ensures r.rest == src[|src| - |r.rest|..]
    ensures r.ok ==> r.rest == [] || r.avail == 0
    ensures !r.ok ==> r.rest != [] && r.avail > 0 && dec(r.rest, r.avail).decoded <= 0
  {
    if avail == 0 || |src| == 0 then FillResult(src, avail, true)
    else
      var step := dec(src, avail);
      if step.decoded <= 0 then FillResult(src, avail, false)
      else Fill(dec, src[Min(step.decoded, |src|)..], avail - Min(step.written, avail))
  }

  /** The header metadata of a buffer being filled: seq = sample count, pts = now, dts_offset = 0. */
  function Stamp(b: SpaBuffer, sampleCount: nat, now: int): SpaBuffer {
    if b.header.Some? then b.(header := Some(b.header.value.(seqNum := sampleCount, pts := now, dtsOffset := 0)))
    else b
  }

  /**
   * A filled buffer, the head of the free list, leaves it, stops being
   * outstanding and goes into the slot unless the slot holds HAVE_BUFFER,
   * in which case it goes to the tail of the ready list.
   */
  function HandOff(s: BufState): (r: BufState)
    requires Shape(s) && s.free != []
    ensures Shape(r) && r.nBuffers == s.nBuffers && r.free == s.free[1..] && !r.outstanding[s.free[0]]
    ensures s.io.Some? && s.io.value.status != STATUS_HAVE_BUFFER ==>
      r.io == Some(IoBuffers(STATUS_HAVE_BUFFER, s.free[0])) && r.ready == s.ready
    ensures !(s.io.Some? && s.io.value.status != STATUS_HAVE_BUFFER) ==>
      r.io == s.io && r.ready == s.ready + [s.free[0]]
  {
    var b := s.free[0];
    var s1 := s.(free := s.free[1..], outstanding := s.outstanding[b := false]);
    if s.io.Some? && s.io.value.status != STATUS_HAVE_BUFFER then s1.(io := Some(IoBuffers(STATUS_HAVE_BUFFER, b)))
    else s1.(ready := s.ready + [b])
  }

  /** A hand-off keeps ownership. */
  lemma HandOffKeepsOwned(s: BufState)
    requires Shape(s) && s.free != [] && Owned(s)
    ensures Owned(HandOff(s))
  {
    var b := s.free[0];
    var s1 := s.(free := s.free[1..], outstanding := s.outstanding[b := false]);
    assert forall k :: 0 <= k < |s1.free| ==> s1.free[k] == s.free[k + 1];
    assert b !in s1.free && b !in s.ready;
  }

  datatype StepResult = StepResult(s: BufState, rest: seq<int>, more: bool)

  /** The head of the free list stamped with the sample count and the time. */
  function Stamped(s: BufState, now: int): (r: BufState)
    requires Shape(s) && s.free != []
    ensures Shape(r) && r.free == s.free && r.ready == s.ready && r.io == s.io && r.nBuffers == s.nBuffers
  {
    s.(buffers := s.buffers[s.free[0] := Stamp(s.buffers[s.free[0]], s.sampleCount, now)])
  }

  /** The head of the free list records `size` decoded bytes and the sample counter (32 bits) advances by its frames. */
  function Filled(s: BufState, size: nat, frameSize: nat): (r: BufState)
    requires Shape(s) && s.free != [] && frameSize > 0
    ensures Shape(r) && r.free == s.free && r.ready == s.ready && r.io == s.io && r.nBuffers == s.nBuffers
  {
    var b := s.free[0];
    s.(buffers := s.buffers[b := s.buffers[b].(data := s.buffers[b].data.(chunk := Chunk(0, size, frameSize)))],
       sampleCount := (s.sampleCount + size / frameSize) % U32)
  }

  /**
   * One round of decode_data's outer loop: the head of the free list is
   * stamped and filled; when the decoder fails the round ends decoding with
   * that buffer still free, otherwise the buffer is handed off and the
   * sample counter (32 bits) grows by the frames it holds.
   */
  function DecodeOne(s: BufState, src: seq<int>, dec: (seq<int>, nat) -> DecodeStep, frameSize: nat, now: int): (r: StepResult)
    requires Shape(s) && frameSize > 0 && src != [] && s.free != []
    ensures Shape(r.s) && r.s.nBuffers == s.nBuffers && |r.rest| <= |src|
    ensures r.more ==> |r.s.free| < |s.free|
  {
    var st := Stamped(s, now);
    var f := Fill(dec, src, st.buffers[s.free[0]].data.maxsize);
    if !f.ok then StepResult(st, f.rest, false)
    else StepResult(HandOff(Filled(st, st.buffers[s.free[0]].data.maxsize - f.avail, frameSize)), f.rest, true)
  }

  /**
   * A round of decode_data moves only the head of the free list: a
   * handed-off buffer leaves the free list, is no longer outstanding and its
   * frames are added to the sample counter; a failed round changes no list.
   */
  lemma DecodeOneSteps(s: BufState, src: seq<int>, dec: (seq<int>, nat) -> DecodeStep, frameSize: nat, now: int)
    requires Shape(s) && frameSize > 0 && src != [] && s.free != []
    ensures var r := DecodeOne(s, src, dec, frameSize, now);
      (r.more ==> r.s.free == s.free[1..] && !r.s.outstanding[s.free[0]] &&
                  r.s.sampleCount == (s.sampleCount + r.s.buffers[s.free[0]].data.chunk.size / frameSize) % U32) &&
      (!r.more ==> r.s.free == s.free && r.s.ready == s.ready && r.s.io == s.io) &&
      (forall x :: x in r.s.ready ==> x in s.ready || x == s.free[0])
  {
  }

  /** A round of decode_data keeps ownership. */
  lemma DecodeOneKeepsOwned(s: BufState, src: seq<int>, dec: (seq<int>, nat) -> DecodeStep, frameSize: nat, now: int)
    requires Shape(s) && frameSize > 0 && src != [] && s.free != [] && Owned(s)
    ensures Owned(DecodeOne(s, src, dec, frameSize, now).s)
  {
    var st := Stamped(s, now);
    var f := Fill(dec, src, st.buffers[s.free[0]].data.maxsize);
    if f.ok {
      var s1 := Filled(st, st.buffers[s.free[0]].data.maxsize - f.avail, frameSize);
      assert Owned(s1);
      HandOffKeepsOwned(s1);
    }
  }

  /**
   * decode_data on the SBC payload `src`: free buffers are filled in list
   * order and handed off one by one. Decoding stops when the input is used
   * up, when no buffer is free (the rest is dropped) or when the decoder
   * fails.
   */
  function DecodeSpec(s: BufState, src: seq<int>, dec: (seq<int>, nat) -> DecodeStep, frameSize: nat, now: int): (r: BufState)
    requires Shape(s) && frameSize > 0
    decreases |s.free|
    ensures Shape(r) && r.nBuffers == s.nBuffers && |r.free| <= |s.free|
    ensures Owned(s) ==> Owned(r)
  {
    if src == [] || s.free == [] then s
    else
      var st := DecodeOne(s, src, dec, frameSize, now);
      assert Owned(s) ==> Owned(st.s) by {
        if Owned(s) {
          DecodeOneKeepsOwned(s, src, dec, frameSize, now);
        }
      }
      if !st.more then st.s else DecodeSpec(st.s, st.rest, dec, frameSize, now)
  }

  /**
   * Each buffer decode_data fills is one that was free, and it ends up in
   * the slot or on the ready list: buffers only move from the free list to
   * the peer's side, never the other way.
   */
  lemma {:induction false} DecodeOnlyTakesFreeBuffers(s: BufState, src: seq<int>, dec: (seq<int>, nat) -> DecodeStep,
                                                     frameSize: nat, now: int)
    requires Shape(s) && frameSize > 0
    ensures var r := DecodeSpec(s, src, dec, frameSize, now);
      (forall x :: x in r.free ==> x in s.free) &&
      (forall x :: x in r.ready ==> x in s.ready || x in s.free)
    decreases |s.free|
  {
    if src != [] && s.free != [] {
      var st := DecodeOne(s, src, dec, frameSize, now);
      DecodeOneSteps(s, src, dec, frameSize, now);
      if st.more {
        DecodeOnlyTakesFreeBuffers(st.s, st.rest, dec, frameSize, now);
        assert forall x :: x in st.s.free ==> x in s.free;
      }
    }
  }

  /**
   * The payload length decode_data hands the decoder for a read of r bytes,
   * as written: size_t arithmetic, so a read shorter than the RTP header (0
   * bytes when the socket closes) wraps to nearly 2^64, far beyond the
   * 4096-byte read buffer the decoder is then pointed into.
   */
  function PayloadSizeAsWritten(r: nat): (n: nat)
    requires r <= READ_BUFFER_SIZE
    ensures r >= RTP_HEADER_SIZE ==> n == r - RTP_HEADER_SIZE
    ensures r < RTP_HEADER_SIZE ==> n >= U64 - RTP_HEADER_SIZE && n > READ_BUFFER_SIZE
  {
    (r - RTP_HEADER_SIZE + U64) % U64
  }

  /** The payload length of a read of r bytes, with reads shorter than the header dropped. */
  function PayloadSize(r: nat): (n: Option<nat>)
    ensures n.None? <==> r < RTP_HEADER_SIZE
    ensures n.Some? ==> n.value + RTP_HEADER_SIZE == r && n.value <= r
    ensures r <= READ_BUFFER_SIZE && n.Some? ==> n.value == PayloadSizeAsWritten(r)
  {
    if r < RTP_HEADER_SIZE then None else Some(r - RTP_HEADER_SIZE)
  }

  /**
   * One pass of decode_data's inner loop on its src_size counter, as
   * written: the decoder's ssize_t result is stored in the size_t
   * `decoded`, so only 0 fails the `decoded <= 0` test (None: the loop
   * returns) and any other result is subtracted modulo 2^64.
   */
  function InnerStepAsWritten(srcSize: nat, ret: int): (r: Option<nat>)
    requires srcSize < U64 && -(U64 / 2) <= ret < U64 / 2
    ensures r.None? <==> ret == 0
    ensures 0 < ret <= srcSize ==> r == Some(srcSize - ret)
    ensures r.Some? ==> r.value < U64
  {
    var decoded := if ret < 0 then ret + U64 else ret;
    if decoded <= 0 then None else Some((srcSize - decoded + U64) % U64)
  }

  /**
   * A decoder error (a negative result) passes the size_t test: the loop
   * goes on with src_size grown by the error code, and src moved backwards
   * by as much, instead of stopping as Fill does.
   */
  lemma DecoderErrorAsWrittenContinues(srcSize: nat, err: int)
    requires 0 < srcSize <= READ_BUFFER_SIZE && -(U64 / 2) <= err < 0
    ensures InnerStepAsWritten(srcSize, err) == Some(srcSize - err)
    ensures InnerStepAsWritten(srcSize, err).value > srcSize
  {
  }

  /** a2dp_on_ready_read + decode_data for one packet read from the transport. */
  function DecodePacket(s: BufState, packet: seq<int>, dec: (seq<int>, nat) -> DecodeStep, frameSize: nat, now: int): (r: BufState)
    requires Shape(s) && frameSize > 0
    ensures Shape(r) && (Owned(s) ==> Owned(r))
    ensures |packet| <= RTP_HEADER_SIZE ==> r == s
  {
    match PayloadSize(|packet|)
    case None => s
    case Some(n) => DecodeSpec(s, packet[RTP_HEADER_SIZE..], dec, frameSize, now)
  }

  /**
   * use_buffers' binding loop on a cleared table: entries 0 .. n-1 take the
   * given buffers, become outstanding and are appended to the free list;
   * the first buffer without mapped memory stops it with -EINVAL (that entry
   * written and outstanding but not listed, n_buffers not set).
   */
  function BindBuffers(s: BufState, bufs: seq<SpaBuffer>): (r: (BufState, int))
    requires Shape(s) && |bufs| <= MAX_BUFFERS
    ensures Shape(r.0) && (r.1 == 0 || r.1 == -EINVAL)
    ensures r.0.io == s.io && r.0.ready == s.ready && r.0.sampleCount == s.sampleCount
    ensures r.1 == 0 <==> forall i :: 0 <= i < |bufs| ==> UsableMemory(bufs[i].data)
    ensures r.1 == 0 ==>
      r.0.nBuffers == |bufs| && r.0.free == s.free + Indices(|bufs|) &&
      forall i :: 0 <= i < |bufs| ==> r.0.buffers[i] == bufs[i] && r.0.outstanding[i]
    ensures r.1 != 0 ==> r.0.nBuffers == s.nBuffers
    decreases |bufs|
  {
    BindFrom(s, bufs, 0)
  }

  function BindFrom(s: BufState, bufs: seq<SpaBuffer>, i: nat): (r: (BufState, int))
    requires Shape(s) && i <= |bufs| <= MAX_BUFFERS
    requires forall k :: 0 <= k < i ==> UsableMemory(bufs[k].data)
    ensures Shape(r.0) && (r.1 == 0 || r.1 == -EINVAL)
    ensures r.0.io == s.io && r.0.ready == s.ready && r.0.sampleCount == s.sampleCount
    ensures r.1 == 0 <==> forall k :: 0 <= k < |bufs| ==> UsableMemory(bufs[k].data)
    ensures r.1 == 0 ==>
      r.0.nBuffers == |bufs| && r.0.free == s.free + seq(|bufs| - i, k requires 0 <= k < |bufs| - i => i + k) &&
      (forall k :: i <= k < |bufs| ==> r.0.buffers[k] == bufs[k] && r.0.outstanding[k]) &&
      (forall k :: 0 <= k < i ==> r.0.buffers[k] == s.buffers[k] && r.0.outstanding[k] == s.outstanding[k])
    ensures r.1 != 0 ==> r.0.nBuffers == s.nBuffers
    decreases |bufs| - i
  {
    if i == |bufs| then (s.(nBuffers := |bufs|), 0)
    else
      var s1 := s.(buffers := s.buffers[i := bufs[i]], outstanding := s.outstanding[i := true]);
      if !UsableMemory(bufs[i].data) then (s1, -EINVAL)
      else
        var r := BindFrom(s1.(free := s.free + [i]), bufs, i + 1);
        assert r.1 == 0 ==> r.0.free == s.free + seq(|bufs| - i, k requires 0 <= k < |bufs| - i => i + k) by {
          if r.1 == 0 {
            assert r.0.free == s.free + [i] + seq(|bufs| - (i + 1), k requires 0 <= k < |bufs| - (i + 1) => i + 1 + k);
          }
        }
        r
  }

  /**
   * clear_buffers on the buffer state: no buffer stays bound and both the
   * free and the ready list are emptied, whatever was bound before.
   */
  function Cleared(s: BufState): (r: BufState)
    requires Shape(s)
    ensures Shape(r) && r.nBuffers == 0 && r.free == [] && r.ready == []
    ensures r.buffers == s.buffers && r.outstanding == s.outstanding && r.io == s.io && r.sampleCount == s.sampleCount
  {
    s.(free := [], ready := [], nBuffers := 0)
  }

  /** clear_buffers as written: the lists are emptied only when n_buffers is positive. */
  function ClearedAsWritten(s: BufState): (r: BufState)
    requires Shape(s)
    ensures Shape(r) && r.nBuffers == 0
    ensures s.nBuffers > 0 ==> r == Cleared(s)
    ensures s.nBuffers == 0 ==> r == s
  {
    if s.nBuffers > 0 then Cleared(s) else s
  }

  /**
   * use_buffers as written: a use_buffers that fails on its second buffer
   * leaves buffer 0 on the free list with n_buffers 0, so the lists survive
   * the next clear and a successful use_buffers puts buffer 0 there twice.
   */
  lemma UseBuffersAsWrittenFreesTwice(s: BufState)
    requires Shape(s) && s.nBuffers == 0 && s.free == []
    ensures var good := SpaBuffer(0, SpaData(MemPtr, true, 4, Chunk(0, 0, 0), [0, 0]), None);
      var bad := SpaBuffer(1, SpaData(MemPtr, false, 4, Chunk(0, 0, 0), []), None);
      var r1 := BindBuffers(ClearedAsWritten(s), [good, bad]);
      var r2 := BindBuffers(ClearedAsWritten(r1.0), [good]);
      r1.1 == -EINVAL && r1.0.nBuffers == 0 && r1.0.free == [0] &&
      r2.1 == 0 && r2.0.free == [0, 0]
  {
    var good := SpaBuffer(0, SpaData(MemPtr, true, 4, Chunk(0, 0, 0), [0, 0]), None);
    var bad := SpaBuffer(1, SpaData(MemPtr, false, 4, Chunk(0, 0, 0), []), None);
    assert ClearedAsWritten(s) == s;
    assert s.free + [0] == [0];
    var s1 := s.(buffers := s.buffers[0 := good], outstanding := s.outstanding[0 := true]).(free := [0]);
    assert BindFrom(s, [good, bad], 0) == BindFrom(s1, [good, bad], 1);
    var r1 := BindBuffers(s, [good, bad]);
    assert r1.0.free == [0] && r1.0.nBuffers == 0;
    assert ClearedAsWritten(r1.0) == r1.0;
    assert Indices(1) == [0];
  }

  /**
   * With clear_buffers emptying the lists, a successful use_buffers leaves
   * exactly the new buffers 0..n-1 on the free list, each once, and nothing
   * ready.
   */
  lemma UseBuffersFreesEachOnce(s: BufState, bufs: seq<SpaBuffer>)
    requires Shape(s) && |bufs| <= MAX_BUFFERS
    requires BindBuffers(Cleared(s), bufs).1 == 0
    ensures var r := BindBuffers(Cleared(s), bufs).0;
      r.free == Indices(|bufs|) && r.ready == [] &&
      forall i, j :: 0 <= i < j < |r.free| ==> r.free[i] != r.free[j]
  {
  }

  predicate UsableMemory(d: SpaData) {
    (d.kind == MemFd || d.kind == DmaBuf || d.kind == MemPtr) && d.mapped
  }

  /** The A2DP source node (struct impl). */
  class Source {
    var props: Props
    var haveFormat: bool
    var format: RawInfo
    var frameSize: nat
    var portRate: nat
    var io: Option<IoBuffers>
    var buffers: seq<SpaBuffer>
    var outstanding: seq<bool>
    var nBuffers: nat
    var free: seq<nat>
    var ready: seq<nat>
    var sampleCount: nat
    var started: bool

    function State(): BufState
      reads this
    {
      BufState(buffers, outstanding, nBuffers, free, ready, io, sampleCount)
    }

    ghost predicate Valid()
      reads this
    {
      Shape(State()) && (haveFormat ==> frameSize == format.channels * 2)
    }

    /** impl_init: default latencies, no format, no buffers, not started. */
    constructor ()
      ensures Valid() && props == Props(DEFAULT_MIN_LATENCY, DEFAULT_MAX_LATENCY)
      ensures !haveFormat && !started && nBuffers == 0 && free == [] && ready == [] && io.None?
    {
      props := Props(DEFAULT_MIN_LATENCY, DEFAULT_MAX_LATENCY);
      haveFormat := false;
      format := RawInfo(0, 0, 0);
      frameSize := 0;
      portRate := 0;
      io := None;
      buffers := seq(MAX_BUFFERS, i requires 0 <= i < MAX_BUFFERS => SpaBuffer(i, SpaData(OtherData, false, 0, Chunk(0, 0, 0), []), None));
      outstanding := seq(MAX_BUFFERS, i requires 0 <= i < MAX_BUFFERS => false);
      nBuffers := 0;
      free := [];
      ready := [];
      sampleCount := 0;
      started := false;
    }

    /** impl_node_set_param: Props with no object resets the latencies; unknown ids are -ENOENT. */
    method SetParam(id: ParamId, param: Option<PropsObject>) returns (res: int)
      modifies this`props
      ensures id != PropsParam ==> res == -ENOENT && props == old(props)
      ensures id == PropsParam ==> res == 0
      ensures id == PropsParam && param.None? ==> props == Props(DEFAULT_MIN_LATENCY, DEFAULT_MAX_LATENCY)
      ensures id == PropsParam && param.Some? ==>
        props.minLatency == (if param.value.minLatency.Some? then param.value.minLatency.value else old(props.minLatency)) &&
        props.maxLatency == (if param.value.maxLatency.Some? then param.value.maxLatency.value else old(props.maxLatency))
    {
      if id != PropsParam {
        return -ENOENT;
      }
      if param.None? {
        props := Props(DEFAULT_MIN_LATENCY, DEFAULT_MAX_LATENCY);
        return 0;
      }
      var p := param.value;
      if p.minLatency.Some? {
        props := props.(minLatency := p.minLatency.value);
      }
      if p.maxLatency.Some? {
        props := props.(maxLatency := p.maxLatency.value);
      }
      res := 0;
    }

    /**
     * do_start: idempotent while started; otherwise the transport is acquired
     * (its result is `acquired`), every bound buffer goes back on the free
     * list and the sample counter restarts at 0.
     */
    method DoStart(acquired: int) returns (res: int)
      requires Valid()
      modifies this`free, this`ready, this`outstanding, this`sampleCount, this`started
      ensures Valid()
      ensures old(started) ==> res == 0 && State() == old(State()) && started
      ensures !old(started) && acquired < 0 ==> res == acquired && State() == old(State()) && !started
      ensures !old(started) && acquired >= 0 ==>
        res == 0 && started && State() == ResetBuffers(old(State())).(sampleCount := 0)
    {
      if started {
        return 0;
      }
      if acquired < 0 {
        return acquired;
      }
      var s := ResetBuffers(State());
      free, ready, outstanding := s.free, s.ready, s.outstanding;
      sampleCount := 0;
      started := true;
      res := 0;
    }

    /** do_stop: idempotent while stopped; otherwise stops and returns the transport's release result. */
    method DoStop(released: int) returns (res: int)
      modifies this`started
      ensures !old(started) ==> res == 0 && !started
      ensures old(started) ==> res == released && !started
    {
      if !started {
        return 0;
      }
      started := false;
      res := released;
    }

    /**
     * impl_node_send_command: Start needs a format and buffers (-EIO);
     * Pause stops and reports only a failed release; any other command is -ENOTSUP.
     */
    method SendCommand(cmd: Command, acquired: int, released: int) returns (res: int)
      requires Valid()
      modifies this`free, this`ready, this`outstanding, this`sampleCount, this`started
      ensures Valid()
      ensures cmd == Start && (!old(haveFormat) || old(nBuffers) == 0) ==>
        res == -EIO && State() == old(State()) && started == old(started)
      ensures cmd == Start && old(haveFormat) && old(nBuffers) > 0 ==>
        (old(started) ==> res == 0 && started && State() == old(State())) &&
        (!old(started) ==>
           res == (if acquired < 0 then acquired else 0) && started == (acquired >= 0) &&
           State() == (if acquired < 0 then old(State()) else ResetBuffers(old(State())).(sampleCount := 0)))
      ensures cmd == Pause ==> !started && State() == old(State()) && res == (if old(started) && released < 0 then released else 0)
      ensures cmd == OtherCommand ==> res == -ENOTSUP && State() == old(State()) && started == old(started)
    {
      match cmd
      case Start =>
        if !haveFormat || nBuffers == 0 {
          return -EIO;
        }
        res := DoStart(acquired);
      case Pause =>
        res := DoStop(released);
        if res > 0 {
          res := 0;
        }
      case OtherCommand =>
        res := -ENOTSUP;
    }

    /**
     * clear_buffers: stops the node, unbinds the buffers and empties both
     * lists, also when no buffer is bound (the corrected guard).
     */
    method ClearBuffers(released: int)
      requires Valid()
      modifies this`free, this`ready, this`nBuffers, this`started
      ensures Valid() && !started
      ensures State() == Cleared(old(State()))
    {
      var _ := DoStop(released);
      free := [];
      ready := [];
      nBuffers := 0;
    }

    /**
     * port_set_format on port (dir, id), through impl_node_port_set_param:
     * a port other than output 0 is -EINVAL; NULL clears the buffers and
     * the format; anything but parsable audio/raw is -EINVAL; an accepted
     * format sets the frame size to channels * 2 bytes and the port rate.
     */
    method SetFormat(dir: Direction, portId: nat, fmt: Option<Format>, released: int) returns (res: int)
      requires Valid()
      modifies this`free, this`ready, this`nBuffers, this`started, this`haveFormat, this`format, this`frameSize, this`portRate
      ensures Valid()
      ensures !(dir == Output && portId == 0) ==>
        res == -EINVAL && State() == old(State()) && haveFormat == old(haveFormat) && started == old(started)
      ensures dir == Output && portId == 0 && fmt.None? ==>
        res == 0 && !haveFormat && !started && State() == Cleared(old(State()))
      ensures dir == Output && portId == 0 && fmt.Some? &&
              !(fmt.value.mediaType == Audio && fmt.value.mediaSubtype == Raw && fmt.value.raw.Some?) ==>
        res == -EINVAL && State() == old(State()) && haveFormat == old(haveFormat) && started == old(started)
      ensures dir == Output && portId == 0 && fmt.Some? &&
              fmt.value.mediaType == Audio && fmt.value.mediaSubtype == Raw && fmt.value.raw.Some? ==>
        res == 0 && haveFormat && format == fmt.value.raw.value && frameSize == fmt.value.raw.value.channels * 2 &&
        portRate == fmt.value.raw.value.rate && State() == old(State()) && started == old(started)
    {
      if !(dir == Output && portId == 0) {
        return -EINVAL;
      }
      if fmt.None? {
        ClearBuffers(released);
        haveFormat := false;
      } else {
        var f := fmt.value;
        if f.mediaType != Audio || f.mediaSubtype != Raw {
          return -EINVAL;
        }
        if f.raw.None? {
          return -EINVAL;
        }
        frameSize := f.raw.value.channels * 2;
        format := f.raw.value;
        haveFormat := true;
      }
      if haveFormat {
        portRate := format.rate;
      }
      res := 0;
    }

    /** impl_node_port_set_io: only the Buffers slot of output port 0. */
    method SetIo(dir: Direction, portId: nat, id: IoId, slot: Option<IoBuffers>) returns (res: int)
      requires Valid()
      modifies this`io
      ensures Valid()
      ensures !(dir == Output && portId == 0) ==> res == -EINVAL && io == old(io)
      ensures dir == Output && portId == 0 && id == OtherIo ==> res == -ENOENT && io == old(io)
      ensures dir == Output && portId == 0 && id == BuffersIo ==> res == 0 && io == slot
    {
      if !(dir == Output && portId == 0) {
        return -EINVAL;
      }
      if id == OtherIo {
        return -ENOENT;
      }
      io := slot;
      res := 0;
    }

    /**
     * impl_node_port_use_buffers: -EINVAL for a wrong port, -EIO without a
     * format; otherwise clears the buffers and binds the new ones in order.
     */
    method UseBuffers(dir: Direction, portId: nat, bufs: seq<SpaBuffer>, released: int) returns (res: int)
      requires Valid() && |bufs| <= MAX_BUFFERS
      modifies this`buffers, this`outstanding, this`free, this`ready, this`nBuffers, this`started
      ensures Valid()
      ensures !(dir == Output && portId == 0) ==> res == -EINVAL && State() == old(State()) && started == old(started)
      ensures dir == Output && portId == 0 && !old(haveFormat) ==> res == -EIO && State() == old(State()) && started == old(started)
      ensures dir == Output && portId == 0 && old(haveFormat) ==>
        !started &&
        (State(), res) == BindBuffers(Cleared(old(State())), bufs)
    {
      if !(dir == Output && portId == 0) {
        return -EINVAL;
      }
      if !haveFormat {
        return -EIO;
      }
      ClearBuffers(released);
      var r := BindTable(State(), bufs);
      buffers, outstanding, free, nBuffers := r.0.buffers, r.0.outstanding, r.0.free, r.0.nBuffers;
      res := r.1;
    }

    /** The binding loop of use_buffers, on the node's buffer state. */
    static method BindTable(s0: BufState, bufs: seq<SpaBuffer>) returns (r: (BufState, int))
      requires Shape(s0) && |bufs| <= MAX_BUFFERS
      ensures r == BindBuffers(s0, bufs)
    {
      var s := s0;
      var i := 0;
      while i < |bufs|
        invariant 0 <= i <= |bufs| && Shape(s)
        invariant forall k :: 0 <= k < i ==> UsableMemory(bufs[k].data)
        invariant BindFrom(s, bufs, i) == BindFrom(s0, bufs, 0)
      {
        s := s.(buffers := s.buffers[i := bufs[i]], outstanding := s.outstanding[i := true]);
        if !UsableMemory(bufs[i].data) {
          return (s, -EINVAL);
        }
        s := s.(free := s.free + [i]);
        i := i + 1;
      }
      r := (s.(nBuffers := |bufs|), 0);
    }

    /**
     * impl_node_port_reuse_buffer: -EINVAL for a port other than 0, -EIO
     * without buffers, -EINVAL for an id past the table; otherwise recycles.
     */
    method ReuseBuffer(portId: nat, bufferId: nat) returns (res: int)
      requires Valid()
      modifies this`free, this`outstanding
      ensures Valid()
      ensures portId != 0 ==> res == -EINVAL && State() == old(State())
      ensures portId == 0 && old(nBuffers) == 0 ==> res == -EIO && State() == old(State())
      ensures portId == 0 && old(nBuffers) > 0 && bufferId >= old(nBuffers) ==> res == -EINVAL && State() == old(State())
      ensures portId == 0 && bufferId < old(nBuffers) ==> res == 0 && State() == Recycle(old(State()), bufferId)
    {
      if portId != 0 {
        return -EINVAL;
      }
      if nBuffers == 0 {
        return -EIO;
      }
      if bufferId >= nBuffers {
        return -EINVAL;
      }
      RecycleBuffer(bufferId);
      res := 0;
    }

    method RecycleBuffer(id: nat)
      requires Valid() && id < nBuffers
      modifies this`free, this`outstanding
      ensures Valid() && State() == Recycle(old(State()), id)
    {
      if !outstanding[id] {
        free := free + [id];
        outstanding := outstanding[id := true];
      }
    }

    method Process() returns (res: int)
      requires Valid()
      modifies this`free, this`outstanding, this`ready, this`io
      ensures Valid() && (State(), res) == ProcessSpec(old(State()))
    {
      if io.None? {
        return -EIO;
      }
      if io.value.status == STATUS_HAVE_BUFFER {
        return STATUS_HAVE_BUFFER;
      }
      if io.value.bufferId < nBuffers {
        RecycleBuffer(io.value.bufferId);
        io := Some(io.value.(bufferId := ID_INVALID));
      }
      if ready == [] {
        return STATUS_OK;
      }
      var b := ready[0];
      ready := ready[1..];
      io := Some(IoBuffers(STATUS_HAVE_BUFFER, b));
      res := STATUS_HAVE_BUFFER;
    }

    /**
     * decode_data for one packet read from the transport (`packet` holds the
     * bytes read), with `dec` standing for the SBC decoder and `now` for the
     * monotonic clock in nanoseconds.
     */
    method DecodeData(packet: seq<int>, dec: (seq<int>, nat) -> DecodeStep, now: int)
      requires Valid() && frameSize > 0
      modifies this`buffers, this`outstanding, this`free, this`ready, this`io, this`sampleCount
      ensures Valid() && State() == DecodePacket(old(State()), packet, dec, frameSize, now)
    {
      var n := PayloadSize(|packet|);
      if n.None? {
        return;
      }
      var src := packet[RTP_HEADER_SIZE..];
      ghost var goal := DecodeSpec(State(), src, dec, frameSize, now);
      while |src| > 0
        invariant Valid() && DecodeSpec(State(), src, dec, frameSize, now) == goal
        decreases |free|
      {
        if free == [] {
          return;
        }
        var more;
        src, more := FillHead(src, dec, now);
        if !more {
          return;
        }
      }
    }

    /** One round of decode_data's outer loop, on the head of the free list. */
    method FillHead(src: seq<int>, dec: (seq<int>, nat) -> DecodeStep, now: int) returns (rest: seq<int>, more: bool)
      requires Valid() && frameSize > 0 && src != [] && free != []
      modifies this`buffers, this`outstanding, this`free, this`ready, this`io, this`sampleCount
      ensures Valid()
      ensures var st := DecodeOne(old(State()), src, dec, frameSize, now);
        State() == st.s && rest == st.rest && more == st.more
    {
      ghost var s0 := State();
      var b := free[0];
      buffers := buffers[b := Stamp(buffers[b], sampleCount, now)];
      assert State() == Stamped(s0, now);
      var d := buffers[b].data;
      var avail, ok;
      rest, avail, ok := DecodeInto(dec, src, d.maxsize);
      if !ok {
        return rest, false;
      }
      Publish(d.maxsize - avail);
      more := true;
    }

    /**
     * The end of a round of decode_data: the head of the free list records
     * `size` decoded bytes, the sample counter advances and the buffer is
     * handed off.
     */
    method Publish(size: nat)
      requires Valid() && frameSize > 0 && free != []
      modifies this`buffers, this`outstanding, this`free, this`ready, this`io, this`sampleCount
      ensures Valid()
      ensures State() == HandOff(Filled(old(State()), size, frameSize))
    {
      var b := free[0];
      buffers := buffers[b := buffers[b].(data := buffers[b].data.(chunk := Chunk(0, size, frameSize)))];
      sampleCount := (sampleCount + size / frameSize) % U32;
      ghost var s1 := State();
      assert s1 == Filled(old(State()), size, frameSize);
      free := free[1..];
      outstanding := outstanding[b := false];
      if io.Some? && io.value.status != STATUS_HAVE_BUFFER {
        io := Some(IoBuffers(STATUS_HAVE_BUFFER, b));
      } else {
        ready := ready + [b];
      }
      assert State() == HandOff(s1);
    }

    /** The inner loop of decode_data: decodes from `src` into `room` bytes of buffer. */
    static method DecodeInto(dec: (seq<int>, nat) -> DecodeStep, src: seq<int>, room: nat) returns (rest: seq<int>, avail: nat, ok: bool)
      ensures FillResult(rest, avail, ok) == Fill(dec, src, room)
    {
      avail := room;
      rest := src;
      while avail > 0 && |rest| > 0
        invariant Fill(dec, rest, avail) == Fill(dec, src, room)
        decreases |rest|
      {
        var step := dec(rest, avail);
        if step.decoded <= 0 {
          return rest, avail, false;
        }
        rest := rest[Min(step.decoded, |rest|)..];
        avail := avail - Min(step.written, avail);
      }
      ok := true;
    }
  }
}
