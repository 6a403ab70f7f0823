/**
 * The audio mixer node: up to 128 input ports and one output port, each with
 * a fixed table of 64 buffers, an "outstanding" flag per buffer (the buffer is
 * with the peer, not with the mixer) and a FIFO queue of buffers the mixer
 * holds. Each port shares a one-slot I/O area {status, buffer_id, range} with
 * its peer; process_input / process_output run the HAVE_BUFFER / NEED_BUFFER
 * handshake over those slots and mix int16 samples into an output buffer.
 *
 * Buffer memory is modelled as int16 samples; a byte offset or byte count of
 * the node is turned into a sample index or count by halving it.
 */
module AudioMixer {
  import opened Spa

  const MAX_BUFFERS: nat := 64
  const MAX_PORTS: nat := 128
  const INT16_MIN: int := -32768
  const INT16_MAX: int := 32767

  /** SPA_RESULT_* codes; an I/O slot's status holds one of them too. */
  datatype SpaResult = Ok | NeedBuffer | HaveBuffer | Error | InvalidPort | NoFormat
    | InvalidMediaType | NotImplemented | OutOfBuffers | InvalidBufferId | InvalidArguments

  datatype Command = Start | Pause | OtherCommand

  datatype Range = Range(offset: nat, minSize: nat, maxSize: nat)

  /** spa_port_io: the slot shared with the peer of a port. */
  datatype PortIo = PortIo(status: SpaResult, bufferId: nat, range: Range)

  datatype PortFlag = CanUseBuffers | Removable | Optional | InPlace | NoRef

  datatype Port = Port(
    io: Option<PortIo>,
    haveFormat: bool,
    flags: set<PortFlag>,
    buffers: seq<SpaBuffer>,   // the fixed table, MAX_BUFFERS entries
    outstanding: seq<bool>,    // one flag per table entry
    nBuffers: nat,
    queue: seq<nat>,           // table indices, head first
    queuedOffset: nat,
    queuedBytes: nat)

  function UnboundBuffer(i: nat): SpaBuffer {
    SpaBuffer(i, SpaData(OtherData, false, 0, Chunk(0, 0, 0), []), None)
  }

  /** A zero-initialised port. */
  function FreshPort(flags: set<PortFlag>): (p: Port)
    ensures InputValid(p)
  {
    Port(None, false, flags, seq(MAX_BUFFERS, i requires 0 <= i < MAX_BUFFERS => UnboundBuffer(i)),
         seq(MAX_BUFFERS, i requires 0 <= i < MAX_BUFFERS => false), 0, [], 0, 0)
  }

  /** A port takes part in mixing when it has an I/O slot and buffers. */
  predicate Active(p: Port) {
    p.io.Some? && p.nBuffers > 0
  }

  predicate TableShape(p: Port) {
    |p.buffers| == MAX_BUFFERS && |p.outstanding| == MAX_BUFFERS
  }

  /** A queued buffer is held by the mixer: it is in the table, queued once and not outstanding. */
  predicate QueueOwnership(p: Port)
    requires TableShape(p)
  {
    NoDup(p.queue) &&
    forall k :: 0 <= k < |p.queue| ==> p.queue[k] < MAX_BUFFERS && !p.outstanding[p.queue[k]]
  }

  predicate PortValid(p: Port) {
    TableShape(p) && QueueOwnership(p)
  }

  /** Sum of the chunk sizes of the queued buffers. */
  function QueuedSize(bufs: seq<SpaBuffer>, q: seq<nat>): nat
    requires forall k :: 0 <= k < |q| ==> q[k] < |bufs|
  {
    if q == [] then 0 else bufs[q[0]].data.chunk.size + QueuedSize(bufs, q[1..])
  }

  function HeadSize(p: Port): nat
    requires PortValid(p) && p.queue != []
  {
    p.buffers[p.queue[0]].data.chunk.size
  }

  /**
   * queued_bytes counts the queued bytes not yet mixed, and queued_offset is
   * the position reached inside the head buffer.
   */
  predicate ByteAccounting(p: Port)
    requires PortValid(p)
  {
    (p.queuedBytes == 0 ==> p.queuedOffset == 0) &&
    (p.queue != [] ==>
       (p.queuedOffset == 0 || p.queuedOffset < HeadSize(p)) &&
       p.queuedBytes + p.queuedOffset == QueuedSize(p.buffers, p.queue))
  }

  predicate InputValid(p: Port) {
    PortValid(p) && ByteAccounting(p)
  }

  /** Every bound buffer is in exactly one place: queued by the mixer or outstanding. */
  predicate Accounted(p: Port)
    requires PortValid(p)
  {
    p.nBuffers <= MAX_BUFFERS &&
    forall i :: 0 <= i < p.nBuffers ==> (i in p.queue <==> !p.outstanding[i])
  }

  lemma {:induction false} QueuedSizeAppend(bufs: seq<SpaBuffer>, q: seq<nat>, id: nat)
    requires forall k :: 0 <= k < |q| ==> q[k] < |bufs|
    requires id < |bufs|
    ensures forall k :: 0 <= k < |q + [id]| ==> (q + [id])[k] < |bufs|
    ensures QueuedSize(bufs, q + [id]) == QueuedSize(bufs, q) + bufs[id].data.chunk.size
  {
    if q != [] {
      assert (q + [id])[1..] == q[1..] + [id];
      QueuedSizeAppend(bufs, q[1..], id);
    }
  }

  // ---------------------------------------------------------------------
  // Buffer bookkeeping of one port

  /** clear_buffers, with the queue always emptied (see the findings in README.md). */
  function ClearBuffers(p: Port): (r: Port)
    requires PortValid(p)
    ensures PortValid(r) && r.queue == [] && r.nBuffers == 0
    ensures ByteAccounting(p) ==> ByteAccounting(r)
    ensures r.buffers == p.buffers && r.outstanding == p.outstanding && r.io == p.io
  {
    p.(nBuffers := 0, queue := [])
  }

  /** clear_buffers as written: nothing happens when no buffers are bound. */
  function ClearBuffersAsWritten(p: Port): (r: Port)
    ensures p.nBuffers == 0 ==> r == p
    ensures PortValid(p) && (p.nBuffers > 0 || p.queue == []) ==> r == ClearBuffers(p)
  {
    if p.nBuffers > 0 then p.(nBuffers := 0, queue := []) else p
  }

  /**
   * The port after use_buffers has written table entries 0 .. k-1: each entry
   * holds the given buffer, input entries are outstanding, and output entries
   * are appended to the queue in index order.
   */
  function Bound(p: Port, dir: Direction, bufs: seq<SpaBuffer>, k: nat): (r: Port)
    requires TableShape(p) && k <= |bufs| <= MAX_BUFFERS
    ensures TableShape(r) && r.nBuffers == p.nBuffers && r.io == p.io && r.haveFormat == p.haveFormat
    ensures forall i :: 0 <= i < k ==> r.buffers[i] == bufs[i] && r.outstanding[i] == (dir == Input)
    ensures forall i :: k <= i < MAX_BUFFERS ==> r.buffers[i] == p.buffers[i] && r.outstanding[i] == p.outstanding[i]
    ensures r.queue == p.queue + (if dir == Output then Indices(k) else [])
    ensures r.queuedBytes == p.queuedBytes && r.queuedOffset == p.queuedOffset
  {
    p.(buffers := bufs[..k] + p.buffers[k..],
       outstanding := seq(k, i requires 0 <= i < k => dir == Input) + p.outstanding[k..],
       queue := p.queue + (if dir == Output then Indices(k) else []))
  }

  /** Binding entries 0 .. k-1 of a cleared port leaves a port where every queued entry is owned once. */
  lemma BoundOwnership(c: Port, dir: Direction, bufs: seq<SpaBuffer>, k: nat)
    requires TableShape(c) && c.queue == [] && k <= |bufs| <= MAX_BUFFERS
    ensures var b := Bound(c, dir, bufs, k);
      PortValid(b) && (dir == Output ==> b.queue == Indices(k)) && (dir == Input ==> b.queue == [])
  {
    var b := Bound(c, dir, bufs, k);
    assert b.queue == (if dir == Output then Indices(k) else []);
  }

  /** The entry written before the memory check failed is not queued, so every queued entry is still owned once. */
  lemma FailedBindOwnership(c: Port, dir: Direction, bufs: seq<SpaBuffer>, f: nat)
    requires TableShape(c) && c.queue == [] && f < |bufs| <= MAX_BUFFERS
    ensures var b := Bound(c, dir, bufs, f);
      PortValid(b.(buffers := b.buffers[f := bufs[f]], outstanding := b.outstanding[f := dir == Input]))
  {
    BoundOwnership(c, dir, bufs, f);
    var b := Bound(c, dir, bufs, f);
    var e := b.(buffers := b.buffers[f := bufs[f]], outstanding := b.outstanding[f := dir == Input]);
    forall k | 0 <= k < |e.queue|
      ensures e.queue[k] < MAX_BUFFERS && !e.outstanding[e.queue[k]]
    {
      assert e.queue[k] == k < f;
    }
  }

  /** Writing entry k extends the binding by one entry. */
  lemma BoundStep(c: Port, dir: Direction, bufs: seq<SpaBuffer>, k: nat)
    requires TableShape(c) && k < |bufs| <= MAX_BUFFERS
    ensures var b := Bound(c, dir, bufs, k);
      Bound(c, dir, bufs, k + 1) ==
      b.(buffers := b.buffers[k := bufs[k]], outstanding := b.outstanding[k := dir == Input],
         queue := b.queue + (if dir == Output then [k] else []))
  {
    var b := Bound(c, dir, bufs, k);
    var b1 := Bound(c, dir, bufs, k + 1);
    assert b1.buffers == b.buffers[k := bufs[k]];
    assert b1.outstanding == b.outstanding[k := dir == Input];
    assert Indices(k + 1) == Indices(k) + [k];
  }

  /** Index of the first buffer whose first plane is not mapped MemPtr/MemFd/DmaBuf memory, or |bufs|. */
  function FirstUnmapped(bufs: seq<SpaBuffer>): (f: nat)
    ensures f <= |bufs|
    ensures forall i :: 0 <= i < f ==> UsableMemory(bufs[i].data)
    ensures f < |bufs| ==> !UsableMemory(bufs[f].data)
  {
    if bufs == [] then 0
    else if !UsableMemory(bufs[0].data) then 0
    else 1 + FirstUnmapped(bufs[1..])
  }

  predicate UsableMemory(d: SpaData) {
    (d.kind == MemPtr || d.kind == MemFd || d.kind == DmaBuf) && d.mapped
  }

  /** The binding loop of use_buffers run on an already cleared port. */
  function BindBuffers(c: Port, dir: Direction, bufs: seq<SpaBuffer>): (r: (Port, SpaResult))
    requires TableShape(c) && |bufs| <= MAX_BUFFERS
    ensures TableShape(r.0) && r.0.io == c.io && r.0.haveFormat == c.haveFormat
    ensures r.0.queuedBytes == c.queuedBytes && r.0.queuedOffset == c.queuedOffset
    ensures c.queue == [] ==> PortValid(r.0)
    ensures r.1 == Ok || r.1 == Error
    ensures r.1 == Ok ==> r.0 == Bound(c, dir, bufs, |bufs|).(nBuffers := |bufs|)
    ensures r.1 == Error ==> r.0.nBuffers == c.nBuffers && exists i :: 0 <= i < |bufs| && !UsableMemory(bufs[i].data)
  {
    var f := FirstUnmapped(bufs);
    if f < |bufs| then
      var b := Bound(c, dir, bufs, f);
      var e := b.(buffers := b.buffers[f := bufs[f]], outstanding := b.outstanding[f := dir == Input]);
      assert c.queue == [] ==> PortValid(e) by {
        if c.queue == [] { FailedBindOwnership(c, dir, bufs, f); }
      }
      (e, Error)
    else
      assert c.queue == [] ==> PortValid(Bound(c, dir, bufs, |bufs|)) by {
        if c.queue == [] { BoundOwnership(c, dir, bufs, |bufs|); }
      }
      (Bound(c, dir, bufs, |bufs|).(nBuffers := |bufs|), Ok)
  }

  /**
   * use_buffers on a port: NO_FORMAT leaves the port as it is, and so does
   * INVALID_ARGUMENTS for more buffers than the table holds; otherwise the
   * port is cleared and bound: on success every buffer is accounted for (input
   * buffers are outstanding, output buffers queued in index order), and on
   * failure no buffer is bound; the queue never holds a buffer twice.
   */
  function UseBuffersOn(p: Port, dir: Direction, bufs: seq<SpaBuffer>): (r: (Port, SpaResult))
    requires PortValid(p)
    ensures !p.haveFormat ==> r == (p, NoFormat)
    ensures p.haveFormat && |bufs| > MAX_BUFFERS ==> r == (p, InvalidArguments)
    ensures PortValid(r.0) && (dir == Input && ByteAccounting(p) ==> ByteAccounting(r.0))
    ensures p.haveFormat && |bufs| <= MAX_BUFFERS ==> r.1 == Ok || r.1 == Error
    ensures r.1 == Ok ==> r.0.nBuffers == |bufs| && Accounted(r.0)
    ensures r.1 == Ok ==> forall i :: 0 <= i < |bufs| ==> r.0.buffers[i] == bufs[i]
    ensures r.1 == Ok ==> r.0.queue == (if dir == Output then Indices(|bufs|) else [])
    ensures r.1 == Error ==> r.0.nBuffers == 0 && exists i :: 0 <= i < |bufs| && !UsableMemory(bufs[i].data)
  {
    if !p.haveFormat then (p, NoFormat)
    else if |bufs| > MAX_BUFFERS then (p, InvalidArguments)
    else
      var c := ClearBuffers(p);
      var r := BindBuffers(c, dir, bufs);
      assert r.1 == Ok ==> Accounted(r.0) by {
        if r.1 == Ok {
          BoundOwnership(c, dir, bufs, |bufs|);
          forall i | 0 <= i < r.0.nBuffers ensures i in r.0.queue <==> !r.0.outstanding[i] {
            if dir == Output { assert r.0.queue[i] == i; }
          }
        }
      }
      r
  }

  /** use_buffers as written, with clear_buffers as written. */
  function UseBuffersAsWritten(p: Port, dir: Direction, bufs: seq<SpaBuffer>): (r: (Port, SpaResult))
    requires TableShape(p) && |bufs| <= MAX_BUFFERS
    ensures PortValid(p) && (p.nBuffers > 0 || p.queue == []) ==> r == UseBuffersOn(p, dir, bufs)
  {
    if !p.haveFormat then (p, NoFormat)
    else BindBuffers(ClearBuffersAsWritten(p), dir, bufs)
  }

  /**
   * The table entries the use_buffers loop as written stores into: none
   * without a format, otherwise one per buffer up to and including the
   * first unusable one. n_buffers is never compared with the table's 64
   * entries, so an entry past the end is written exactly when more than 64
   * buffers come and the first 64 are usable.
   */
  function StoredSlotsAsWritten(p: Port, bufs: seq<SpaBuffer>): (r: seq<nat>)
    ensures !p.haveFormat ==> r == []
    ensures p.haveFormat ==> |r| == Min(FirstUnmapped(bufs) + 1, |bufs|)
    ensures forall k :: 0 <= k < |r| ==> r[k] == k
    ensures (exists k :: 0 <= k < |r| && r[k] >= MAX_BUFFERS) <==>
      p.haveFormat && |bufs| > MAX_BUFFERS && FirstUnmapped(bufs) >= MAX_BUFFERS
  {
    if !p.haveFormat then []
    else
      var r := Indices(Min(FirstUnmapped(bufs) + 1, |bufs|));
      assert |bufs| > MAX_BUFFERS && FirstUnmapped(bufs) >= MAX_BUFFERS ==> r[MAX_BUFFERS] >= MAX_BUFFERS;
      r
  }

  /** use_buffers as written: 65 usable buffers on a port with a format make it store into entry 64. */
  lemma UseBuffersOverrunAsWritten(b: SpaBuffer)
    requires UsableMemory(b.data)
    ensures var p := FreshPort({CanUseBuffers, NoRef}).(haveFormat := true);
      var bufs := seq(MAX_BUFFERS + 1, _ => b);
      var stored := StoredSlotsAsWritten(p, bufs);
      |stored| == MAX_BUFFERS + 1 && stored[MAX_BUFFERS] == MAX_BUFFERS &&
      |FreshPort({CanUseBuffers, NoRef}).buffers| == MAX_BUFFERS &&
      UseBuffersOn(p, Output, bufs) == (p, InvalidArguments)
  {
  }

  /** recycle_buffer on the output port: only an outstanding buffer goes back to the queue tail. */
  function Recycle(p: Port, id: nat): (r: Port)
    requires PortValid(p)
    ensures PortValid(r) && r.buffers == p.buffers && r.io == p.io && r.nBuffers == p.nBuffers
    ensures id < MAX_BUFFERS && p.outstanding[id] ==>
      r.queue == p.queue + [id] && r.outstanding == p.outstanding[id := false]
    ensures !(id < MAX_BUFFERS && p.outstanding[id]) ==> r == p
    ensures Accounted(p) ==> Accounted(r)
  {
    if id < MAX_BUFFERS && p.outstanding[id] then
      p.(queue := p.queue + [id], outstanding := p.outstanding[id := false])
    else p
  }

  /**
   * recycle_buffer as written: buffers[id] is read with no check of id, so
   * an id of 64 or more (reuse_buffer passes the caller's id straight on)
   * reads past the table; None stands for that read.
   */
  function RecycleAsWritten(p: Port, id: nat): (r: Option<Port>)
    requires PortValid(p)
    ensures r.None? <==> id >= MAX_BUFFERS
    ensures r.Some? ==> r.value == Recycle(p, id)
  {
    if id >= MAX_BUFFERS then None
    else if p.outstanding[id] then Some(p.(queue := p.queue + [id], outstanding := p.outstanding[id := false]))
    else Some(p)
  }

  // ---------------------------------------------------------------------
  // process_input: taking offers from input slots

  /** An active input slot offers a buffer while nothing is queued on the port. */
  predicate Offered(p: Port) {
    Active(p) && p.queuedBytes == 0 && p.io.value.status == HaveBuffer && p.io.value.bufferId != ID_INVALID
  }

  predicate OfferedOutstanding(p: Port)
    requires TableShape(p) && p.io.Some?
  {
    p.io.value.bufferId < MAX_BUFFERS && p.outstanding[p.io.value.bufferId]
  }

  /**
   * The per-port step of process_input: an offer (status HAVE_BUFFER with a
   * valid id) is taken only when the port has nothing queued; an offered
   * buffer that is not outstanding, or whose id is outside the table, is
   * refused with INVALID_BUFFER_ID.
   */
  function TakeOffer(p: Port): (r: Port)
    requires InputValid(p)
    ensures InputValid(r) && r.nBuffers == p.nBuffers && r.buffers == p.buffers
    ensures Accounted(p) ==> Accounted(r)
    ensures !Offered(p) ==> r == p
    ensures Offered(p) && !OfferedOutstanding(p) ==> r == p.(io := Some(p.io.value.(status := InvalidBufferId)))
    ensures Offered(p) && OfferedOutstanding(p) ==>
      var id := p.io.value.bufferId;
      r.queue == p.queue + [id] && r.outstanding == p.outstanding[id := false] &&
      r.io == Some(p.io.value.(bufferId := ID_INVALID, status := Ok)) &&
      r.queuedBytes == p.queuedBytes + p.buffers[id].data.chunk.size
  {
    if !Active(p) then p
    else
      var io := p.io.value;
      if !(p.queuedBytes == 0 && io.status == HaveBuffer && io.bufferId != ID_INVALID) then p
      else if !(io.bufferId < MAX_BUFFERS && p.outstanding[io.bufferId]) then
        p.(io := Some(io.(status := InvalidBufferId)))
      else
        var id := io.bufferId;
        QueuedSizeAppend(p.buffers, p.queue, id);
        p.(outstanding := p.outstanding[id := false],
           io := Some(io.(bufferId := ID_INVALID, status := Ok)),
           queue := p.queue + [id],
           queuedBytes := p.queuedBytes + p.buffers[id].data.chunk.size)
  }

  /**
   * The per-port step as written: the offered id indexes the table with no
   * check, so an id of 64 or more reads past it; None stands for that read.
   */
  function TakeOfferAsWritten(p: Port): (r: Option<Port>)
    requires InputValid(p)
    ensures r.None? <==> Offered(p) && p.io.value.bufferId >= MAX_BUFFERS
    ensures r.Some? ==> r.value == TakeOffer(p)
  {
    if !Offered(p) then Some(p)
    else if p.io.value.bufferId >= MAX_BUFFERS then None
    else Some(TakeOffer(p))
  }

  /**
   * An id outside the 64-entry table, from reuse_buffer or from an input
   * slot, is read past the table as written; the model ignores it on
   * recycling and refuses it as an offer.
   */
  lemma OutOfRangeIdAsWritten(p: Port, q: Port)
    requires PortValid(p) && InputValid(q) && Offered(q) && q.io.value.bufferId >= MAX_BUFFERS
    ensures RecycleAsWritten(p, MAX_BUFFERS).None? && Recycle(p, MAX_BUFFERS) == p
    ensures TakeOfferAsWritten(q).None? && TakeOffer(q) == q.(io := Some(q.io.value.(status := InvalidBufferId)))
  {
  }

  predicate AllInputsValid(ports: seq<Port>) {
    forall i :: 0 <= i < |ports| ==> InputValid(ports[i])
  }

  function TakeOffers(ports: seq<Port>): (r: seq<Port>)
    requires AllInputsValid(ports)
    ensures |r| == |ports| && AllInputsValid(r)
    ensures forall i :: 0 <= i < |ports| ==> r[i] == TakeOffer(ports[i])
  {
    seq(|ports|, i requires 0 <= i < |ports| => TakeOffer(ports[i]))
  }

  /** The smallest positive queued_bytes among the first k active ports (process_input). */
  function MinPositiveQueued(ports: seq<Port>, k: nat): (r: Option<nat>)
    requires k <= |ports|
  {
    if k == 0 then None
    else
      var m := MinPositiveQueued(ports, k - 1);
      var p := ports[k - 1];
      if Active(p) && p.queuedBytes > 0 && (m.None? || p.queuedBytes < m.value) then Some(p.queuedBytes)
      else m
  }

  /** The smallest queued_bytes among the first k active ports, zero included (process_output). */
  function MinActiveQueued(ports: seq<Port>, k: nat): (r: Option<nat>)
    requires k <= |ports|
  {
    if k == 0 then None
    else
      var m := MinActiveQueued(ports, k - 1);
      var p := ports[k - 1];
      if Active(p) && (m.None? || p.queuedBytes < m.value) then Some(p.queuedBytes) else m
  }

  lemma {:induction false} MinPositiveQueuedIsSmallest(ports: seq<Port>, k: nat)
    requires k <= |ports|
    ensures MinPositiveQueued(ports, k).None? <==>
      forall i :: 0 <= i < k && Active(ports[i]) ==> ports[i].queuedBytes == 0
    ensures MinPositiveQueued(ports, k).Some? ==>
      var m := MinPositiveQueued(ports, k).value;
      m > 0 &&
      (exists i :: 0 <= i < k && Active(ports[i]) && ports[i].queuedBytes == m) &&
      (forall i :: 0 <= i < k && Active(ports[i]) && ports[i].queuedBytes > 0 ==> m <= ports[i].queuedBytes)
  {
    if k > 0 {
      MinPositiveQueuedIsSmallest(ports, k - 1);
    }
  }

  lemma {:induction false} MinActiveQueuedIsSmallest(ports: seq<Port>, k: nat)
    requires k <= |ports|
    ensures MinActiveQueued(ports, k).None? <==> forall i :: 0 <= i < k ==> !Active(ports[i])
    ensures MinActiveQueued(ports, k).Some? ==>
      var m := MinActiveQueued(ports, k).value;
      (exists i :: 0 <= i < k && Active(ports[i]) && ports[i].queuedBytes == m) &&
      (forall i :: 0 <= i < k && Active(ports[i]) ==> m <= ports[i].queuedBytes)
  {
    if k > 0 {
      MinActiveQueuedIsSmallest(ports, k - 1);
    }
  }

  /**
   * process_output mixes exactly when there is an active input and every
   * active input has queued bytes; otherwise it asks the empty ones for data.
   */
  lemma OutputMixesIffAllActiveHaveData(ports: seq<Port>)
    ensures (MinActiveQueued(ports, |ports|).Some? && MinActiveQueued(ports, |ports|).value > 0) <==>
      ((exists i :: 0 <= i < |ports| && Active(ports[i])) &&
       forall i :: 0 <= i < |ports| && Active(ports[i]) ==> ports[i].queuedBytes > 0)
  {
    MinActiveQueuedIsSmallest(ports, |ports|);
  }

  // ---------------------------------------------------------------------
  // Mixing

  function Clamp16(x: int): int {
    if x < INT16_MIN then INT16_MIN else if x > INT16_MAX then INT16_MAX else x
  }

  predicate Int16(x: int) { INT16_MIN <= x <= INT16_MAX }

  /**
   * One layer written into the output samples: layer 0 copies the first
   * `count` input samples, later layers add them with int16 saturation.
   */
  function LayerMix(out: seq<int>, input: seq<int>, count: nat, layer: nat): (r: seq<int>)
    requires count <= |input|
    ensures |r| == |out|
    ensures forall k :: count <= k < |out| ==> r[k] == out[k]
    ensures layer == 0 ==> forall k :: 0 <= k < count && k < |out| ==> r[k] == input[k]
    ensures layer > 0 ==> forall k :: 0 <= k < count && k < |out| ==>
              Int16(r[k]) && (Int16(out[k] + input[k]) ==> r[k] == out[k] + input[k])
  {
    seq(|out|, k requires 0 <= k < |out| =>
      if k < count then (if layer == 0 then input[k] else Clamp16(out[k] + input[k])) else out[k])
  }

  /** The int16 samples the port's head buffer offers, and the bookkeeping of add_port_data. */
  datatype Consumption = Consumption(port: Port, outsize: nat, input: seq<int>)

  function InSize(p: Port): nat
    requires InputValid(p) && p.queue != []
  {
    HeadSize(p) - p.queuedOffset
  }

  /**
   * add_port_data without the sample arithmetic: at most `outsize` bytes of
   * the head buffer are consumed; queued_bytes drops by exactly that amount;
   * a fully consumed buffer leaves the queue, becomes outstanding, is handed
   * back through the slot's buffer_id and the offset restarts at 0; a partly
   * consumed buffer stays at the head at its advanced offset.
   */
  function Consume(p: Port, outsize: nat): (c: Consumption)
    requires InputValid(p) && p.queue != [] && p.io.Some?
    ensures InputValid(c.port) && c.port.nBuffers == p.nBuffers && c.port.buffers == p.buffers
    ensures c.outsize == Min(outsize, InSize(p)) && |c.input| == c.outsize / 2
    ensures c.port.queuedBytes == p.queuedBytes - c.outsize
    ensures c.outsize == InSize(p) ==>
      c.port.queue == p.queue[1..] && c.port.outstanding == p.outstanding[p.queue[0] := true] &&
      c.port.io == Some(p.io.value.(bufferId := p.buffers[p.queue[0]].id)) && c.port.queuedOffset == 0
    ensures c.outsize < InSize(p) ==>
      c.port.queue == p.queue && c.port.outstanding == p.outstanding && c.port.io == p.io &&
      c.port.queuedOffset == p.queuedOffset + c.outsize
  {
    var id := p.queue[0];
    var d := p.buffers[id].data;
    var insize := d.chunk.size - p.queuedOffset;
    var n := Min(outsize, insize);
    var input := Window(d.mem, (p.queuedOffset + d.chunk.offset) / 2, n / 2);
    assert p.queuedBytes >= insize by {
      assert QueuedSize(p.buffers, p.queue) == d.chunk.size + QueuedSize(p.buffers, p.queue[1..]);
    }
    var p1 := p.(queuedOffset := p.queuedOffset + n, queuedBytes := p.queuedBytes - n);
    if n == insize then
      assert QueuedSize(p.buffers, p.queue) == d.chunk.size + QueuedSize(p.buffers, p.queue[1..]);
      assert forall k :: 0 <= k < |p.queue| - 1 ==> p.queue[1..][k] == p.queue[k + 1];
      var r := p1.(io := Some(p.io.value.(bufferId := p.buffers[id].id)), queue := p.queue[1..],
                   outstanding := p.outstanding[id := true], queuedOffset := 0);
      Consumption(r, n, input)
    else
      Consumption(p1, n, input)
  }

  /** Consuming from the head buffer keeps the port's byte accounting. */
  lemma ConsumeKeepsAccounted(p: Port, outsize: nat)
    requires InputValid(p) && p.queue != [] && p.io.Some? && Accounted(p)
    ensures Accounted(Consume(p, outsize).port)
  {
    var c := Consume(p, outsize);
    var id := p.queue[0];
    if c.outsize == InSize(p) {
      forall i | 0 <= i < c.port.nBuffers ensures i in c.port.queue <==> !c.port.outstanding[i] {
        if i == id {
          assert i !in c.port.queue;
        } else {
          assert i in p.queue <==> i in c.port.queue;
        }
      }
    }
  }

  /** The state threaded through mix_output's loop over the input ports. */
  datatype MixAcc = MixAcc(ports: seq<Port>, out: seq<int>, layer: nat)

  /** One iteration of mix_output's port loop. */
  function MixStep(a: MixAcc, i: nat, n: nat): (b: MixAcc)
    requires i < |a.ports| && InputValid(a.ports[i])
    ensures |b.ports| == |a.ports| && |b.out| == |a.out| && InputValid(b.ports[i])
    ensures forall j :: 0 <= j < |a.ports| && j != i ==> b.ports[j] == a.ports[j]
    ensures b.ports[i].nBuffers == a.ports[i].nBuffers
  {
    var p := a.ports[i];
    if !Active(p) then a
    else if p.queue == [] then a.(ports := a.ports[i := p.(queuedBytes := 0, queuedOffset := 0)])
    else
      var c := Consume(p, n);
      MixAcc(a.ports[i := c.port], LayerMix(a.out, c.input, c.outsize / 2, a.layer), a.layer + 1)
  }

  /** One iteration of the port loop keeps every port's byte accounting. */
  lemma MixStepKeepsAccounted(a: MixAcc, i: nat, n: nat, m: nat)
    requires i < |a.ports| && InputValid(a.ports[i]) && m < |a.ports| && InputValid(a.ports[m]) && Accounted(a.ports[m])
    ensures Accounted(MixStep(a, i, n).ports[m])
  {
    var p := a.ports[i];
    if m != i {
      assert MixStep(a, i, n).ports[m] == a.ports[m];
    } else if Active(p) && p.queue != [] {
      ConsumeKeepsAccounted(p, n);
    }
  }

  /** The state after mix_output's loop has visited ports 0 .. k-1. */
  function MixUpTo(ports: seq<Port>, out: seq<int>, n: nat, k: nat): (a: MixAcc)
    requires k <= |ports| && AllInputsValid(ports)
    ensures |a.ports| == |ports| && AllInputsValid(a.ports) && |a.out| == |out|
    ensures forall i :: k <= i < |ports| ==> a.ports[i] == ports[i]
    ensures forall i :: 0 <= i < |ports| ==> a.ports[i].nBuffers == ports[i].nBuffers
  {
    if k == 0 then MixAcc(ports, out, 0)
    else MixStep(MixUpTo(ports, out, n, k - 1), k - 1, n)
  }

  /** Mixing keeps input port i's byte accounting. */
  lemma {:induction false} MixKeepsAccountedAt(ports: seq<Port>, out: seq<int>, n: nat, k: nat, i: nat)
    requires k <= |ports| && AllInputsValid(ports) && i < |ports| && Accounted(ports[i])
    ensures Accounted(MixUpTo(ports, out, n, k).ports[i])
  {
    if k == 0 {
      assert MixUpTo(ports, out, n, k).ports == ports;
    } else {
      MixKeepsAccountedAt(ports, out, n, k - 1, i);
      var a := MixUpTo(ports, out, n, k - 1);
      assert MixUpTo(ports, out, n, k) == MixStep(a, k - 1, n);
      MixStepKeepsAccounted(a, k - 1, n, i);
    }
  }

  /** Mixing keeps every input port's byte accounting. */
  lemma MixKeepsAccounted(ports: seq<Port>, out: seq<int>, n: nat, k: nat)
    requires k <= |ports| && AllInputsValid(ports)
    ensures var a := MixUpTo(ports, out, n, k);
      forall i :: 0 <= i < |ports| && Accounted(ports[i]) ==> Accounted(a.ports[i])
  {
    forall i | 0 <= i < |ports| && Accounted(ports[i])
      ensures Accounted(MixUpTo(ports, out, n, k).ports[i])
    {
      MixKeepsAccountedAt(ports, out, n, k, i);
    }
  }

  /** The layers mixed into one output sample, in port order: copy the first, add the rest saturating. */
  function SaturatingSum(xs: seq<int>): int
    requires |xs| > 0
  {
    if |xs| == 1 then xs[0] else Clamp16(SaturatingSum(xs[..|xs| - 1]) + xs[|xs| - 1])
  }

  /** Sample j of every port among the first k that contributes a layer. */
  function Contributions(ports: seq<Port>, n: nat, k: nat, j: nat): seq<int>
    requires k <= |ports| && AllInputsValid(ports)
  {
    if k == 0 then []
    else
      var p := ports[k - 1];
      var rest := Contributions(ports, n, k - 1, j);
      if Active(p) && p.queue != [] then rest + [At(Consume(p, n).input, j)] else rest
  }

  /**
   * When every contributing port has at least n bytes left in its head buffer,
   * output sample j (j < n/2) is the saturating sum of the ports' samples j,
   * and the output is untouched when no port contributes.
   */
  /** Sample j after one port's step: a contributing port adds its sample j as a new layer. */
  lemma MixStepSample(a: MixAcc, i: nat, n: nat, j: nat)
    requires i < |a.ports| && InputValid(a.ports[i]) && j < n / 2 && j < |a.out|
    ensures Active(a.ports[i]) && a.ports[i].queue != [] && InSize(a.ports[i]) >= n ==>
      var b := MixStep(a, i, n);
      var x := At(Consume(a.ports[i], n).input, j);
      b.layer == a.layer + 1 && b.out[j] == (if a.layer == 0 then x else Clamp16(a.out[j] + x))
    ensures !(Active(a.ports[i]) && a.ports[i].queue != []) ==>
      var b := MixStep(a, i, n);
      b.layer == a.layer && b.out == a.out
  {
    var p := a.ports[i];
    if Active(p) && p.queue != [] && InSize(p) >= n {
      var c := Consume(p, n);
      assert c.outsize == n && j < c.outsize / 2;
    }
  }

  lemma SaturatingSumSnoc(cs: seq<int>, x: int)
    ensures SaturatingSum(cs + [x]) == if cs == [] then x else Clamp16(SaturatingSum(cs) + x)
  {
    assert (cs + [x])[..|cs + [x]| - 1] == cs;
  }

  lemma {:induction false} MixedSampleIsSaturatingSum(ports: seq<Port>, out: seq<int>, n: nat, k: nat, j: nat)
    requires k <= |ports| && AllInputsValid(ports)
    requires forall i :: 0 <= i < k && Active(ports[i]) && ports[i].queue != [] ==> InSize(ports[i]) >= n
    requires j < n / 2 && j < |out|
    ensures var cs := Contributions(ports, n, k, j);
      MixUpTo(ports, out, n, k).layer == |cs| &&
      MixUpTo(ports, out, n, k).out[j] == (if cs == [] then out[j] else SaturatingSum(cs))
    decreases k, 1
  {
    if k == 0 {
      assert MixUpTo(ports, out, n, k) == MixAcc(ports, out, 0);
      assert Contributions(ports, n, k, j) == [];
    } else {
      MixedSampleStep(ports, out, n, k, j);
    }
  }

  /** The step of MixedSampleIsSaturatingSum: port k - 1 adds its sample as one more layer, or nothing. */
  lemma MixedSampleStep(ports: seq<Port>, out: seq<int>, n: nat, k: nat, j: nat)
    requires 0 < k <= |ports| && AllInputsValid(ports)
    requires forall i :: 0 <= i < k && Active(ports[i]) && ports[i].queue != [] ==> InSize(ports[i]) >= n
    requires j < n / 2 && j < |out|
    ensures var cs := Contributions(ports, n, k, j);
      MixUpTo(ports, out, n, k).layer == |cs| &&
      MixUpTo(ports, out, n, k).out[j] == (if cs == [] then out[j] else SaturatingSum(cs))
    decreases k, 0
  {
    MixedSampleIsSaturatingSum(ports, out, n, k - 1, j);
    var a := MixUpTo(ports, out, n, k - 1);
    var cs := Contributions(ports, n, k - 1, j);
    assert a.ports[k - 1] == ports[k - 1];
    var p := ports[k - 1];
    assert MixUpTo(ports, out, n, k) == MixStep(a, k - 1, n);
    if Active(p) && p.queue != [] {
      var x := At(Consume(p, n).input, j);
      assert Contributions(ports, n, k, j) == cs + [x];
      LayerStep(a, k - 1, n, j, cs, out[j]);
    } else {
      assert Contributions(ports, n, k, j) == cs;
      MixStepSample(a, k - 1, n, j);
    }
  }

  /** A port that contributes adds its sample to the saturating sum of the layers before it. */
  lemma LayerStep(a: MixAcc, i: nat, n: nat, j: nat, cs: seq<int>, first: int)
    requires i < |a.ports| && InputValid(a.ports[i]) && j < n / 2 && j < |a.out|
    requires Active(a.ports[i]) && a.ports[i].queue != [] && InSize(a.ports[i]) >= n
    requires a.layer == |cs| && a.out[j] == (if cs == [] then first else SaturatingSum(cs))
    ensures var b := MixStep(a, i, n); var x := At(Consume(a.ports[i], n).input, j);
      b.layer == |cs + [x]| && b.out[j] == SaturatingSum(cs + [x])
  {
    MixStepSample(a, i, n, j);
    SaturatingSumSnoc(cs, At(Consume(a.ports[i], n).input, j));
  }

  /** Every mixed sample stays in int16 range when the inputs do. */
  lemma {:induction false} SaturatingSumInRange(xs: seq<int>)
    requires |xs| > 0 && Int16(xs[0])
    ensures Int16(SaturatingSum(xs))
  {
    if |xs| > 1 {
      SaturatingSumInRange(xs[..|xs| - 1]);
    }
  }

  /**
   * With saturation after every addition, a layer that pushes the mix past
   * the int16 limit loses its excess: a sample a, a layer b taking it over
   * the top and a layer -b give INT16_MAX - b, where clamping the exact sum
   * would give back a, and mixing -b before b would too.
   */
  lemma SaturationIsPerLayer(a: int, b: int)
    requires Int16(a) && Int16(b) && b > 0 && a + b > INT16_MAX
    ensures SaturatingSum([a, b, -b]) == INT16_MAX - b < a
    ensures Clamp16(a + b - b) == a && SaturatingSum([a, -b, b]) == a
  {
    assert [a, b, -b][..2] == [a, b] && [a, b][..1] == [a];
    assert SaturatingSum([a, b]) == INT16_MAX;
    assert SaturatingSum([a, b, -b]) == Clamp16(INT16_MAX - b);
    assert [a, -b, b][..2] == [a, -b] && [a, -b][..1] == [a];
    assert SaturatingSum([a, -b]) == a - b;
    assert SaturatingSum([a, -b, b]) == Clamp16(a - b + b);
  }

  /** Taking the head of a queue and flagging it outstanding keeps the ownership rules. */
  lemma DequeueHeadKeepsOwnership(p: Port, r: Port)
    requires PortValid(p) && p.queue != []
    requires r == p.(queue := p.queue[1..], outstanding := p.outstanding[p.queue[0] := true])
    ensures PortValid(r)
    ensures Accounted(p) ==> Accounted(r)
  {
    var id := p.queue[0];
    assert forall k :: 0 <= k < |r.queue| ==> r.queue[k] == p.queue[k + 1];
    if Accounted(p) {
      forall i | 0 <= i < r.nBuffers ensures i in r.queue <==> !r.outstanding[i] {
        if i == id {
          assert i !in r.queue;
        } else {
          assert i in p.queue <==> i in r.queue;
        }
      }
    }
  }

  datatype MixResult = MixResult(ins: seq<Port>, out: Port, status: SpaResult)

  /**
   * mix_output: an empty output queue gives OUT_OF_BUFFERS and changes
   * nothing; otherwise the head output buffer leaves the queue and becomes
   * outstanding, its chunk covers min(n, maxsize) bytes, every active input
   * is mixed into it (or has its counters zeroed on underrun), and it is
   * published in the output slot with HAVE_BUFFER.
   */
  function MixOutputSpec(ins: seq<Port>, out: Port, n: nat): (r: MixResult)
    requires AllInputsValid(ins) && PortValid(out) && out.io.Some?
    ensures |r.ins| == |ins| && AllInputsValid(r.ins) && PortValid(r.out) && r.out.io.Some?
    ensures forall i :: 0 <= i < |ins| && Accounted(ins[i]) ==> Accounted(r.ins[i])
    ensures Accounted(out) ==> Accounted(r.out)
    ensures out.queue == [] ==> r == MixResult(ins, out, OutOfBuffers)
    ensures out.queue != [] ==>
      var id := out.queue[0];
      r.status == HaveBuffer && r.out.queue == out.queue[1..] && r.out.outstanding[id] &&
      r.out.io == Some(out.io.value.(bufferId := out.buffers[id].id, status := HaveBuffer)) &&
      r.out.buffers[id].data.chunk == Chunk(0, Min(n, out.buffers[id].data.maxsize), 0)
    ensures out.queue != [] ==>
      var od := out.buffers[out.queue[0]].data;
      var a := MixUpTo(ins, od.mem, Min(n, od.maxsize), |ins|);
      r.ins == a.ports && r.out.buffers[out.queue[0]].data.mem == a.out
  {
    if out.queue == [] then MixResult(ins, out, OutOfBuffers)
    else
      var id := out.queue[0];
      var od := out.buffers[id].data;
      var nb := Min(n, od.maxsize);
      var a := MixUpTo(ins, od.mem, nb, |ins|);
      MixKeepsAccounted(ins, od.mem, nb, |ins|);
      var o1 := out.(queue := out.queue[1..], outstanding := out.outstanding[id := true]);
      DequeueHeadKeepsOwnership(out, o1);
      var ob := out.buffers[id].(data := od.(chunk := Chunk(0, nb, 0), mem := a.out));
      var o := o1.(buffers := o1.buffers[id := ob],
                   io := Some(out.io.value.(bufferId := out.buffers[id].id, status := HaveBuffer)));
      MixResult(a.ports, o, HaveBuffer)
  }

  /** process_output without enough data: empty active inputs are asked for the output's range. */
  function RequestInput(p: Port, range: Range): (r: Port)
    requires InputValid(p)
    ensures InputValid(r) && (Accounted(p) ==> Accounted(r))
  {
    if !Active(p) then p
    else if p.queuedBytes == 0 then p.(io := Some(p.io.value.(range := range, status := NeedBuffer)))
    else p.(io := Some(p.io.value.(status := Ok)))
  }

  function RequestInputs(ports: seq<Port>, range: Range): (r: seq<Port>)
    requires AllInputsValid(ports)
    ensures |r| == |ports| && AllInputsValid(r)
    ensures forall i :: 0 <= i < |ports| ==> r[i] == RequestInput(ports[i], range)
  {
    seq(|ports|, i requires 0 <= i < |ports| => RequestInput(ports[i], range))
  }

  /**
   * Every sample mix_output writes is the saturating sum, in port order, of
   * the samples the active inputs contribute at that position, when each
   * contributing input holds at least the mixed length.
   */
  lemma MixOutputSamples(ins: seq<Port>, out: Port, n: nat, j: nat)
    requires AllInputsValid(ins) && PortValid(out) && out.io.Some? && out.queue != []
    requires var nb := Min(n, out.buffers[out.queue[0]].data.maxsize);
      forall i :: 0 <= i < |ins| && Active(ins[i]) && ins[i].queue != [] ==> InSize(ins[i]) >= nb
    requires var od := out.buffers[out.queue[0]].data; j < Min(n, od.maxsize) / 2 && j < |od.mem|
    ensures var od := out.buffers[out.queue[0]].data;
      var cs := Contributions(ins, Min(n, od.maxsize), |ins|, j);
      MixOutputSpec(ins, out, n).out.buffers[out.queue[0]].data.mem[j] == (if cs == [] then od.mem[j] else SaturatingSum(cs))
  {
    var od := out.buffers[out.queue[0]].data;
    MixedSampleIsSaturatingSum(ins, od.mem, Min(n, od.maxsize), |ins|, j);
  }

  /**
   * impl_node_process_input as a function of the ports before the call:
   * without an output slot it fails with ERROR and a slot still holding
   * HAVE_BUFFER is answered at once, both with nothing changed; otherwise
   * every input takes its offer, and when no active input then has data
   * queued the output slot and the result become NEED_BUFFER.
   */
  function ProcessInputSpec(ins: seq<Port>, out: Port): (r: MixResult)
    requires AllInputsValid(ins) && PortValid(out)
    ensures |r.ins| == |ins| && AllInputsValid(r.ins) && PortValid(r.out)
    ensures out.io.None? ==> r == MixResult(ins, out, Error)
    ensures out.io.Some? && out.io.value.status == HaveBuffer ==> r == MixResult(ins, out, HaveBuffer)
    ensures out.io.Some? && out.io.value.status != HaveBuffer &&
            (forall i :: 0 <= i < |ins| && Active(TakeOffer(ins[i])) ==> TakeOffer(ins[i]).queuedBytes == 0) ==>
      r == MixResult(TakeOffers(ins), out.(io := Some(out.io.value.(status := NeedBuffer))), NeedBuffer)
  {
    if out.io.None? then MixResult(ins, out, Error)
    else if out.io.value.status == HaveBuffer then MixResult(ins, out, HaveBuffer)
    else
      var taken := TakeOffers(ins);
      var m := MinPositiveQueued(taken, |taken|);
      MinPositiveQueuedIsSmallest(taken, |taken|);
      if m.Some? && m.value > 0 then
        var x := MixOutputSpec(taken, out, m.value);
        MixResult(x.ins, x.out.(io := Some(x.out.io.value.(status := x.status))), x.status)
      else
        MixResult(taken, out.(io := Some(out.io.value.(status := NeedBuffer))), NeedBuffer)
  }

  /**
   * The output port of process_output once the slot's previous buffer is
   * recycled: an outstanding buffer named by the slot goes back to the end
   * of the queue, and the slot is left naming no buffer.
   */
  function RecycleSlot(out: Port): (r: Port)
    requires PortValid(out) && out.io.Some?
    ensures PortValid(r) && r.io.Some? && (Accounted(out) ==> Accounted(r))
    ensures r.io == Some(out.io.value.(bufferId := ID_INVALID))
    ensures r.buffers == out.buffers && r.nBuffers == out.nBuffers
    ensures var id := out.io.value.bufferId;
      if id < MAX_BUFFERS && out.outstanding[id]
      then r.queue == out.queue + [id] && r.outstanding == out.outstanding[id := false]
      else r.queue == out.queue && r.outstanding == out.outstanding
  {
    var io := out.io.value;
    if io.bufferId != ID_INVALID then Recycle(out, io.bufferId).(io := Some(io.(bufferId := ID_INVALID)))
    else out
  }

  /**
   * impl_node_process_output as a function of the ports before the call:
   * without an output slot it fails with ERROR and a slot still holding
   * HAVE_BUFFER is answered at once, both with nothing changed; otherwise
   * the slot's buffer is recycled and the inputs are mixed or asked for
   * data (ProcessOutputBackpressure).
   */
  function ProcessOutputSpec(ins: seq<Port>, out: Port): (r: MixResult)
    requires AllInputsValid(ins) && PortValid(out)
    ensures |r.ins| == |ins| && AllInputsValid(r.ins) && PortValid(r.out)
    ensures out.io.None? ==> r == MixResult(ins, out, Error)
    ensures out.io.Some? && out.io.value.status == HaveBuffer ==> r == MixResult(ins, out, HaveBuffer)
  {
    if out.io.None? then MixResult(ins, out, Error)
    else if out.io.value.status == HaveBuffer then MixResult(ins, out, HaveBuffer)
    else
      var o := RecycleSlot(out);
      var m := MinActiveQueued(ins, |ins|);
      if m.Some? && m.value > 0 then
        var x := MixOutputSpec(ins, o, m.value);
        MixResult(x.ins, x.out.(io := Some(x.out.io.value.(status := x.status))), x.status)
      else
        MixResult(RequestInputs(ins, o.io.value.range), o, o.io.value.status)
  }

  /**
   * process_input mixes exactly the smallest positive amount queued after
   * taking offers, capped by the output buffer's maxsize.
   */
  lemma ProcessInputOutputLength(ins: seq<Port>, out: Port)
    requires AllInputsValid(ins) && PortValid(out) && out.io.Some? && out.io.value.status != HaveBuffer
    requires out.queue != []
    requires exists i :: 0 <= i < |ins| && Active(TakeOffer(ins[i])) && TakeOffer(ins[i]).queuedBytes > 0
    ensures var r := ProcessInputSpec(ins, out);
      var id := out.queue[0];
      var size := r.out.buffers[id].data.chunk.size;
      r.status == HaveBuffer && r.out.io.value == out.io.value.(bufferId := out.buffers[id].id, status := HaveBuffer) &&
      size <= out.buffers[id].data.maxsize &&
      (forall i :: 0 <= i < |ins| && Active(TakeOffer(ins[i])) && TakeOffer(ins[i]).queuedBytes > 0 ==>
         size <= TakeOffer(ins[i]).queuedBytes) &&
      (size == out.buffers[id].data.maxsize ||
       exists i :: 0 <= i < |ins| && Active(TakeOffer(ins[i])) && TakeOffer(ins[i]).queuedBytes == size)
  {
    var taken := TakeOffers(ins);
    MinPositiveQueuedIsSmallest(taken, |taken|);
  }

  /**
   * process_output when every active input has data queued and the output
   * queue is not empty once the slot's buffer is recycled: the head buffer
   * leaves the queue, becomes outstanding and is published in the slot with
   * HAVE_BUFFER, and its chunk covers the smallest amount queued on an
   * active input, capped by the buffer's maxsize.
   */
  lemma ProcessOutputMixes(ins: seq<Port>, out: Port)
    requires AllInputsValid(ins) && PortValid(out) && out.io.Some? && out.io.value.status != HaveBuffer
    requires RecycleSlot(out).queue != []
    requires exists i :: 0 <= i < |ins| && Active(ins[i])
    requires forall i :: 0 <= i < |ins| && Active(ins[i]) ==> ins[i].queuedBytes > 0
    ensures var r := ProcessOutputSpec(ins, out);
      var o := RecycleSlot(out);
      var id := o.queue[0];
      r.status == HaveBuffer && r.out.queue == o.queue[1..] && r.out.outstanding[id] &&
      r.out.io == Some(out.io.value.(bufferId := out.buffers[id].id, status := HaveBuffer)) &&
      exists j :: 0 <= j < |ins| && Active(ins[j]) &&
        (forall i :: 0 <= i < |ins| && Active(ins[i]) ==> ins[j].queuedBytes <= ins[i].queuedBytes) &&
        r.out.buffers[id].data.chunk == Chunk(0, Min(ins[j].queuedBytes, out.buffers[id].data.maxsize), 0)
  {
    MinActiveQueuedIsSmallest(ins, |ins|);
  }

  /**
   * process_output when every active input has data queued but no output
   * buffer is free even after recycling the slot's: the inputs are left as
   * they were and the slot and the call report OUT_OF_BUFFERS.
   */
  lemma ProcessOutputOutOfBuffers(ins: seq<Port>, out: Port)
    requires AllInputsValid(ins) && PortValid(out) && out.io.Some? && out.io.value.status != HaveBuffer
    requires RecycleSlot(out).queue == []
    requires exists i :: 0 <= i < |ins| && Active(ins[i])
    requires forall i :: 0 <= i < |ins| && Active(ins[i]) ==> ins[i].queuedBytes > 0
    ensures var r := ProcessOutputSpec(ins, out);
      r.status == OutOfBuffers && r.ins == ins &&
      r.out == RecycleSlot(out).(io := Some(out.io.value.(bufferId := ID_INVALID, status := OutOfBuffers)))
  {
    MinActiveQueuedIsSmallest(ins, |ins|);
  }

  /**
   * process_output when some active input has nothing queued: no output
   * buffer is dequeued, each empty active input is asked for the output's
   * range with NEED_BUFFER, each other active input gets OK, and the call
   * returns the output slot's status.
   */
  lemma ProcessOutputBackpressure(ins: seq<Port>, out: Port, j: nat)
    requires AllInputsValid(ins) && PortValid(out) && out.io.Some? && out.io.value.status != HaveBuffer
    requires j < |ins| && Active(ins[j]) && ins[j].queuedBytes == 0
    ensures var r := ProcessOutputSpec(ins, out);
      r.out == RecycleSlot(out) && r.status == out.io.value.status &&
      forall i :: 0 <= i < |ins| && Active(ins[i]) ==>
        r.ins[i].io.Some? &&
        (ins[i].queuedBytes == 0 ==>
           r.ins[i].io.value.status == NeedBuffer && r.ins[i].io.value.range == out.io.value.range) &&
        (ins[i].queuedBytes > 0 ==> r.ins[i].io.value.status == Ok)
  {
    MinActiveQueuedIsSmallest(ins, |ins|);
  }

  /** use_buffers as written: after a half-failed use_buffers, the next one queues buffer 0 twice. */
  lemma UseBuffersAsWrittenQueuesTwice()
    ensures var good := SpaBuffer(0, SpaData(MemPtr, true, 4, Chunk(0, 0, 0), [0, 0]), None);
      var bad := SpaBuffer(1, SpaData(MemPtr, false, 4, Chunk(0, 0, 0), []), None);
      var p0 := FreshPort({CanUseBuffers, NoRef}).(haveFormat := true);
      var r1 := UseBuffersAsWritten(p0, Output, [good, bad]);
      var r2 := UseBuffersAsWritten(r1.0, Output, [good]);
      r1.1 == Error && r1.0.nBuffers == 0 && r1.0.queue == [0] &&
      r2.1 == Ok && r2.0.queue == [0, 0] && !NoDup(r2.0.queue)
  {
    var good := SpaBuffer(0, SpaData(MemPtr, true, 4, Chunk(0, 0, 0), [0, 0]), None);
    var bad := SpaBuffer(1, SpaData(MemPtr, false, 4, Chunk(0, 0, 0), []), None);
    var p0 := FreshPort({CanUseBuffers, NoRef}).(haveFormat := true);
    assert FirstUnmapped([good, bad]) == 1 by {
      assert [good, bad][1..] == [bad];
    }
    assert FirstUnmapped([good]) == 1 by {
      assert [good][1..] == [];
    }
    assert Indices(1) == [0];
    assert ClearBuffersAsWritten(p0) == p0;
    var r1 := UseBuffersAsWritten(p0, Output, [good, bad]);
    assert r1.0.queue == [0] && r1.0.nBuffers == 0;
    assert ClearBuffersAsWritten(r1.0) == r1.0;
    assert r1.1 == Error;
    var r2 := UseBuffersAsWritten(r1.0, Output, [good]);
    assert r2.1 == Ok;
    assert r2.0.queue == [0] + [0];
    assert r2.0.queue[0] == r2.0.queue[1];
  }

  /** CHECK_PORT_NUM: input ports 0..127 and output port 0 exist. */
  predicate PortNumber(dir: Direction, id: nat) {
    (dir == Input && id < MAX_PORTS) || (dir == Output && id == 0)
  }

  function PortOf(ins: seq<Port>, out: Port, dir: Direction, id: nat): Port
    requires dir == Input ==> id < |ins|
  {
    if dir == Input then ins[id] else out
  }

  function WithPort(ins: seq<Port>, out: Port, dir: Direction, id: nat, p: Port): (seq<Port>, Port)
    requires dir == Input ==> id < |ins|
  {
    if dir == Input then (ins[id := p], out) else (ins, p)
  }

  /** The mixer node (struct impl): its ports, counters, negotiated format and run state. */
  class Mixer {
    var inPorts: seq<Port>
    var outPort: Port
    var portCount: int
    var portQueued: int
    var format: RawInfo
    var started: bool

    ghost predicate Valid()
      reads this
    {
      |inPorts| == MAX_PORTS && AllInputsValid(inPorts) && PortValid(outPort)
    }

    /** impl_init: every port unused; the output port can use buffers and takes no references. */
    constructor ()
      ensures Valid() && !started && portCount == 0 && portQueued == 0
      ensures forall i :: 0 <= i < MAX_PORTS ==> inPorts[i] == FreshPort({})
      ensures outPort == FreshPort({CanUseBuffers, NoRef})
    {
      var unused := FreshPort({});
      var ports := seq(MAX_PORTS, _ => unused);
      inPorts := ports;
      outPort := FreshPort({CanUseBuffers, NoRef});
      portCount := 0;
      portQueued := 0;
      format := RawInfo(0, 0, 0);
      started := false;
    }

    /** CHECK_FREE_IN_PORT */
    predicate IsFreeInPort(dir: Direction, id: nat)
      reads this
    {
      dir == Input && id < MAX_PORTS && id < |inPorts| && inPorts[id].io.None?
    }

    /** CHECK_IN_PORT */
    predicate IsInPort(dir: Direction, id: nat)
      reads this
    {
      dir == Input && id < MAX_PORTS && id < |inPorts| && inPorts[id].io.Some?
    }

    /** CHECK_PORT */
    predicate IsPort(dir: Direction, id: nat)
      reads this
    {
      (dir == Output && id == 0) || IsInPort(dir, id)
    }

    method SendCommand(cmd: Command) returns (r: SpaResult)
      modifies this`started
      ensures cmd == Start ==> r == Ok && started
      ensures cmd == Pause ==> r == Ok && !started
      ensures cmd == OtherCommand ==> r == NotImplemented && started == old(started)
    {
      match cmd
      case Start =>
        started := true;
        r := Ok;
      case Pause =>
        started := false;
        r := Ok;
      case OtherCommand =>
        r := NotImplemented;
    }

    method AddPort(dir: Direction, id: nat) returns (r: SpaResult)
      requires Valid()
      modifies this`inPorts, this`portCount
      ensures Valid()
      ensures !old(IsFreeInPort(dir, id)) ==>
        r == InvalidPort && inPorts == old(inPorts) && portCount == old(portCount)
      ensures old(IsFreeInPort(dir, id)) ==>
        r == Ok && portCount == old(portCount) + 1 &&
        inPorts == old(inPorts)[id := old(inPorts[id]).(queue := [], flags := {CanUseBuffers, Removable, Optional, InPlace})]
    {
      if !IsFreeInPort(dir, id) {
        return InvalidPort;
      }
      portCount := portCount + 1;
      inPorts := inPorts[id := inPorts[id].(queue := [], flags := {CanUseBuffers, Removable, Optional, InPlace})];
      r := Ok;
    }

    method RemovePort(dir: Direction, id: nat) returns (r: SpaResult)
      requires Valid()
      modifies this`inPorts, this`portCount, this`portQueued
      ensures Valid()
      ensures !old(IsInPort(dir, id)) ==>
        r == InvalidPort && inPorts == old(inPorts) && portCount == old(portCount) && portQueued == old(portQueued)
      ensures old(IsInPort(dir, id)) ==>
        r == Ok && inPorts == old(inPorts)[id := old(inPorts[id]).(io := None)] &&
        portCount == old(portCount) - 1 &&
        portQueued == old(portQueued) - (if old(inPorts[id].io.value.bufferId) != 0 then 1 else 0)
    {
      if !IsInPort(dir, id) {
        return InvalidPort;
      }
      if inPorts[id].io.value.bufferId != 0 {
        portQueued := portQueued - 1;
      }
      inPorts := inPorts[id := inPorts[id].(io := None)];
      portCount := portCount - 1;
      r := Ok;
    }

    /** impl_node_port_set_io: binds (or unbinds) the slot shared with the peer. */
    method SetIo(dir: Direction, id: nat, io: Option<PortIo>) returns (r: SpaResult)
      requires Valid()
      modifies this`inPorts, this`outPort
      ensures Valid()
      ensures !PortNumber(dir, id) ==> r == InvalidPort && inPorts == old(inPorts) && outPort == old(outPort)
      ensures PortNumber(dir, id) ==>
        r == Ok && (inPorts, outPort) == WithPort(old(inPorts), old(outPort), dir, id, PortOf(old(inPorts), old(outPort), dir, id).(io := io))
    {
      if !PortNumber(dir, id) {
        return InvalidPort;
      }
      var p := PortOf(inPorts, outPort, dir, id);
      StorePort(dir, id, p.(io := io));
      r := Ok;
    }

    method StorePort(dir: Direction, id: nat, p: Port)
      requires dir == Input ==> id < |inPorts|
      modifies this`inPorts, this`outPort
      ensures (inPorts, outPort) == WithPort(old(inPorts), old(outPort), dir, id, p)
    {
      if dir == Input {
        inPorts := inPorts[id := p];
      } else {
        outPort := p;
      }
    }

    /**
     * port_set_format: NULL drops the format and clears the buffers; anything
     * but parsable audio/raw is INVALID_MEDIA_TYPE and changes nothing; an
     * accepted format becomes the node's format.
     */
    method SetFormat(dir: Direction, id: nat, fmt: Option<Format>) returns (r: SpaResult)
      requires Valid()
      modifies this`inPorts, this`outPort, this`format
      ensures Valid()
      ensures !old(IsPort(dir, id)) ==>
        r == InvalidPort && inPorts == old(inPorts) && outPort == old(outPort) && format == old(format)
      ensures old(IsPort(dir, id)) && fmt.None? ==>
        r == Ok && format == old(format) &&
        (inPorts, outPort) == WithPort(old(inPorts), old(outPort), dir, id,
                                      ClearBuffers(PortOf(old(inPorts), old(outPort), dir, id)).(haveFormat := false))
      ensures old(IsPort(dir, id)) && fmt.Some? && !(fmt.value.mediaType == Audio && fmt.value.mediaSubtype == Raw && fmt.value.raw.Some?) ==>
        r == InvalidMediaType && inPorts == old(inPorts) && outPort == old(outPort) && format == old(format)
      ensures old(IsPort(dir, id)) && fmt.Some? && fmt.value.mediaType == Audio && fmt.value.mediaSubtype == Raw && fmt.value.raw.Some? ==>
        r == Ok && format == fmt.value.raw.value &&
        (inPorts, outPort) == WithPort(old(inPorts), old(outPort), dir, id,
                                      PortOf(old(inPorts), old(outPort), dir, id).(haveFormat := true))
    {
      if !IsPort(dir, id) {
        return InvalidPort;
      }
      var p := PortOf(inPorts, outPort, dir, id);
      if fmt.None? {
        p := p.(haveFormat := false);
        p := ClearBuffers(p);
        StorePort(dir, id, p);
      } else {
        var f := fmt.value;
        if f.mediaType != Audio || f.mediaSubtype != Raw {
          return InvalidMediaType;
        }
        if f.raw.None? {
          return InvalidMediaType;
        }
        format := f.raw.value;
        StorePort(dir, id, p.(haveFormat := true));
      }
      r := Ok;
    }

    /** port_get_format: the node's format, for a port that has one. */
    method GetFormat(dir: Direction, id: nat) returns (r: SpaResult, info: Option<RawInfo>)
      requires Valid()
      ensures !IsPort(dir, id) ==> r == InvalidPort && info.None?
      ensures IsPort(dir, id) && !PortOf(inPorts, outPort, dir, id).haveFormat ==> r == NoFormat && info.None?
      ensures IsPort(dir, id) && PortOf(inPorts, outPort, dir, id).haveFormat ==> r == Ok && info == Some(format)
    {
      if !IsPort(dir, id) {
        return InvalidPort, None;
      }
      if !PortOf(inPorts, outPort, dir, id).haveFormat {
        return NoFormat, None;
      }
      r, info := Ok, Some(format);
    }

    /**
     * The binding loop of use_buffers on a cleared port: entries are written
     * in order until one has no usable memory (an error, with that entry
     * already written); on success n_buffers is set.
     */
    static method BindTable(c: Port, dir: Direction, bufs: seq<SpaBuffer>) returns (p: Port, r: SpaResult)
      requires TableShape(c) && |bufs| <= MAX_BUFFERS
      ensures (p, r) == BindBuffers(c, dir, bufs)
    {
      p := c;
      var i := 0;
      while i < |bufs|
        invariant 0 <= i <= |bufs|
        invariant p == Bound(c, dir, bufs, i)
        invariant forall k :: 0 <= k < i ==> UsableMemory(bufs[k].data)
      {
        p := p.(buffers := p.buffers[i := bufs[i]], outstanding := p.outstanding[i := dir == Input]);
        if !UsableMemory(bufs[i].data) {
          assert FirstUnmapped(bufs) == i;
          return p, Error;
        }
        if dir == Output {
          p := p.(queue := p.queue + [i]);
        }
        BoundStep(c, dir, bufs, i);
        i := i + 1;
      }
      p := p.(nBuffers := |bufs|);
      r := Ok;
    }

    method UseBuffers(dir: Direction, id: nat, bufs: seq<SpaBuffer>) returns (r: SpaResult)
      requires Valid()
      modifies this`inPorts, this`outPort
      ensures Valid()
      ensures !old(IsPort(dir, id)) ==> r == InvalidPort && inPorts == old(inPorts) && outPort == old(outPort)
      ensures old(IsPort(dir, id)) ==>
        var u := UseBuffersOn(PortOf(old(inPorts), old(outPort), dir, id), dir, bufs);
        r == u.1 && (inPorts, outPort) == WithPort(old(inPorts), old(outPort), dir, id, u.0)
    {
      if !IsPort(dir, id) {
        return InvalidPort;
      }
      var p := PortOf(inPorts, outPort, dir, id);
      ghost var u := UseBuffersOn(p, dir, bufs);
      if !p.haveFormat {
        assert dir == Input ==> inPorts[id := p] == inPorts;
        return NoFormat;
      }
      if |bufs| > MAX_BUFFERS {
        assert dir == Input ==> inPorts[id := p] == inPorts;
        return InvalidArguments;
      }
      p, r := BindTable(ClearBuffers(p), dir, bufs);
      assert (p, r) == u;
      StorePort(dir, id, p);
    }

    /** impl_node_port_reuse_buffer: recycles into the output queue, yet reports NOT_IMPLEMENTED. */
    method ReuseBuffer(portId: nat, bufferId: nat) returns (r: SpaResult)
      requires Valid()
      modifies this`outPort
      ensures Valid()
      ensures portId != 0 ==> r == InvalidPort && outPort == old(outPort)
      ensures portId == 0 ==> r == NotImplemented && outPort == Recycle(old(outPort), bufferId)
    {
      if portId != 0 {
        return InvalidPort;
      }
      outPort := Recycle(outPort, bufferId);
      r := NotImplemented;
    }

    /**
     * add_port_data: mixes the head buffer of input port i into the output
     * samples as the given layer and does the port's bookkeeping.
     */
    method AddPortData(i: nat, out: seq<int>, outsize: nat, layer: nat) returns (mixed: seq<int>)
      requires Valid() && i < MAX_PORTS && inPorts[i].queue != [] && inPorts[i].io.Some?
      modifies this`inPorts
      ensures Valid()
      ensures var c := Consume(old(inPorts[i]), outsize);
        inPorts == old(inPorts)[i := c.port] && mixed == LayerMix(out, c.input, c.outsize / 2, layer)
    {
      var p, n, input := ConsumeHead(inPorts[i], outsize);
      mixed := MixLayer(out, input, n / 2, layer);
      inPorts := inPorts[i := p];
    }

    /** The samples of the head buffer add_port_data reads, and its bookkeeping of the port. */
    static method ConsumeHead(p: Port, outsize: nat) returns (q: Port, n: nat, input: seq<int>)
      requires InputValid(p) && p.queue != [] && p.io.Some?
      ensures Consumption(q, n, input) == Consume(p, outsize)
    {
      var b := p.queue[0];
      var d := p.buffers[b].data;
      var insize: nat := d.chunk.size - p.queuedOffset;
      n := Min(outsize, insize);
      input := Window(d.mem, (p.queuedOffset + d.chunk.offset) / 2, n / 2);
      q := p.(queuedOffset := p.queuedOffset + n, queuedBytes := p.queuedBytes - n);
      if n == insize {
        q := q.(io := Some(p.io.value.(bufferId := p.buffers[b].id)), queue := p.queue[1..],
                outstanding := p.outstanding[b := true], queuedOffset := 0);
      }
    }

    /** The sample loop of add_port_data: layer 0 copies `count` samples, later layers add them with clamping. */
    static method MixLayer(out: seq<int>, input: seq<int>, count: nat, layer: nat) returns (mixed: seq<int>)
      requires count <= |input|
      ensures mixed == LayerMix(out, input, count, layer)
    {
      if layer == 0 {
        mixed := if count <= |out| then input[..count] + out[count..] else input[..|out|];
      } else {
        mixed := out;
        var k := 0;
        while k < count && k < |out|
          invariant 0 <= k <= count && k <= |out| && |mixed| == |out|
          invariant forall m :: 0 <= m < k ==> mixed[m] == Clamp16(out[m] + input[m])
          invariant forall m :: k <= m < |out| ==> mixed[m] == out[m]
        {
          mixed := mixed[k := Clamp16(mixed[k] + input[k])];
          k := k + 1;
        }
      }
    }

    /** The port loop of mix_output: every active input mixed into `out` in port order. */
    method MixInputs(out: seq<int>, n: nat) returns (mixed: seq<int>)
      requires Valid()
      modifies this`inPorts
      ensures Valid()
      ensures MixAcc(inPorts, mixed, MixUpTo(old(inPorts), out, n, MAX_PORTS).layer) == MixUpTo(old(inPorts), out, n, MAX_PORTS)
    {
      mixed := out;
      var layer := 0;
      ghost var ins0 := inPorts;
      var i := 0;
      while i < MAX_PORTS
        invariant 0 <= i <= MAX_PORTS && Valid()
        invariant MixAcc(inPorts, mixed, layer) == MixUpTo(ins0, out, n, i)
      {
        assert MixUpTo(ins0, out, n, i + 1) == MixStep(MixUpTo(ins0, out, n, i), i, n);
        mixed, layer := MixPort(i, mixed, n, layer);
        i := i + 1;
      }
    }

    /** One iteration of mix_output's port loop: an active port is mixed in, or zeroed when it has nothing queued. */
    method MixPort(i: nat, mixed: seq<int>, n: nat, layer: nat) returns (mixed': seq<int>, layer': nat)
      requires Valid() && i < MAX_PORTS
      modifies this`inPorts
      ensures Valid()
      ensures MixAcc(inPorts, mixed', layer') == MixStep(MixAcc(old(inPorts), mixed, layer), i, n)
    {
      mixed', layer' := mixed, layer;
      var p := inPorts[i];
      if Active(p) {
        if p.queue == [] {
          inPorts := inPorts[i := p.(queuedBytes := 0, queuedOffset := 0)];
        } else {
          mixed' := AddPortData(i, mixed, n, layer);
          layer' := layer + 1;
        }
      }
    }

    method MixOutput(n: nat) returns (r: SpaResult)
      requires Valid() && outPort.io.Some?
      modifies this`inPorts, this`outPort
      ensures Valid()
      ensures MixResult(inPorts, outPort, r) == MixOutputSpec(old(inPorts), old(outPort), n)
    {
      if outPort.queue == [] {
        return OutOfBuffers;
      }
      var out0 := outPort;
      var id := outPort.queue[0];
      outPort := outPort.(queue := outPort.queue[1..], outstanding := outPort.outstanding[id := true]);
      DequeueHeadKeepsOwnership(out0, outPort);
      var od := out0.buffers[id].data;
      var nb := Min(n, od.maxsize);
      var samples := MixInputs(od.mem, nb);
      outPort := outPort.(buffers := outPort.buffers[id := out0.buffers[id].(data := od.(chunk := Chunk(0, nb, 0), mem := samples))],
                          io := Some(out0.io.value.(bufferId := out0.buffers[id].id, status := HaveBuffer)));
      r := HaveBuffer;
    }

    /**
     * The port loop of process_input: offers are taken from every active
     * input, and the smallest positive amount then queued is returned.
     */
    /**
     * The per-port step of process_input's loop on active port i: an offered
     * outstanding buffer is queued, any other offer is refused.
     */
    method TakePortOffer(i: nat) returns (refused: bool)
      requires Valid() && i < MAX_PORTS && Active(inPorts[i])
      modifies this`inPorts
      ensures Valid() && inPorts == old(inPorts)[i := TakeOffer(old(inPorts[i]))]
      ensures refused <==> Offered(old(inPorts[i])) && !OfferedOutstanding(old(inPorts[i]))
    {
      var p := inPorts[i];
      var io := p.io.value;
      refused := false;
      if p.queuedBytes == 0 && io.status == HaveBuffer && io.bufferId != ID_INVALID {
        if !(io.bufferId < MAX_BUFFERS && p.outstanding[io.bufferId]) {
          p := p.(io := Some(io.(status := InvalidBufferId)));
          refused := true;
        } else {
          var b := io.bufferId;
          p := p.(outstanding := p.outstanding[b := false],
                  io := Some(io.(bufferId := ID_INVALID, status := Ok)),
                  queue := p.queue + [b],
                  queuedBytes := p.queuedBytes + p.buffers[b].data.chunk.size);
        }
        assert p == TakeOffer(inPorts[i]);
        inPorts := inPorts[i := p];
      }
    }

    /**
     * The port loop of process_input: offers are taken from every active
     * input, and the smallest positive amount then queued is returned.
     */
    method TakeInputOffers() returns (minQueued: Option<nat>)
      requires Valid()
      modifies this`inPorts
      ensures Valid() && inPorts == TakeOffers(old(inPorts))
      ensures minQueued == MinPositiveQueued(inPorts, MAX_PORTS)
    {
      ghost var ins0 := inPorts;
      minQueued := None;
      var i := 0;
      while i < MAX_PORTS
        invariant 0 <= i <= MAX_PORTS && Valid()
        invariant forall k :: 0 <= k < i ==> inPorts[k] == TakeOffer(ins0[k])
        invariant forall k :: i <= k < MAX_PORTS ==> inPorts[k] == ins0[k]
        invariant minQueued == MinPositiveQueued(TakeOffers(ins0), i)
      {
        if Active(inPorts[i]) {
          var refused := TakePortOffer(i);
          var p := inPorts[i];
          if !refused && p.queuedBytes > 0 && (minQueued.None? || p.queuedBytes < minQueued.value) {
            minQueued := Some(p.queuedBytes);
          }
        }
        i := i + 1;
      }
      assert inPorts == TakeOffers(ins0);
    }

    method ProcessInput() returns (r: SpaResult)
      requires Valid()
      modifies this`inPorts, this`outPort
      ensures Valid()
      ensures MixResult(inPorts, outPort, r) == ProcessInputSpec(old(inPorts), old(outPort))
    {
      if outPort.io.None? {
        return Error;
      }
      if outPort.io.value.status == HaveBuffer {
        return HaveBuffer;
      }
      var minQueued := TakeInputOffers();
      if minQueued.Some? && minQueued.value > 0 {
        r := MixOutput(minQueued.value);
        outPort := outPort.(io := Some(outPort.io.value.(status := r)));
      } else {
        outPort := outPort.(io := Some(outPort.io.value.(status := NeedBuffer)));
        r := NeedBuffer;
      }
    }

    /** The smallest amount queued on an active input (process_output's first loop). */
    method MinQueued() returns (minQueued: Option<nat>)
      requires Valid()
      ensures minQueued == MinActiveQueued(inPorts, MAX_PORTS)
    {
      minQueued := None;
      var i := 0;
      while i < MAX_PORTS
        invariant 0 <= i <= MAX_PORTS
        invariant minQueued == MinActiveQueued(inPorts, i)
      {
        var p := inPorts[i];
        if Active(p) && (minQueued.None? || p.queuedBytes < minQueued.value) {
          minQueued := Some(p.queuedBytes);
        }
        i := i + 1;
      }
    }

    /** process_output's second loop: empty active inputs are asked for `range`. */
    method RequestAllInputs(range: Range)
      requires Valid()
      modifies this`inPorts
      ensures Valid() && inPorts == RequestInputs(old(inPorts), range)
    {
      ghost var ins0 := inPorts;
      var i := 0;
      while i < MAX_PORTS
        invariant 0 <= i <= MAX_PORTS && |inPorts| == MAX_PORTS
        invariant forall k :: 0 <= k < i ==> inPorts[k] == RequestInput(ins0[k], range)
        invariant forall k :: i <= k < MAX_PORTS ==> inPorts[k] == ins0[k]
      {
        var p := inPorts[i];
        if Active(p) {
          if p.queuedBytes == 0 {
            inPorts := inPorts[i := p.(io := Some(p.io.value.(range := range, status := NeedBuffer)))];
          } else {
            inPorts := inPorts[i := p.(io := Some(p.io.value.(status := Ok)))];
          }
        }
        i := i + 1;
      }
      assert inPorts == RequestInputs(ins0, range);
    }

    method ProcessOutput() returns (r: SpaResult)
      requires Valid()
      modifies this`inPorts, this`outPort
      ensures Valid()
      ensures MixResult(inPorts, outPort, r) == ProcessOutputSpec(old(inPorts), old(outPort))
    {
      if outPort.io.None? {
        return Error;
      }
      if outPort.io.value.status == HaveBuffer {
        return HaveBuffer;
      }
      if outPort.io.value.bufferId != ID_INVALID {
        var io := outPort.io.value;
        outPort := Recycle(outPort, io.bufferId);
        outPort := outPort.(io := Some(io.(bufferId := ID_INVALID)));
      }
      assert outPort == RecycleSlot(old(outPort));
      var minQueued := MinQueued();
      if minQueued.Some? && minQueued.value > 0 {
        r := MixOutput(minQueued.value);
        outPort := outPort.(io := Some(outPort.io.value.(status := r)));
      } else {
        RequestAllInputs(outPort.io.value.range);
        r := outPort.io.value.status;
      }
    }
  }
}
