/**
 * The ALSA driver's data path (the integer part of alsa-utils.c): the ring
 * transfers of playback and capture, the buffer lists they move buffers
 * between, delay and resynchronisation, xrun recovery and start/pause.
 *
 * The PCM device is an abstract ring (`Ring`): its bytes, its application
 * pointer, the frames its next mmap_begin grants and the errors its calls
 * return. The replies of the calls that query the device (snd_pcm_avail,
 * snd_pcm_status, snd_pcm_recover) are parameters. The timing loop's
 * floating-point filter is reduced to its bandwidth stage.
 */
module AlsaPcm {
  import opened Spa

  datatype Stream = Playback | Capture

  /** Stage of the timing loop: reset by init_loop, then BW_MAX, BW_MED, BW_MIN. */
  datatype Bandwidth = BwOff | BwMax | BwMed | BwMin

  /** spa_io_position as the driver reads it: quantum size, driving clock id, clock position. */
  datatype Position = Position(size: nat, clockId: nat, clockPosition: nat)

  /** struct buffer: a negotiated SPA buffer and its BUFFER_FLAG_OUT flag. */
  datatype Buffer = Buffer(buf: SpaBuffer, out: bool)

  /**
   * The PCM device: the mmap area's bytes, the application pointer (in
   * frames), the frames the next mmap_begin grants, and the results of
   * mmap_begin, mmap_commit and snd_pcm_start (negative errno or 0).
   */
  datatype Ring = Ring(area: seq<int>, appl: int, room: nat, beginErr: int, commitErr: int, startErr: int)

  const USEC_PER_SEC: nat := 1_000_000

  /** The stream's fixed parameters: direction, bytes per frame, rate, ring size in frames, props.min_latency. */
  datatype Config = Config(stream: Stream, frameSize: nat, rate: nat, bufferFrames: nat, minLatency: nat)

  /**
   * The buffer table and the lists over it: the free list (capture buffers
   * waiting to be filled), the ready list (buffers waiting to be played or
   * consumed), the bytes already played from the head ready buffer, and the
   * io slot shared with the peer. Lists hold indices into the table.
   */
  datatype Queue = Queue(buffers: seq<Buffer>, free: seq<nat>, ready: seq<nat>, readyOffset: nat, io: IoBuffers)

  /** The fields of struct state the data path reads and writes. */
  datatype St = St(
    cfg: Config, position: Option<Position>, clockId: Option<nat>,
    threshold: nat, lastThreshold: nat, lastPosition: nat,
    started: bool, slaved: bool, alsaStarted: bool, alsaSync: bool, bw: Bandwidth,
    sampleCount: nat, fillLevel: int, q: Queue, ring: Ring)

  /** The result of an operation: new state, return code, frames transferred. */
  datatype Outcome = Outcome(st: St, res: int, total: nat)

  // ---------------------------------------------------------------------
  // Byte-level helpers
  // ---------------------------------------------------------------------

  /** `s` with w copied over it at `at` (bytes that would fall past its end are dropped). */
  function Overwrite(s: seq<int>, at: nat, w: seq<int>): (r: seq<int>)
    ensures |r| == |s|
  {
    seq(|s|, k requires 0 <= k < |s| => if at <= k < at + |w| then w[k - at] else s[k])
  }

  function Zeros(n: nat): (z: seq<int>)
    ensures |z| == n
  {
    seq(n, k requires 0 <= k < n => 0)
  }

  /** n bytes of a ring of `size` bytes, starting at `start` and wrapping at its end. */
  function Circular(s: seq<int>, start: nat, n: nat, size: nat): (r: seq<int>)
    requires size > 0
    ensures |r| == n
  {
    seq(n, k requires 0 <= k < n => At(s, (start + k) % size))
  }

  /** The two-part copy: l0 = min(n, size - offs) bytes from offs, then l1 = n - l0 from the start. */
  function SplitRead(s: seq<int>, offs: nat, n: nat, size: nat): (r: seq<int>)
    requires offs <= size
    ensures |r| == n
  {
    var l0 := Min(n, size - offs);
    Window(s, offs, l0) + Window(s, 0, n - l0)
  }

  /** The l0/l1 split reads the n bytes from offs with wrap-around. */
  lemma SplitReadIsCircular(s: seq<int>, offs: nat, n: nat, size: nat)
    requires 0 < size && offs < size && n <= size
    ensures SplitRead(s, offs, n, size) == Circular(s, offs, n, size)
  {
    var l0 := Min(n, size - offs);
    var r := SplitRead(s, offs, n, size);
    forall k | 0 <= k < n
      ensures r[k] == At(s, (offs + k) % size)
    {
      if k < l0 {
        assert r[k] == Window(s, offs, l0)[k];
        ModBelow(offs + k, size);
      } else {
        assert r[k] == Window(s, 0, n - l0)[k - l0];
        ModWrap(offs + k, size);
      }
    }
  }

  lemma ModBelow(x: nat, m: nat)
    requires x < m
    ensures x % m == x
  {
  }

  lemma ModWrap(x: nat, m: nat)
    requires m <= x < 2 * m
    ensures x % m == x - m
  {
    assert x == 1 * m + (x - m);
  }

  /**
   * The copy of n bytes of a ring buffer of `size` bytes, from `offs`, into
   * `area` at `dst`: l0 bytes up to the ring's end, then, when l1 > 0, the
   * rest from its start.
   */
  function CopyIn(area: seq<int>, dst: nat, mem: seq<int>, offs: nat, n: nat, size: nat): (r: seq<int>)
    requires offs <= size
    ensures |r| == |area|
  {
    var l0 := Min(n, size - offs);
    var l1 := n - l0;
    var area0 := Overwrite(area, dst, Window(mem, offs, l0));
    if l1 > 0 then Overwrite(area0, dst + l0, Window(mem, 0, l1)) else area0
  }

  /** The two-part copy writes the n bytes from offs, read with wrap-around, at dst. */
  lemma CopyInIsCircular(area: seq<int>, dst: nat, mem: seq<int>, offs: nat, n: nat, size: nat)
    requires 0 < size && offs < size && n <= size
    ensures CopyIn(area, dst, mem, offs, n, size) == Overwrite(area, dst, Circular(mem, offs, n, size))
  {
    var l0 := Min(n, size - offs);
    SplitReadIsCircular(mem, offs, n, size);
    if n - l0 > 0 {
      OverwriteTwice(area, dst, Window(mem, offs, l0), Window(mem, 0, n - l0));
    } else {
      assert Window(mem, offs, l0) + Window(mem, 0, 0) == Window(mem, offs, l0);
    }
  }

  /** Copying two adjacent pieces is copying their concatenation. */
  lemma OverwriteTwice(s: seq<int>, at: nat, w0: seq<int>, w1: seq<int>)
    ensures Overwrite(Overwrite(s, at, w0), at + |w0|, w1) == Overwrite(s, at, w0 + w1)
  {
  }

  lemma OverwriteEmpty(s: seq<int>, at: nat)
    ensures Overwrite(s, at, []) == s
  {
  }

  /** The bytes of n frames of fs bytes each (`n_frames * frame_size`). */
  function Bytes(n: nat, fs: nat): nat {
    if n == 0 then 0 else Bytes(n - 1, fs) + fs
  }

  /** The whole frames of fs bytes in b bytes (`b / frame_size`). */
  function Frames(b: nat, fs: nat): nat
    requires fs > 0
    decreases b
  {
    if b < fs then 0 else Frames(b - fs, fs) + 1
  }

  lemma {:induction false} BytesIsProduct(n: nat, fs: nat)
    ensures Bytes(n, fs) == n * fs
  {
    if n > 0 {
      BytesIsProduct(n - 1, fs);
    }
  }

  lemma {:induction false} FramesIsQuotient(b: nat, fs: nat)
    requires fs > 0
    ensures Frames(b, fs) == b / fs
    decreases b
  {
    if b >= fs {
      FramesIsQuotient(b - fs, fs);
      DivStep(b, fs);
    }
  }

  lemma DivStep(b: nat, fs: nat)
    requires 0 < fs <= b
    ensures b / fs == (b - fs) / fs + 1
  {
    var q, r := (b - fs) / fs, (b - fs) % fs;
    assert b == (q + 1) * fs + r && 0 <= r < fs;
    DivUnique(b, fs, q + 1, r);
  }

  lemma DivUnique(b: nat, fs: nat, q: nat, r: nat)
    requires 0 < fs && b == q * fs + r && r < fs
    ensures b / fs == q
  {
    var q', r' := b / fs, b % fs;
    assert b == q' * fs + r';
    BytesIsProduct(q, fs);
    BytesIsProduct(q', fs);
    BytesIsProduct(q + 1, fs);
    BytesIsProduct(q' + 1, fs);
    if q' < q {
      BytesMono(q' + 1, q, fs);
    } else if q' > q {
      BytesMono(q + 1, q', fs);
    }
  }

  lemma {:induction false} BytesAdd(a: nat, b: nat, fs: nat)
    ensures Bytes(a + b, fs) == Bytes(a, fs) + Bytes(b, fs)
    decreases b
  {
    if b > 0 {
      BytesAdd(a, b - 1, fs);
    }
  }

  lemma BytesMono(a: nat, b: nat, fs: nat)
    requires a <= b
    ensures Bytes(a, fs) <= Bytes(b, fs)
  {
    BytesAdd(a, b - a, fs);
  }

  /** The whole frames of b bytes fit in b, and less than a frame is left over. */
  lemma {:induction false} FramesFit(b: nat, fs: nat)
    requires fs > 0
    ensures Bytes(Frames(b, fs), fs) <= b < Bytes(Frames(b, fs), fs) + fs
    decreases b
  {
    if b >= fs {
      FramesFit(b - fs, fs);
    }
  }

  // ---------------------------------------------------------------------
  // The buffer lists
  // ---------------------------------------------------------------------

  function HeadData(q: Queue): SpaData
    requires q.ready != [] && q.ready[0] < |q.buffers|
  {
    q.buffers[q.ready[0]].buf.data
  }

  /** Every buffer has memory, and exactly maxsize bytes of it. */
  predicate BuffersOk(bufs: seq<Buffer>) {
    forall k :: 0 <= k < |bufs| ==> bufs[k].buf.data.maxsize > 0 && |bufs[k].buf.data.mem| == bufs[k].buf.data.maxsize
  }

  predicate Ids(ids: seq<nat>, n: nat) {
    forall k :: 0 <= k < |ids| ==> ids[k] < n
  }

  /**
   * The lists name buffers of the table, and on playback the bytes already
   * played from the head ready buffer do not exceed its chunk.
   */
  predicate QInv(q: Queue, playback: bool) {
    BuffersOk(q.buffers) && Ids(q.free, |q.buffers|) && Ids(q.ready, |q.buffers|)
    && (playback && q.ready != [] ==> q.readyOffset <= HeadData(q).chunk.size)
  }

  /** The state's invariant: frames have a size and the lists are well formed. */
  predicate Inv(s: St) {
    s.cfg.frameSize > 0 && QInv(s.q, s.cfg.stream == Playback)
  }

  /** Total chunk bytes of the listed buffers. */
  function Queued(bufs: seq<Buffer>, ids: seq<nat>): nat {
    if ids == [] then 0
    else (if ids[0] < |bufs| then bufs[ids[0]].buf.data.chunk.size else 0) + Queued(bufs, ids[1..])
  }

  /** Bytes still to be played from the ready list. */
  function ReadyBytes(q: Queue): nat
    requires QInv(q, true)
  {
    if q.ready == [] then 0 else Queued(q.buffers, q.ready) - q.readyOffset
  }

  lemma {:induction false} QueuedIgnoresFlags(bufs: seq<Buffer>, id: nat, out: bool, ids: seq<nat>)
    requires id < |bufs|
    ensures Queued(bufs[id := bufs[id].(out := out)], ids) == Queued(bufs, ids)
  {
    if ids != [] {
      QueuedIgnoresFlags(bufs, id, out, ids[1..]);
    }
  }

  /**
   * The head ready buffer leaves the ready list, is flagged OUT and its id is
   * published in the io slot; playback of the next one starts at offset 0.
   */
  function Release(q: Queue): (r: Queue)
    requires q.ready != [] && q.ready[0] < |q.buffers|
    ensures r.ready == q.ready[1..] && r.free == q.free && r.readyOffset == 0 && |r.buffers| == |q.buffers|
    ensures r.buffers[q.ready[0]].out && r.io.bufferId == q.ready[0]
  {
    var id := q.ready[0];
    q.(ready := q.ready[1..], buffers := q.buffers[id := q.buffers[id].(out := true)],
       io := q.io.(bufferId := id), readyOffset := 0)
  }

  /**
   * Releasing touches only the head buffer's OUT flag: every buffer keeps its
   * data, every other buffer is unchanged, and the bytes queued drop by the
   * head buffer's chunk size.
   */
  lemma ReleaseKeepsBuffers(q: Queue)
    requires q.ready != [] && q.ready[0] < |q.buffers|
    ensures var r := Release(q);
      (forall i :: 0 <= i < |q.buffers| ==> r.buffers[i].buf == q.buffers[i].buf)
      && (forall i :: 0 <= i < |q.buffers| && i != q.ready[0] ==> r.buffers[i] == q.buffers[i])
      && Queued(r.buffers, r.ready) + q.buffers[q.ready[0]].buf.data.chunk.size == Queued(q.buffers, q.ready)
  {
    QueuedIgnoresFlags(q.buffers, q.ready[0], true, q.ready[1..]);
  }

  /** Suffix(a, b): a is what remains of b after some of its head was taken. */
  predicate Suffix<T(==)>(a: seq<T>, b: seq<T>) {
    |a| <= |b| && a == b[|b| - |a|..]
  }

  lemma SuffixTrans<T>(a: seq<T>, b: seq<T>, c: seq<T>)
    requires Suffix(a, b) && Suffix(b, c)
    ensures Suffix(a, c)
  {
    assert c[|c| - |b|..][|b| - |a|..] == c[|c| - |a|..];
  }

  // ---------------------------------------------------------------------
  // The playback copy loop
  // ---------------------------------------------------------------------

  /**
   * State of spa_alsa_write's inner loop: the lists, the mapped area, the
   * frame offset in it, the room left, the silence owed and the frames
   * written so far.
   */
  datatype Copy = Copy(q: Queue, area: seq<int>, off: nat, toWrite: nat, silence: nat, written: nat)

  /** Whole frames of the head ready buffer one iteration copies: min(avail, to_write). */
  function StepFrames(c: Copy, fs: nat): nat
    requires fs > 0 && QInv(c.q, true) && c.q.ready != []
  {
    Min(Frames(HeadData(c.q).chunk.size - c.q.readyOffset, fs), c.toWrite)
  }

  /**
   * Whether an iteration releases the head buffer. `asWritten` selects the
   * test of alsa-utils.c (`ready_offset >= size`); otherwise the buffer is
   * released once less than a whole frame of it is left.
   */
  function Finished(c: Copy, fs: nat, asWritten: bool): bool
    requires fs > 0 && QInv(c.q, true) && c.q.ready != []
  {
    var ro := c.q.readyOffset + Bytes(StepFrames(c, fs), fs);
    var size := HeadData(c.q).chunk.size;
    if asWritten then ro >= size else ro + fs > size
  }

  /** The frames an iteration copies fit in what is left of the head buffer; an unfinished buffer yields at least one. */
  lemma StepFramesFit(c: Copy, fs: nat)
    requires fs > 0 && QInv(c.q, true) && c.q.ready != [] && c.toWrite > 0
    ensures Bytes(StepFrames(c, fs), fs) <= HeadData(c.q).chunk.size - c.q.readyOffset
    ensures !Finished(c, fs, false) ==> StepFrames(c, fs) > 0
  {
    var left := HeadData(c.q).chunk.size - c.q.readyOffset;
    FramesFit(left, fs);
    BytesMono(StepFrames(c, fs), Frames(left, fs), fs);
  }

  /** One iteration of the copy loop on the head ready buffer, with the release test `asWritten` selects. */
  function CopyStepRule(c: Copy, fs: nat, asWritten: bool): (r: Copy)
    requires fs > 0 && QInv(c.q, true) && c.q.ready != []
    ensures r.written == c.written + StepFrames(c, fs) && r.off == c.off + StepFrames(c, fs)
    ensures r.toWrite == c.toWrite - StepFrames(c, fs)
  {
    var q := c.q;
    var d := HeadData(q);
    var n := StepFrames(c, fs);
    var area := CopyIn(c.area, Bytes(c.off, fs), d.mem, (d.chunk.offset + q.readyOffset) % d.maxsize, Bytes(n, fs), d.maxsize);
    var q2 := if Finished(c, fs, asWritten) then Release(q) else q.(readyOffset := q.readyOffset + Bytes(n, fs));
    Copy(q2, area, c.off + n, c.toWrite - n, if c.silence > n then c.silence - n else 0, c.written + n)
  }

  function CopyStep(c: Copy, fs: nat): (r: Copy)
    requires fs > 0 && QInv(c.q, true) && c.q.ready != []
  {
    CopyStepRule(c, fs, false)
  }

  /**
   * An iteration keeps the invariant; silence owed shrinks with the room; a
   * finished buffer is released (flagged OUT, its id in the io slot), an
   * unfinished one advances by the bytes copied; the loop's measure drops.
   */
  lemma CopyStepKeepsInv(c: Copy, fs: nat)
    requires fs > 0 && QInv(c.q, true) && c.q.ready != [] && c.toWrite > 0 && c.silence <= c.toWrite
    ensures var r := CopyStep(c, fs);
      QInv(r.q, true) && r.silence <= r.toWrite
      && r.silence == (if c.silence > StepFrames(c, fs) then c.silence - StepFrames(c, fs) else 0)
      && (Finished(c, fs, false) ==> r.q == Release(c.q))
      && (!Finished(c, fs, false) ==>
            r.q == c.q.(readyOffset := c.q.readyOffset + Bytes(StepFrames(c, fs), fs)))
      && (|r.q.ready| < |c.q.ready| || r.toWrite < c.toWrite)
  {
    StepFramesFit(c, fs);
  }

  /** The iteration's bytes land at frame `off` of the area, read from the buffer with wrap-around at maxsize. */
  lemma CopyStepCopies(c: Copy, fs: nat)
    requires fs > 0 && QInv(c.q, true) && c.q.ready != [] && Bytes(StepFrames(c, fs), fs) <= HeadData(c.q).maxsize
    ensures var d := HeadData(c.q);
      CopyStep(c, fs).area
        == Overwrite(c.area, Bytes(c.off, fs),
                     Circular(d.mem, (d.chunk.offset + c.q.readyOffset) % d.maxsize, Bytes(StepFrames(c, fs), fs), d.maxsize))
  {
    var d := HeadData(c.q);
    CopyInIsCircular(c.area, Bytes(c.off, fs), d.mem, (d.chunk.offset + c.q.readyOffset) % d.maxsize,
                     Bytes(StepFrames(c, fs), fs), d.maxsize);
  }

  /** The bytes still queued for playback drop by at least the bytes an iteration copies. */
  lemma CopyStepConsumes(c: Copy, fs: nat)
    requires fs > 0 && QInv(c.q, true) && c.q.ready != [] && c.toWrite > 0 && c.silence <= c.toWrite
    ensures QInv(CopyStep(c, fs).q, true)
    ensures ReadyBytes(CopyStep(c, fs).q) + Bytes(StepFrames(c, fs), fs) <= ReadyBytes(c.q)
  {
    var q := c.q;
    CopyStepKeepsInv(c, fs);
    StepFramesFit(c, fs);
    assert Queued(q.buffers, q.ready) == HeadData(q).chunk.size + Queued(q.buffers, q.ready[1..]);
    if Finished(c, fs, false) {
      QueuedIgnoresFlags(q.buffers, q.ready[0], true, q.ready[1..]);
    }
  }

  /** The copy loop: runs while buffers are ready and the area has room. */
  function CopyLoop(c: Copy, fs: nat): (r: Copy)
    requires fs > 0 && QInv(c.q, true) && c.silence <= c.toWrite
    decreases |c.q.ready|, c.toWrite
  {
    if c.q.ready == [] || c.toWrite == 0 then c
    else
      CopyStepKeepsInv(c, fs);
      CopyLoop(CopyStep(c, fs), fs)
  }


  /**
   * What the loop keeps from a state `c` to a later one `r`: the invariant;
   * the io slot and the table change only through releases; frames written
   * plus room left is constant; silence owed never exceeds the room; ready
   * buffers are taken from the head in order; and the queued bytes drop by
   * at least the bytes written.
   */
  predicate Progress(c: Copy, r: Copy, fs: nat)
    requires QInv(c.q, true)
  {
    QInv(r.q, true) && r.silence <= r.toWrite && |r.area| == |c.area|
    && r.written + r.toWrite == c.written + c.toWrite && r.written >= c.written
    && r.off == c.off + (r.written - c.written)
    && Suffix(r.q.ready, c.q.ready) && r.q.free == c.q.free && |r.q.buffers| == |c.q.buffers|
    && ReadyBytes(r.q) + Bytes(r.written - c.written, fs) <= ReadyBytes(c.q)
  }

  lemma ProgressTrans(a: Copy, b: Copy, c: Copy, fs: nat)
    requires QInv(a.q, true) && Progress(a, b, fs) && Progress(b, c, fs)
    ensures Progress(a, c, fs)
  {
    SuffixTrans(c.q.ready, b.q.ready, a.q.ready);
    assert Suffix(c.q.ready, a.q.ready);
    var x, y := b.written - a.written, c.written - b.written;
    BytesAdd(x, y, fs);
    assert c.written - a.written == x + y;
  }

  /** One iteration makes progress. */
  lemma CopyStepProgress(c: Copy, fs: nat)
    requires fs > 0 && QInv(c.q, true) && c.q.ready != [] && c.toWrite > 0 && c.silence <= c.toWrite
    ensures Progress(c, CopyStep(c, fs), fs)
  {
    CopyStepKeepsInv(c, fs);
    CopyStepConsumes(c, fs);
  }

  /** The loop makes progress and stops with no buffer ready or no room left. */
  lemma {:induction false} CopyLoopContract(c: Copy, fs: nat)
    requires fs > 0 && QInv(c.q, true) && c.silence <= c.toWrite
    ensures Progress(c, CopyLoop(c, fs), fs)
    ensures CopyLoop(c, fs).q.ready == [] || CopyLoop(c, fs).toWrite == 0
    decreases |c.q.ready|, c.toWrite
  {
    if c.q.ready == [] || c.toWrite == 0 {
      assert CopyLoop(c, fs) == c;
      assert Bytes(0, fs) == 0;
    } else {
      var c1 := CopyStep(c, fs);
      CopyStepProgress(c, fs);
      assert CopyLoop(c, fs) == CopyLoop(c1, fs);
      CopyLoopContract(c1, fs);
      ProgressTrans(c, c1, CopyLoop(c1, fs), fs);
    }
  }

  // ---------------------------------------------------------------------
  // Finding: the release test of the copy loop
  // ---------------------------------------------------------------------

  /**
   * With the source's test, a head buffer with a partial frame left (fewer
   * than frame_size bytes, but some) is never released: the iteration copies
   * nothing and leaves every variable as it was, so the loop's guard stays
   * true forever.
   */
  lemma AsWrittenStallsOnPartialFrame(c: Copy, fs: nat)
    requires fs > 0 && QInv(c.q, true) && c.q.ready != [] && c.toWrite > 0
    requires 0 < HeadData(c.q).chunk.size - c.q.readyOffset < fs
    ensures CopyStepRule(c, fs, true) == c
  {
    assert StepFrames(c, fs) == 0;
    var d := HeadData(c.q);
    OverwriteEmpty(c.area, Bytes(c.off, fs));
    assert Window(d.mem, (d.chunk.offset + c.q.readyOffset) % d.maxsize, 0) == [];
    assert c.q.(readyOffset := c.q.readyOffset) == c.q;
  }

  /**
   * Such a state is reached from the start of any buffer whose size is not a
   * whole number of frames, when the area has room for all of it: the first
   * iteration copies its whole frames and leaves the partial one.
   */
  lemma AsWrittenReachesPartialFrame(c: Copy, fs: nat)
    requires fs > 0 && QInv(c.q, true) && c.q.ready != [] && c.q.readyOffset == 0
    requires Bytes(Frames(HeadData(c.q).chunk.size, fs), fs) != HeadData(c.q).chunk.size
    requires c.toWrite > Frames(HeadData(c.q).chunk.size, fs)
    ensures var r := CopyStepRule(c, fs, true);
      r.q.ready == c.q.ready && r.toWrite > 0 && QInv(r.q, true)
      && 0 < HeadData(r.q).chunk.size - r.q.readyOffset < fs
  {
    FramesFit(HeadData(c.q).chunk.size, fs);
  }

  /** Where the bytes left are a whole number of frames, the corrected test agrees with the source's. */
  lemma ReleaseTestsAgreeOnWholeFrames(c: Copy, fs: nat)
    requires fs > 0 && QInv(c.q, true) && c.q.ready != []
    requires Bytes(Frames(HeadData(c.q).chunk.size - c.q.readyOffset, fs), fs) == HeadData(c.q).chunk.size - c.q.readyOffset
    ensures CopyStepRule(c, fs, true) == CopyStepRule(c, fs, false)
  {
    var left := HeadData(c.q).chunk.size - c.q.readyOffset;
    var m := Frames(left, fs);
    var n := StepFrames(c, fs);
    if n < m {
      BytesMono(n + 1, m, fs);
    }
  }

  // ---------------------------------------------------------------------
  // Playback: spa_alsa_write
  // ---------------------------------------------------------------------

  /** The ring offset mmap_begin reports: the application pointer modulo the ring size. */
  function Offset(s: St): nat {
    if s.cfg.bufferFrames == 0 then 0 else s.ring.appl % s.cfg.bufferFrames
  }

  /** The frames mmap_begin grants when asked for `want`: bounded by the room and by the ring's end. */
  function Granted(s: St, want: nat): nat {
    Min(Min(want, s.ring.room), if s.cfg.bufferFrames == 0 then 0 else s.cfg.bufferFrames - Offset(s))
  }

  /** snd_pcm_mmap_commit of n frames: on success the application pointer advances and the room shrinks. */
  function Commit(s: St, n: nat): (r: St)
    ensures r == s.(ring := r.ring)
  {
    if s.ring.commitErr < 0 then s
    else s.(ring := s.ring.(appl := s.ring.appl + n, room := if n <= s.ring.room then s.ring.room - n else 0))
  }

  /** The fields of the timing loop and the scheduling mode, which a transfer leaves alone. */
  predicate SameTiming(a: St, b: St) {
    a.bw == b.bw && a.threshold == b.threshold && a.lastThreshold == b.lastThreshold && a.alsaSync == b.alsaSync
    && SameMode(a, b)
  }

  /** The clock the stream follows and whether it runs, which only start, pause and reslave change. */
  predicate SameMode(a: St, b: St) {
    a.position == b.position && a.clockId == b.clockId && a.slaved == b.slaved && a.started == b.started
    && a.lastPosition == b.lastPosition
  }

  /**
   * What capture does to the lists: at most one buffer moves from the head
   * of the free list to the end of the ready list; none is lost or
   * duplicated, and the io slot is untouched.
   */
  predicate Captured(a: Queue, b: Queue) {
    multiset(b.free + b.ready) == multiset(a.free + a.ready) && Suffix(b.free, a.free)
    && |a.ready| <= |b.ready| <= |a.ready| + 1 && b.ready[..|a.ready|] == a.ready && b.io == a.io
  }

  lemma CapturedRefl(q: Queue)
    ensures Captured(q, q)
  {
    assert q.free[|q.free| - |q.free|..] == q.free;
    assert q.ready[..|q.ready|] == q.ready;
  }

  /** What playback does to the lists: buffers leave the head of the ready list; the free list is untouched. */
  predicate Played(a: Queue, b: Queue) {
    Suffix(b.ready, a.ready) && b.free == a.free
  }

  /** A commit error other than EPIPE and ESTRPIPE ends the transfer with that error. */
  predicate FatalCommit(s: St) {
    s.ring.commitErr < 0 && s.ring.commitErr != -EPIPE && s.ring.commitErr != -ESTRPIPE
  }

  /** The end of spa_alsa_write: account the frames written and start the device on the first ones. */
  function Finish(s: St, total: nat): (o: Outcome)
    ensures o.total == total && o.res <= 0
    ensures o.st.cfg == s.cfg && o.st.q == s.q && o.st.ring == s.ring && SameTiming(o.st, s)
    ensures o.st.sampleCount == s.sampleCount + total && o.st.fillLevel == s.fillLevel + total
    ensures o.st.alsaStarted != s.alsaStarted ==> !s.alsaStarted && o.res == 0 && total > 0
  {
    var s1 := s.(sampleCount := s.sampleCount + total, fillLevel := s.fillLevel + total);
    if !s1.alsaStarted && total > 0 then
      if s1.ring.startErr < 0 then Outcome(s1, s1.ring.startErr, total)
      else Outcome(s1.(alsaStarted := true), 0, total)
    else Outcome(s1, 0, total)
  }

  /** One round of the `again:` loop, before its commit: the new state, the frames written, the silence still owed. */
  datatype Round = Round(st: St, written: nat, silence: nat)

  /**
   * Map the free part of the ring (mmap_begin succeeded), copy ready buffers
   * into it, then zeros for the silence still owed. Only the lists and the
   * area change; the queued bytes drop when buffers stay ready after a round
   * that wrote something, and then no silence is left owed.
   */
  function MapAndCopy(s: St, silence: nat): (r: Round)
    requires Inv(s) && s.cfg.stream == Playback
    ensures Inv(r.st) && r.st == s.(q := r.st.q, ring := s.ring.(area := r.st.ring.area))
    ensures Suffix(r.st.q.ready, s.q.ready) && r.st.q.free == s.q.free
    ensures ReadyBytes(r.st.q) <= ReadyBytes(s.q)
    ensures r.st.q.ready != [] && r.written > 0 ==> ReadyBytes(r.st.q) < ReadyBytes(s.q) && r.silence == 0
  {
    var fs := s.cfg.frameSize;
    var frames := Granted(s, s.cfg.bufferFrames);
    var c0 := Copy(s.q, s.ring.area, Offset(s), frames, Min(silence, frames), 0);
    var c := CopyLoop(c0, fs);
    assert QInv(c.q, true) && Suffix(c.q.ready, s.q.ready) && c.q.free == s.q.free && ReadyBytes(c.q) <= ReadyBytes(s.q)
      && (c.q.ready != [] && c.written + c.silence > 0 ==> ReadyBytes(c.q) < ReadyBytes(s.q) && c.silence == 0) by {
      CopyLoopContract(c0, fs);
      if c.q.ready != [] && c.written + c.silence > 0 {
        assert c.toWrite == 0 && c.written == frames;
        BytesMono(1, frames, fs);
      }
    }
    var area := if c.silence > 0 then Overwrite(c.area, Bytes(c.off, fs), Zeros(Bytes(c.silence, fs))) else c.area;
    Round(s.(q := c.q, ring := s.ring.(area := area)), c.written + c.silence, c.silence)
  }

  /** One round of the `again:` loop with its commit: `again` says whether the loop goes round once more. */
  datatype Step = Step(st: St, res: int, written: nat, silence: nat, again: bool)

  /**
   * mmap_begin, copy and commit. A begin error ends the transfer before
   * anything is written; a commit error other than an xrun ends it after.
   * The loop goes again only when buffers are still ready after a round that
   * wrote something, so the queued bytes drop.
   */
  function TransferRound(s: St, silence: nat): (t: Step)
    requires Inv(s) && s.cfg.stream == Playback
    ensures Inv(t.st) && t.st.cfg == s.cfg && SameTiming(t.st, s)
    ensures t.st.sampleCount == s.sampleCount && t.st.fillLevel == s.fillLevel && t.st.alsaStarted == s.alsaStarted
    ensures Suffix(t.st.q.ready, s.q.ready) && t.st.q.free == s.q.free
    ensures t.res <= 0 && (t.res < 0 ==> !t.again) && (s.ring.beginErr < 0 ==> t.written == 0 && t.res < 0)
    ensures ReadyBytes(t.st.q) <= ReadyBytes(s.q) && (t.again ==> ReadyBytes(t.st.q) < ReadyBytes(s.q))
  {
    if s.ring.beginErr < 0 then Step(s, s.ring.beginErr, 0, silence, false)
    else
      var r := MapAndCopy(s, silence);
      if FatalCommit(r.st) then Step(r.st, r.st.ring.commitErr, r.written, r.silence, false)
      else Step(Commit(r.st, r.written), 0, r.written, r.silence, r.st.q.ready != [] && r.written > 0)
  }

  /**
   * The transfer part of spa_alsa_write (the `again:` loop). `total` is what
   * earlier rounds wrote.
   *
   * Ready buffers are taken from the head of the list, in order, and the
   * free list is left alone; sample_count and fill_level grow together, on
   * success by exactly the frames written; the device is started only once
   * frames were written, and is never stopped; the timing loop is not
   * touched.
   */
  function TransferFrom(s: St, silence: nat, total: nat): (o: Outcome)
    requires Inv(s) && s.cfg.stream == Playback
    ensures Inv(o.st) && o.st.cfg == s.cfg && SameTiming(o.st, s)
    ensures o.total >= total && Suffix(o.st.q.ready, s.q.ready) && o.st.q.free == s.q.free
    ensures o.res <= 0 && o.st.sampleCount >= s.sampleCount
    ensures o.st.sampleCount - s.sampleCount == o.st.fillLevel - s.fillLevel
    ensures o.res == 0 ==> o.st.sampleCount == s.sampleCount + o.total
    ensures o.st.alsaStarted != s.alsaStarted ==> !s.alsaStarted && o.res == 0 && o.total > 0
    decreases ReadyBytes(s.q)
  {
    var t := TransferRound(s, silence);
    if t.res >= 0 && t.again then
      var o := TransferFrom(t.st, t.silence, total + t.written);
      SuffixTrans(o.st.q.ready, t.st.q.ready, s.q.ready);
      o
    else Stop(t, total + t.written)
  }

  /** What the transfer returns once round `t` has run, after `total` frames of earlier rounds. */
  ghost function Remaining(t: Step, total: nat): Outcome
    requires Inv(t.st) && t.st.cfg.stream == Playback && t.res <= 0
  {
    if t.res >= 0 && t.again then TransferFrom(t.st, t.silence, total + t.written) else Stop(t, total + t.written)
  }

  /** A transfer is its first round followed by what remains. */
  lemma TransferUnfolds(s: St, silence: nat, total: nat)
    requires Inv(s) && s.cfg.stream == Playback
    ensures var t := TransferRound(s, silence);
      Inv(t.st) && t.st.cfg.stream == Playback && t.res <= 0 && TransferFrom(s, silence, total) == Remaining(t, total)
  {
  }

  /** After a round that says to go again, what remains is the next round followed by what remains after it. */
  lemma RemainingStep(t: Step, total: nat, next: Step, total': nat)
    requires Inv(t.st) && t.st.cfg.stream == Playback && t.res == 0 && t.again
    requires next == TransferRound(t.st, t.silence) && total' == total + t.written
    ensures Inv(next.st) && next.st.cfg.stream == Playback && next.res <= 0
    ensures Remaining(t, total) == Remaining(next, total')
  {
    TransferUnfolds(t.st, t.silence, total');
  }

  /**
   * The `again:` loop of spa_alsa_write as a loop: rounds of map, copy and
   * commit run while the previous one wrote something and buffers are still
   * ready; then the frames are accounted and the device started.
   */
  method Transfer(s: St, silence: nat) returns (o: Outcome)
    requires Inv(s) && s.cfg.stream == Playback
    ensures o == TransferFrom(s, silence, 0)
  {
    var t := TransferRound(s, silence);
    TransferUnfolds(s, silence, 0);
    ghost var goal := TransferFrom(s, silence, 0);
    var total: nat := 0;
    while t.res >= 0 && t.again
      invariant Inv(t.st) && t.st.cfg.stream == Playback && t.res <= 0
      invariant Remaining(t, total) == goal
      decreases ReadyBytes(t.st.q) + (if t.again then 1 else 0)
    {
      var t0 := t;
      ghost var total0 := total;
      t := TransferRound(t.st, t.silence);
      total := total + t0.written;
      RemainingStep(t0, total0, t, total);
    }
    o := Stop(t, total + t.written);
  }

  /** How the transfer ends after its last round: with that round's error, or by accounting what was written. */
  function Stop(t: Step, total: nat): (o: Outcome)
    requires t.res <= 0
    ensures o.total == total && o.res <= 0 && o.st.cfg == t.st.cfg && o.st.q == t.st.q && SameTiming(o.st, t.st)
    ensures o.st.sampleCount >= t.st.sampleCount
    ensures o.st.sampleCount - t.st.sampleCount == o.st.fillLevel - t.st.fillLevel
    ensures o.res == 0 ==> o.st.sampleCount == t.st.sampleCount + total
    ensures o.st.alsaStarted != t.st.alsaStarted ==> !t.st.alsaStarted && o.res == 0 && total > 0
  {
    if t.res < 0 then Outcome(t.st, t.res, total) else Finish(t.st, total)
  }

  /**
   * With nothing ready, a transfer writes `silence` frames of zeros (as many
   * as the ring grants) at the mapped offset, commits them and accounts them.
   */
  lemma IdleTransferWritesSilence(s: St, silence: nat)
    requires Inv(s) && s.cfg.stream == Playback && s.q.ready == []
    requires s.ring.beginErr >= 0 && s.ring.commitErr >= 0 && s.ring.startErr >= 0
    ensures var o := TransferFrom(s, silence, 0);
      var n := Min(silence, Granted(s, s.cfg.bufferFrames));
      o.res == 0 && o.total == n && o.st.q == s.q
      && o.st.ring.area == (if n > 0 then Overwrite(s.ring.area, Bytes(Offset(s), s.cfg.frameSize), Zeros(Bytes(n, s.cfg.frameSize)))
                            else s.ring.area)
      && o.st.ring.appl == s.ring.appl + n && o.st.sampleCount == s.sampleCount + n
      && o.st.alsaStarted == (s.alsaStarted || n > 0)
  {
    var frames := Granted(s, s.cfg.bufferFrames);
    var c0 := Copy(s.q, s.ring.area, Offset(s), frames, Min(silence, frames), 0);
    assert CopyLoop(c0, s.cfg.frameSize) == c0;
  }

  /** When the stream follows a clock position, the threshold is the position's quantum size. */
  function SyncThreshold(s: St): (r: St)
    ensures r == s.(threshold := r.threshold)
    ensures s.position.Some? ==> r.threshold == s.position.value.size
    ensures s.position.None? ==> r == s
  {
    match s.position
    case Some(p) => s.(threshold := p.size)
    case None => s
  }

  /** spa_alsa_write without the slave prologue, as the start and recovery paths reach it. */
  function WriteIdle(s: St, silence: nat): (o: Outcome)
    requires Inv(s) && s.cfg.stream == Playback
    ensures Inv(o.st) && o.st.cfg == s.cfg && SameMode(o.st, s) && Played(s.q, o.st.q)
    ensures o.st.sampleCount >= s.sampleCount && o.st.bw == s.bw && o.st.alsaSync == s.alsaSync
    ensures o.st.lastThreshold == s.lastThreshold && o.st.threshold == SyncThreshold(s).threshold
  {
    TransferFrom(SyncThreshold(s), silence, 0)
  }

  // ---------------------------------------------------------------------
  // Device status and xrun recovery
  // ---------------------------------------------------------------------

  /**
   * What the device answers during a recovery: the result of snd_pcm_status,
   * whether it reports an xrun and for how many microseconds, and the result
   * of snd_pcm_recover.
   */
  datatype RecoverReplies = RecoverReplies(statusRes: int, xrun: bool, xrunUsec: nat, recoverRes: int)

  /** snd_pcm_avail's answer, the recovery replies used when it fails, and its answer after recovering. */
  datatype StatusReplies = StatusReplies(avail: int, recovery: RecoverReplies, availAgain: int)

  /** The replies of the device on a timer wakeup or a slaved transfer, and whether the timing loop's period elapsed. */
  datatype Replies = Replies(status: StatusReplies, elapsed: bool)

  /** Frames lost in an xrun: its duration times the rate, or one quantum when that rounds to nothing. */
  function XrunFrames(s: St, usec: nat): (n: nat)
    ensures n == 0 ==> s.threshold == 0
  {
    var missing := usec * s.cfg.rate / USEC_PER_SEC;
    if missing != 0 then missing else s.threshold
  }

  /** alsa_recover's xrun accounting: only the sample count moves, by the frames the xrun lost. */
  function XrunAccounted(s: St, r: RecoverReplies): (a: St)
    ensures a == s.(sampleCount := a.sampleCount) && a.sampleCount >= s.sampleCount
    ensures !r.xrun ==> a == s
    ensures r.xrun && s.threshold > 0 ==> a.sampleCount > s.sampleCount
  {
    if r.xrun then s.(sampleCount := s.sampleCount + XrunFrames(s, r.xrunUsec)) else s
  }

  /**
   * alsa_recover: account the frames an xrun lost, recover the device, reset
   * the timing loop and restart the stream (capture starts the device,
   * playback primes it with two quanta of silence). Failures are returned.
   */
  function Recover(s: St, r: RecoverReplies): (o: Outcome)
    requires Inv(s)
    ensures Inv(o.st) && o.st.cfg == s.cfg && o.res <= 0 && SameMode(o.st, s)
    ensures s.cfg.stream == Capture ==> o.st.q == s.q
    ensures s.cfg.stream == Playback ==> Played(s.q, o.st.q)
    ensures r.statusRes < 0 ==> o.st == s && o.res == r.statusRes
    ensures r.statusRes >= 0 && r.xrun && s.threshold > 0 ==> o.st.sampleCount > s.sampleCount
    ensures r.statusRes >= 0 && r.recoverRes >= 0 ==> o.st.bw == BwOff && (s.cfg.stream == Playback ==> o.res == 0)
    ensures r.statusRes >= 0 && r.recoverRes < 0 ==> o.st == XrunAccounted(s, r) && o.res == r.recoverRes
    ensures r.statusRes >= 0 && r.recoverRes >= 0 && s.cfg.stream == Capture ==>
      (s.ring.startErr < 0 ==> o.st == XrunAccounted(s, r).(bw := BwOff) && o.res == s.ring.startErr) &&
      (s.ring.startErr >= 0 ==> o.st == XrunAccounted(s, r).(bw := BwOff, alsaStarted := true) && o.res == 0)
    ensures r.statusRes >= 0 && r.recoverRes >= 0 && s.cfg.stream == Playback ==>
      var w := WriteIdle(XrunAccounted(s, r).(bw := BwOff, alsaStarted := false), s.threshold * 2);
      o.st == w.st && o.total == w.total
  {
    if r.statusRes < 0 then Outcome(s, r.statusRes, 0)
    else
      var s1 := XrunAccounted(s, r);
      if r.recoverRes < 0 then Outcome(s1, r.recoverRes, 0)
      else
        var s2 := s1.(bw := BwOff);
        if s2.cfg.stream == Capture then
          if s2.ring.startErr < 0 then Outcome(s2, s2.ring.startErr, 0)
          else Outcome(s2.(alsaStarted := true), 0, 0)
        else
          var w := WriteIdle(s2.(alsaStarted := false), s2.threshold * 2);
          Outcome(w.st, 0, w.total)
  }

  /**
   * A playback recovery with nothing ready primes the device with silence:
   * two quanta of zeros (as many as the ring grants) are written and
   * accounted, and the device is left started exactly when any were.
   */
  lemma RecoverPrimesPlayback(s: St, r: RecoverReplies)
    requires Inv(s) && s.cfg.stream == Playback && s.q.ready == []
    requires r.statusRes >= 0 && r.recoverRes >= 0
    requires s.ring.beginErr >= 0 && s.ring.commitErr >= 0 && s.ring.startErr >= 0
    ensures var o := Recover(s, r);
      var a := SyncThreshold(XrunAccounted(s, r).(bw := BwOff, alsaStarted := false));
      var n := Min(s.threshold * 2, Granted(a, s.cfg.bufferFrames));
      o.res == 0 && o.total == n && o.st.q == s.q && o.st.alsaStarted == (n > 0) &&
      o.st.sampleCount == XrunAccounted(s, r).sampleCount + n &&
      o.st.ring.appl == s.ring.appl + n
  {
    var a := SyncThreshold(XrunAccounted(s, r).(bw := BwOff, alsaStarted := false));
    IdleTransferWritesSilence(a, s.threshold * 2);
  }

  /** The delay of a stream with `avail` frames available: queued frames on playback, captured ones on capture. */
  function DelayOf(s: St, avail: nat): (d: int)
    ensures avail <= s.cfg.bufferFrames ==> 0 <= d <= s.cfg.bufferFrames
  {
    if s.cfg.stream == Playback then s.cfg.bufferFrames - avail else avail
  }

  datatype Status = Status(st: St, res: int, delay: int)

  /**
   * get_status: the delay, recovering once when snd_pcm_avail fails. A
   * query that succeeds leaves the state alone; otherwise the recovery
   * accounts an xrun's lost frames (at least one quantum's worth when the
   * quantum is non-empty) and resets the timing loop.
   */
  function GetStatus(s: St, r: StatusReplies): (g: Status)
    requires Inv(s)
    ensures Inv(g.st) && g.st.cfg == s.cfg && g.res <= 0 && SameMode(g.st, s)
    ensures s.cfg.stream == Capture ==> g.st.q == s.q
    ensures s.cfg.stream == Playback ==> Played(s.q, g.st.q)
    ensures r.avail >= 0 ==> g.st == s && g.res == 0 && g.delay == DelayOf(s, r.avail)
    ensures r.avail < 0 && r.recovery.statusRes >= 0 && r.recovery.xrun && s.threshold > 0 ==>
              g.st.sampleCount > s.sampleCount
    ensures r.avail < 0 && r.recovery.statusRes >= 0 && r.recovery.recoverRes >= 0 ==> g.st.bw == BwOff
    ensures g.res < 0 ==> g.delay == 0
  {
    if r.avail >= 0 then Status(s, 0, DelayOf(s, r.avail))
    else
      var o := Recover(s, r.recovery);
      if o.res < 0 then Status(o.st, o.res, 0)
      else if r.availAgain < 0 then Status(o.st, r.availAgain, 0)
      else Status(o.st, 0, DelayOf(o.st, r.availAgain))
  }

  // ---------------------------------------------------------------------
  // The timing loop and the slaved playback write
  // ---------------------------------------------------------------------

  /** How far the loop has narrowed: 0 after init_loop, then 1, 2, 3. */
  function Stage(b: Bandwidth): (n: nat)
    ensures n <= 3 && (n == 0 <==> b == BwOff) && (n == 3 <==> b == BwMin)
  {
    match b
    case BwOff => 0
    case BwMax => 1
    case BwMed => 2
    case BwMin => 3
  }

  /**
   * update_time's effect on the integer state. A reset loop restarts at
   * BW_MAX; when a period of the loop has elapsed (`elapsed`) the bandwidth
   * narrows one stage, down to BW_MIN; the quantum in force becomes
   * last_threshold. Nothing else changes.
   */
  function UpdateTime(s: St, elapsed: bool): (r: St)
    ensures r == s.(bw := r.bw, lastThreshold := s.threshold)
    ensures r.cfg == s.cfg && r.q == s.q && SameMode(r, s)
    ensures r.bw != BwOff && Stage(s.bw) <= Stage(r.bw)
    ensures !elapsed ==> Stage(r.bw) == Max(Stage(s.bw), 1)
    ensures elapsed ==> Stage(r.bw) == if s.bw == BwMin then 3 else Max(Stage(s.bw), 1) + 1
  {
    var bw := if s.bw == BwOff then BwMax else s.bw;
    var narrowed := if !elapsed then bw else if bw == BwMax then BwMed else if bw == BwMed then BwMin else bw;
    s.(bw := narrowed, lastThreshold := s.threshold)
  }

  /** `n` wakeups whose periods all elapsed. */
  function Settle(s: St, n: nat): (r: St)
    ensures r.cfg == s.cfg && r.q == s.q && Stage(s.bw) <= Stage(r.bw)
    ensures n > 0 ==> Stage(r.bw) >= 2
    decreases n
  {
    if n == 0 then s else Settle(UpdateTime(s, true), n - 1)
  }

  /** Whatever stage the loop is in, two elapsed periods bring it to BW_MIN, where it stays. */
  lemma {:induction false} SettleReachesMin(s: St, n: nat)
    requires n >= 2
    ensures Settle(s, n).bw == BwMin
    decreases n
  {
    if n == 2 {
      var s1 := UpdateTime(s, true);
      assert Stage(s1.bw) >= 2;
      assert Settle(s, n) == UpdateTime(s1, true);
    } else {
      SettleReachesMin(UpdateTime(s, true), n - 1);
      assert Settle(s, n) == Settle(UpdateTime(s, true), n - 1);
    }
  }

  /**
   * Move the application pointer by k frames (snd_pcm_forward for k > 0,
   * snd_pcm_rewind for k < 0): the frames the ring grants shrink or grow by
   * as much.
   */
  function Shift(s: St, k: int): (r: St)
    ensures r == s.(ring := r.ring) && r.ring == s.ring.(appl := s.ring.appl + k, room := r.ring.room)
    ensures s.ring.room - k >= 0 ==> r.ring.room == s.ring.room - k
  {
    s.(ring := s.ring.(appl := s.ring.appl + k, room := Max(s.ring.room - k, 0)))
  }

  /**
   * The playback resynchronisation of the slaved prologue. A delay of more
   * than two quanta resets the loop and requests a resync; a resync moves the
   * application pointer so that exactly one quantum stays queued ahead of
   * the hardware pointer (which sits `delay` frames behind it).
   */
  function PlaybackResync(s: St, delay: int): (r: St)
    ensures !r.alsaSync && r.cfg == s.cfg && r.q == s.q && r.threshold == s.threshold && SameMode(r, s)
    ensures delay > s.threshold * 2 ==> r.bw == BwOff
    ensures s.alsaSync || delay > s.threshold * 2 ==> r.ring.appl - (s.ring.appl - delay) == s.threshold
    ensures !s.alsaSync && delay <= s.threshold * 2 ==> r == s
  {
    var s1 := if delay > s.threshold * 2 then s.(bw := BwOff, alsaSync := true) else s;
    if s1.alsaSync then Shift(s1, s1.threshold - delay).(alsaSync := false) else s1
  }

  /**
   * spa_alsa_write. The threshold follows the clock position; a slaved stream
   * whose device runs first measures the delay (recovering if needed),
   * resynchronises and advances the timing loop, then transfers.
   */
  function Write(s: St, silence: nat, r: Replies): (o: Outcome)
    requires Inv(s) && s.cfg.stream == Playback
    ensures Inv(o.st) && o.st.cfg == s.cfg && o.res <= 0 && SameMode(o.st, s) && Played(s.q, o.st.q)
    ensures !(s.slaved && s.alsaStarted) ==> o == TransferFrom(SyncThreshold(s), silence, 0)
    ensures s.slaved && s.alsaStarted && r.status.avail >= 0 ==>
              o.st.bw != BwOff && !o.st.alsaSync && o.st.lastThreshold == o.st.threshold
  {
    var s1 := SyncThreshold(s);
    if s1.slaved && s1.alsaStarted then SlavedWrite(s1, silence, r) else TransferFrom(s1, silence, 0)
  }

  /** The slaved branch of spa_alsa_write: measure the delay, resynchronise, advance the loop, transfer. */
  function SlavedWrite(s: St, silence: nat, r: Replies): (o: Outcome)
    requires Inv(s) && s.cfg.stream == Playback
    ensures Inv(o.st) && o.st.cfg == s.cfg && o.res <= 0 && SameMode(o.st, s) && Played(s.q, o.st.q)
    ensures r.status.avail >= 0 ==> o.st.bw != BwOff && !o.st.alsaSync && o.st.lastThreshold == o.st.threshold
  {
    var g := GetStatus(s, r.status);
    if g.res < 0 then Outcome(g.st, g.res, 0)
    else
      var s1 := PlaybackResync(g.st, g.delay);
      var s2 := UpdateTime(s1, r.elapsed);
      assert Inv(s2) && s2.q == g.st.q && SameMode(s2, s) && s2.cfg == s.cfg;
      var o := TransferFrom(s2, silence, 0);
      SuffixTrans(o.st.q.ready, g.st.q.ready, s.q.ready);
      o
  }

  // ---------------------------------------------------------------------
  // Capture: push_frames and spa_alsa_read
  // ---------------------------------------------------------------------

  /**
   * The bytes push_frames puts into a capture buffer: `l0` bytes from the
   * mapped offset `src`, followed by the remaining `n - l0` from the start of
   * the ring, where the capture wrapped around. The rest of the buffer keeps
   * its old contents.
   */
  function CaptureCopy(mem: seq<int>, area: seq<int>, src: nat, l0: nat, n: nat): (r: seq<int>)
    requires l0 <= n <= |mem|
    ensures |r| == |mem| && r[n..] == mem[n..]
    ensures forall k :: 0 <= k < l0 ==> r[k] == At(area, src + k)
    ensures forall k :: l0 <= k < n ==> r[k] == At(area, k - l0)
  {
    Overwrite(mem, 0, Window(area, src, l0) + Window(area, 0, n - l0))
  }

  /** push_frames as written: the wrapped-around part is also copied to the start of the buffer. */
  function CaptureCopyAsWritten(mem: seq<int>, area: seq<int>, src: nat, l0: nat, n: nat): (r: seq<int>)
    requires l0 <= n <= |mem|
    ensures |r| == |mem|
  {
    var m := Overwrite(mem, 0, Window(area, src, l0));
    if n - l0 > 0 then Overwrite(m, 0, Window(area, 0, n - l0)) else m
  }

  /** Without a wrap-around the two copies agree. */
  lemma CaptureCopiesAgreeWithoutWrap(mem: seq<int>, area: seq<int>, src: nat, n: nat)
    requires n <= |mem|
    ensures CaptureCopyAsWritten(mem, area, src, n, n) == CaptureCopy(mem, area, src, n, n)
  {
    assert Window(area, src, n) + Window(area, 0, 0) == Window(area, src, n);
  }

  /**
   * As written, a wrapped capture overwrites the first bytes it copied and
   * leaves the bytes after them holding whatever the buffer held before:
   * position k of the buffer, which should receive ring byte k - l0, keeps
   * its old value whenever k is at least the wrapped length.
   */
  lemma AsWrittenCaptureKeepsStaleBytes(mem: seq<int>, area: seq<int>, src: nat, l0: nat, n: nat, k: nat)
    requires l0 <= n <= |mem| && l0 <= k < n && n - l0 <= k
    ensures CaptureCopyAsWritten(mem, area, src, l0, n)[k] == mem[k]
    ensures CaptureCopy(mem, area, src, l0, n)[k] == At(area, k - l0)
  {
  }

  /** A ring of four bytes read from its last byte for two bytes: as written the buffer gets [1, 0], not [4, 1]. */
  lemma AsWrittenCaptureExample()
    ensures CaptureCopyAsWritten([0, 0], [1, 2, 3, 4], 3, 1, 2) == [1, 0]
    ensures CaptureCopy([0, 0], [1, 2, 3, 4], 3, 1, 2) == [4, 1]
  {
    var w := Window([1, 2, 3, 4], 3, 1);
    assert w[0] == 4;
    var m := Overwrite([0, 0], 0, w);
    assert m[0] == 4 && m[1] == 0;
    var w1 := Window([1, 2, 3, 4], 0, 1);
    assert w1[0] == 1;
    var r := Overwrite(m, 0, w1);
    assert r[0] == 1 && r[1] == 0;
    assert r == [1, 0];
    var c := CaptureCopy([0, 0], [1, 2, 3, 4], 3, 1, 2);
    assert c[0] == 4 && c[1] == 1;
    assert c == [4, 1];
  }

  /** The whole frames of `fs` bytes that fit in `maxsize` bytes, at most one quantum of them. */
  function FitFrames(maxsize: nat, fs: nat, threshold: nat): (n: nat)
    requires fs > 0
    ensures n <= threshold && Bytes(n, fs) <= maxsize
    ensures n < threshold ==> maxsize < Bytes(n, fs) + fs
  {
    var total := Min(Frames(maxsize, fs), threshold);
    assert Bytes(total, fs) <= maxsize && (total < threshold ==> maxsize < Bytes(total, fs) + fs) by {
      FramesFit(maxsize, fs);
      BytesMono(total, Frames(maxsize, fs), fs);
    }
    total
  }

  /** The header push_frames writes: this cycle's sample count and time, no dts offset; the flags are kept. */
  function Stamp(h: Option<Header>, seqNum: nat, now: int): (r: Option<Header>)
    ensures r.Some? <==> h.Some?
    ensures h.Some? ==> r.value.flags == h.value.flags && r.value.seqNum == seqNum && r.value.pts == now
                        && r.value.dtsOffset == 0
  {
    match h
    case Some(v) => Some(v.(seqNum := seqNum, pts := now, dtsOffset := 0))
    case None => None
  }

  /** A capture buffer filled by push_frames, and the frames it reports. */
  datatype Filled = Filled(b: Buffer, frames: nat)

  /**
   * How push_frames fills one free buffer: the header of this cycle, as
   * many whole frames as fit in it up to one quantum, copied from the ring
   * at frame `from` (of which `frames` are contiguous there) or zeros when
   * nothing is mapped, a chunk describing them, and the OUT flag.
   */
  function Fill(b0: Buffer, area: seq<int>, from: Option<nat>, frames: nat, s: St, now: int): (f: Filled)
    requires s.cfg.frameSize > 0 && |b0.buf.data.mem| == b0.buf.data.maxsize
    ensures var fs := s.cfg.frameSize;
      var n := Bytes(f.frames, fs);
      var d := f.b.buf.data;
      f.frames == FitFrames(b0.buf.data.maxsize, fs, s.threshold) && f.b.out && f.b.buf.id == b0.buf.id
      && d == b0.buf.data.(chunk := Chunk(0, n, fs), mem := d.mem) && |d.mem| == d.maxsize
      && f.b.buf.header == Stamp(b0.buf.header, s.sampleCount, now)
  {
    var fs := s.cfg.frameSize;
    var d := b0.buf.data;
    var total := FitFrames(d.maxsize, fs, s.threshold);
    var n := Bytes(total, fs);
    var mem := match from
      case Some(off) => CaptureCopy(d.mem, area, Bytes(off, fs), Min(n, Bytes(frames, fs)), n)
      case None => Overwrite(d.mem, 0, Zeros(n));
    Filled(Buffer(b0.buf.(data := d.(chunk := Chunk(0, n, fs), mem := mem),
                          header := Stamp(b0.buf.header, s.sampleCount, now)), true), total)
  }

  /**
   * The bytes push_frames leaves in the filled buffer: zeros without a
   * mapped area, otherwise the circular copy from frame `from`, wrapping to
   * the start of the ring after `frames` frames; the memory past them is
   * unchanged.
   */
  lemma FillContents(b0: Buffer, area: seq<int>, from: Option<nat>, frames: nat, s: St, now: int)
    requires s.cfg.frameSize > 0 && |b0.buf.data.mem| == b0.buf.data.maxsize
    ensures var f := Fill(b0, area, from, frames, s, now);
      var fs := s.cfg.frameSize;
      var n := Bytes(f.frames, fs);
      var d := f.b.buf.data;
      n <= |d.mem| && n <= |b0.buf.data.mem|
      && d.mem[n..] == b0.buf.data.mem[n..]
      && (from.None? ==> forall k :: 0 <= k < n ==> d.mem[k] == 0)
      && (from.Some? ==> forall k :: 0 <= k < n ==>
            d.mem[k] == if k < Bytes(frames, fs) then At(area, Bytes(from.value, fs) + k) else At(area, k - Bytes(frames, fs)))
  {
  }

  /** A capture queue after push_frames, and the frames it reports. */
  datatype Pushed = Pushed(q: Queue, frames: nat)

  /**
   * push_frames: with no free buffer the quantum is dropped (and counted);
   * otherwise the head free buffer is filled and moves to the end of the
   * ready list. No buffer is lost or duplicated between the two lists.
   */
  function PushFrames(s: St, from: Option<nat>, frames: nat, now: int): (p: Pushed)
    requires Inv(s) && s.cfg.stream == Capture
    ensures QInv(p.q, false) && |p.q.buffers| == |s.q.buffers| && Captured(s.q, p.q)
    ensures s.q.free == [] ==> p.q == s.q && p.frames == s.threshold
    ensures s.q.free != [] ==> p.q.ready == s.q.ready + [s.q.free[0]] && p.frames <= s.threshold
  {
    if s.q.free == [] then Pushed(s.q, s.threshold)
    else
      var id := s.q.free[0];
      var f := Fill(s.q.buffers[id], s.ring.area, from, frames, s, now);
      assert s.q.free == [id] + s.q.free[1..];
      assert (s.q.ready + [id])[..|s.q.ready|] == s.q.ready;
      Pushed(s.q.(buffers := s.q.buffers[id := f.b], free := s.q.free[1..], ready := s.q.ready + [id]), f.frames)
  }

  /** The buffer push_frames takes from the free list is the one filled, and no other buffer changes. */
  lemma PushFramesFillsHead(s: St, from: Option<nat>, frames: nat, now: int)
    requires Inv(s) && s.cfg.stream == Capture && s.q.free != []
    ensures var id := s.q.free[0];
      var f := Fill(s.q.buffers[id], s.ring.area, from, frames, s, now);
      var p := PushFrames(s, from, frames, now);
      p.q == s.q.(buffers := s.q.buffers[id := f.b], free := s.q.free[1..], ready := s.q.ready + [id])
      && p.frames == f.frames
  {
  }

  /**
   * The clock-position prologue of spa_alsa_read: the threshold follows the
   * quantum, and a clock position that does not continue from the last one
   * by the last quantum (after the first) requests a resync.
   */
  function FollowPosition(s: St): (r: St)
    ensures r == s.(threshold := r.threshold, alsaSync := r.alsaSync, lastPosition := r.lastPosition)
    ensures s.position.None? ==> r == s
    ensures s.position.Some? ==> r.threshold == s.position.value.size && r.lastPosition == s.position.value.clockPosition
    ensures s.position.Some? ==>
      (r.alsaSync <==> s.alsaSync || (s.lastPosition != 0 && s.lastPosition + s.lastThreshold != s.position.value.clockPosition))
  {
    match s.position
    case None => s
    case Some(p) =>
      var discont := s.lastPosition != 0 && s.lastPosition + s.lastThreshold != p.clockPosition;
      s.(threshold := p.size, alsaSync := s.alsaSync || discont, lastPosition := p.clockPosition)
  }

  /**
   * The transfer of spa_alsa_read: map at most one quantum, push it into a
   * free buffer, commit what was mapped and count the frames pushed. A
   * commit error other than an xrun is returned before the count.
   */
  function ReadFrames(s: St, now: int): (o: Outcome)
    requires Inv(s) && s.cfg.stream == Capture
    ensures Inv(o.st) && o.st.cfg == s.cfg && SameTiming(o.st, s) && o.res <= 0 && o.st.alsaStarted == s.alsaStarted
    ensures Captured(s.q, o.st.q)
    ensures o.res == 0 ==> o.st.sampleCount == s.sampleCount + o.total
    ensures o.res < 0 ==> o.st.sampleCount == s.sampleCount
    ensures s.ring.beginErr >= 0 && s.q.free != [] ==> o.st.q.ready == s.q.ready + [s.q.free[0]] && o.total <= s.threshold
  {
    if s.ring.beginErr < 0 then
      CapturedRefl(s.q);
      Outcome(s, s.ring.beginErr, 0)
    else
      var frames := Min(Granted(s, s.cfg.bufferFrames), s.threshold);
      var p := PushFrames(s, Some(Offset(s)), frames, now);
      CommitRead(s.(q := p.q), frames, p.frames)
  }

  /** The end of spa_alsa_read: commit the mapped frames, then count the frames pushed. */
  function CommitRead(s: St, frames: nat, pushed: nat): (o: Outcome)
    ensures o.st.cfg == s.cfg && o.st.q == s.q && SameTiming(o.st, s) && o.res <= 0 && o.st.alsaStarted == s.alsaStarted
    ensures o.total == pushed
    ensures o.res == 0 ==> o.st.sampleCount == s.sampleCount + pushed
    ensures o.res < 0 ==> o.st.sampleCount == s.sampleCount
  {
    if FatalCommit(s) then Outcome(s, s.ring.commitErr, pushed)
    else
      var s1 := Commit(s, frames);
      Outcome(s1.(sampleCount := s1.sampleCount + pushed), 0, pushed)
  }

  /**
   * spa_alsa_read. A slaved stream whose device runs measures the delay
   * first: with less than a quantum captured it resets the loop, fills a
   * buffer with silence and returns without counting it; otherwise it skips
   * ahead to exactly one quantum when a resync is pending and advances the
   * timing loop before the transfer.
   */
  function Read(s: St, r: Replies, now: int): (o: Outcome)
    requires Inv(s) && s.cfg.stream == Capture
    ensures Inv(o.st) && o.st.cfg == s.cfg && o.res <= 0 && Captured(s.q, o.st.q)
    ensures s.position.Some? ==> o.st.lastPosition == s.position.value.clockPosition
    ensures !(s.slaved && s.alsaStarted) ==> o == ReadFrames(FollowPosition(s), now)
    ensures s.slaved && s.alsaStarted && 0 <= r.status.avail < FollowPosition(s).threshold ==>
              o.res == 0 && o.st.bw == BwOff && o.st.sampleCount == s.sampleCount
    ensures s.slaved && s.alsaStarted && r.status.avail >= FollowPosition(s).threshold ==>
              !o.st.alsaSync && o.st.bw != BwOff
  {
    var s1 := FollowPosition(s);
    if s1.slaved && s1.alsaStarted then
      var threshold := s1.threshold;
      var g := GetStatus(s1, r.status);
      if g.res < 0 then
        CapturedRefl(s.q);
        Outcome(g.st, g.res, 0)
      else if g.delay < threshold then
        var st := g.st.(bw := BwOff);
        assert st.q == s.q;
        var p := PushFrames(st, None, 0, now);
        Outcome(st.(q := p.q), 0, 0)
      else
        var st := if g.st.alsaSync then Shift(g.st, g.delay - threshold).(alsaSync := false) else g.st;
        ReadFrames(UpdateTime(st, r.elapsed), now)
    else ReadFrames(s1, now)
  }

  // ---------------------------------------------------------------------
  // Timer wakeups
  // ---------------------------------------------------------------------

  /**
   * handle_play: a wakeup with more than two quanta still queued is early
   * and only reschedules; otherwise the timing loop advances, the fill level
   * becomes the measured delay, and either the peer is asked for a buffer
   * (its ready callback's result is returned) or the ready buffers are
   * written.
   */
  function HandlePlay(s: St, delay: int, elapsed: bool, readyRes: int, r: Replies): (o: Outcome)
    requires Inv(s) && s.cfg.stream == Playback
    ensures Inv(o.st) && o.st.cfg == s.cfg
    ensures delay > s.lastThreshold * 2 ==> o.st == s && o.res == -EAGAIN
    ensures delay <= s.lastThreshold * 2 && s.q.ready == [] ==>
      o.res == readyRes && o.st.q.io.status == STATUS_NEED_BUFFER && o.st.fillLevel == delay
      && o.st.q.ready == [] && o.st.bw != BwOff && o.st.lastThreshold == s.threshold
    ensures delay <= s.lastThreshold * 2 && s.q.ready != [] ==> o.res <= 0 && Suffix(o.st.q.ready, s.q.ready)
  {
    if delay > s.lastThreshold * 2 then Outcome(s, -EAGAIN, 0)
    else
      var s1 := UpdateTime(s, elapsed).(fillLevel := delay);
      if s1.q.ready == [] then
        Outcome(s1.(q := s1.q.(io := s1.q.io.(status := STATUS_NEED_BUFFER))), readyRes, 0)
      else Write(s1, 0, r)
  }

  /**
   * handle_capture: a wakeup with less than a quantum captured is early and
   * only reschedules; otherwise the timing loop advances and a read runs.
   * When buffers are then ready and the io slot does not already hold one,
   * the head ready buffer is handed to the peer through the slot. A buffer
   * the slot holds is never replaced before the peer takes it.
   */
  function HandleCapture(s: St, delay: int, elapsed: bool, r: Replies, now: int): (o: Outcome)
    requires Inv(s) && s.cfg.stream == Capture
    ensures Inv(o.st) && o.st.cfg == s.cfg && o.res <= 0
    ensures delay < s.lastThreshold ==> o.st == s && o.res == 0
    ensures s.q.io.status == STATUS_HAVE_BUFFER ==> o.st.q.io == s.q.io
    ensures o.st.q.io != s.q.io ==>
      o.st.q.io.status == STATUS_HAVE_BUFFER && o.st.q.io.bufferId < |o.st.q.buffers|
      && multiset(o.st.q.free + o.st.q.ready + [o.st.q.io.bufferId]) == multiset(s.q.free + s.q.ready)
    ensures o.st.q.io == s.q.io ==> Captured(s.q, o.st.q)
  {
    if delay < s.lastThreshold then Outcome(s, 0, 0)
    else
      var s0 := UpdateTime(s, elapsed);
      assert s0.q == s.q && s0.cfg == s.cfg && Inv(s0);
      var o := Read(s0, r, now);
      assert Inv(o.st) && o.st.cfg == s.cfg && Captured(s.q, o.st.q) && o.st.q.io == s.q.io;
      if o.res < 0 then o
      else if o.st.q.ready != [] && o.st.q.io.status != STATUS_HAVE_BUFFER then
        var st := o.st.(q := HandOut(o.st.q));
        assert Inv(st) && st.cfg == s.cfg && st.q.io != s.q.io;
        Outcome(st, 0, o.total)
      else o
  }

  /** The head ready buffer leaves the list for the io slot, which now holds it. */
  function HandOut(q: Queue): (r: Queue)
    requires q.ready != [] && QInv(q, false)
    ensures QInv(r, false) && r.buffers == q.buffers && r.free == q.free && r.ready == q.ready[1..]
    ensures r.io == IoBuffers(STATUS_HAVE_BUFFER, q.ready[0]) && r.io.bufferId < |r.buffers|
    ensures multiset(r.free + r.ready + [r.io.bufferId]) == multiset(q.free + q.ready)
  {
    assert q.free + q.ready == q.free + [q.ready[0]] + q.ready[1..];
    q.(ready := q.ready[1..], io := IoBuffers(STATUS_HAVE_BUFFER, q.ready[0]))
  }

  /** What the device and the peer answer during one timer wakeup. */
  datatype Wakeup = Wakeup(status: StatusReplies, elapsed: bool, readyRes: int, transfer: Replies, now: int)

  /**
   * alsa_on_timeout_event: the threshold follows the clock position, the
   * delay is measured (the wakeup ends quietly if that fails), and the
   * stream's handler runs with it.
   */
  function OnTimeout(s: St, w: Wakeup): (o: Outcome)
    requires Inv(s)
    ensures Inv(o.st) && o.st.cfg == s.cfg
    ensures w.status.avail >= 0 ==>
      var s1 := SyncThreshold(s);
      var delay := DelayOf(s, w.status.avail);
      o == if s.cfg.stream == Playback then HandlePlay(s1, delay, w.elapsed, w.readyRes, w.transfer)
           else HandleCapture(s1, delay, w.elapsed, w.transfer, w.now)
  {
    var s1 := SyncThreshold(s);
    var g := GetStatus(s1, w.status);
    assert w.status.avail >= 0 ==> g.st == s1 && g.res == 0 && g.delay == DelayOf(s, w.status.avail);
    if g.res < 0 then Outcome(g.st, g.res, 0)
    else if s.cfg.stream == Playback then HandlePlay(g.st, g.delay, w.elapsed, w.readyRes, w.transfer)
    else HandleCapture(g.st, g.delay, w.elapsed, w.transfer, w.now)
  }

  // ---------------------------------------------------------------------
  // Start, pause and reslave
  // ---------------------------------------------------------------------

  /**
   * reset_buffers: both lists emptied; on playback every buffer is flagged
   * OUT (it belongs to the peer), on capture every buffer is free, in table
   * order, and none is OUT.
   */
  function ResetQueue(q: Queue, stream: Stream): (r: Queue)
    ensures r == q.(buffers := r.buffers, free := r.free, ready := [])
    ensures |r.buffers| == |q.buffers| && forall k :: 0 <= k < |q.buffers| ==> r.buffers[k].buf == q.buffers[k].buf
    ensures stream == Playback ==> r.free == [] && forall k :: 0 <= k < |q.buffers| ==> r.buffers[k].out
    ensures stream == Capture ==> r.free == Indices(|q.buffers|) && forall k :: 0 <= k < |q.buffers| ==> !r.buffers[k].out
  {
    var out := stream == Playback;
    var bufs := seq(|q.buffers|, k requires 0 <= k < |q.buffers| => q.buffers[k].(out := out));
    q.(buffers := bufs, free := if out then [] else Indices(|q.buffers|), ready := [])
  }

  /**
   * After a reset every buffer is accounted for exactly once: either it is
   * on the free list (once) or it is OUT with the peer, never both.
   */
  lemma ResetAccountsEveryBuffer(q: Queue, stream: Stream, id: nat)
    requires id < |q.buffers|
    ensures var r := ResetQueue(q, stream);
      NoDup(r.free) && (id in r.free <==> !r.buffers[id].out) && multiset(r.free)[id] <= 1
  {
    var r := ResetQueue(q, stream);
    if stream == Capture {
      assert r.free[id] == id;
      assert multiset(r.free)[id] == 1 by {
        IndicesCount(|q.buffers|, id);
      }
    }
  }

  /** Each index below n occurs once in Indices(n). */
  lemma {:induction false} IndicesCount(n: nat, id: nat)
    requires id < n
    ensures multiset(Indices(n))[id] == 1
  {
    if n == id + 1 {
      assert Indices(n) == Indices(id) + [id];
      assert id !in multiset(Indices(id));
    } else {
      IndicesCount(n - 1, id);
      assert Indices(n) == Indices(n - 1) + [n - 1];
    }
  }

  /** is_slaved: the stream follows a clock position whose driving clock is not its own. */
  predicate IsSlaved(s: St) {
    s.position.Some? && s.clockId.Some? && s.position.value.clockId != s.clockId.value
  }

  /** The results of the device calls spa_alsa_start makes: set_swparams and snd_pcm_prepare. */
  datatype StartReplies = StartReplies(swparamsRes: int, prepareRes: int)

  /**
   * spa_alsa_start. A started stream is left alone. Otherwise the quantum is
   * the clock position's or props.min_latency, the scheduling mode is taken
   * from the clocks, the timing loop and the fill level are reset, the
   * device is configured and prepared (failures are returned), the buffers
   * are reset and a resync is requested. Playback primes the device with
   * two quanta of silence; capture starts it. The io slot is cleared and the
   * stream is started.
   */
  function Start(s: St, r: StartReplies): (o: Outcome)
    requires Inv(s)
    ensures Inv(o.st) && o.st.cfg == s.cfg && o.res <= 0
    ensures s.started ==> o.st == s && o.res == 0
    ensures !s.started ==>
      var thr := if s.position.Some? then s.position.value.size else s.cfg.minLatency;
      o.st.threshold == thr && o.st.lastThreshold == thr && o.st.slaved == IsSlaved(s)
    ensures !s.started && o.res == 0 ==>
      o.st.started && o.st.q.io == IoBuffers(STATUS_OK, ID_INVALID) && o.st.alsaSync && o.st.bw == BwOff
      && (s.cfg.stream == Capture ==> o.st.alsaStarted && o.st.q.ready == [] && o.st.q.free == Indices(|s.q.buffers|))
    ensures o.res < 0 ==> !o.st.started
  {
    if s.started then Outcome(s, 0, 0)
    else
      var s1 := StartSetup(s);
      if r.swparamsRes < 0 then Outcome(s1, r.swparamsRes, 0)
      else if r.prepareRes < 0 then Outcome(s1, r.prepareRes, 0)
      else StartDevice(s1.(q := ResetQueue(s1.q, s1.cfg.stream), alsaSync := true))
  }

  /**
   * The first part of spa_alsa_start: the quantum (the clock position's, or
   * props.min_latency), the scheduling mode, and a reset timing loop and
   * fill level.
   */
  function StartSetup(s: St): (r: St)
    ensures r == s.(threshold := r.threshold, slaved := IsSlaved(s), lastThreshold := r.threshold, fillLevel := 0, bw := BwOff)
    ensures r.threshold == if s.position.Some? then s.position.value.size else s.cfg.minLatency
  {
    var thr := if s.position.Some? then s.position.value.size else s.cfg.minLatency;
    s.(threshold := thr, slaved := IsSlaved(s), lastThreshold := thr, fillLevel := 0, bw := BwOff)
  }

  /**
   * The last part of spa_alsa_start, once the buffers are reset: playback
   * primes the device with two quanta of silence through spa_alsa_write;
   * capture starts the device (a failure is returned). Then the io slot is
   * cleared and the stream is started.
   */
  function StartDevice(s: St): (o: Outcome)
    requires Inv(s)
    ensures Inv(o.st) && o.st.cfg == s.cfg && o.res <= 0 && o.st.position == s.position
    ensures o.res == 0 ==> o.st.started && o.st.q.io == IoBuffers(STATUS_OK, ID_INVALID)
    ensures o.res == 0 ==> o.st.alsaSync == s.alsaSync && o.st.bw == s.bw && o.st.lastThreshold == s.lastThreshold
    ensures o.res == 0 ==> o.st.threshold == if s.cfg.stream == Playback then SyncThreshold(s).threshold else s.threshold
    ensures s.cfg.stream == Capture ==> o.st.q.ready == s.q.ready && o.st.q.free == s.q.free
    ensures s.cfg.stream == Capture && o.res == 0 ==> o.st.alsaStarted
    ensures o.res < 0 ==> o.st == s
  {
    if s.cfg.stream == Playback then
      var w := WriteIdle(s.(alsaStarted := false), s.threshold * 2);
      Outcome(w.st.(q := w.st.q.(io := IoBuffers(STATUS_OK, ID_INVALID)), started := true), 0, w.total)
    else if s.ring.startErr < 0 then Outcome(s, s.ring.startErr, 0)
    else
      var s1 := s.(alsaStarted := true);
      Outcome(s1.(q := s1.q.(io := IoBuffers(STATUS_OK, ID_INVALID)), started := true), 0, 0)
  }

  /** Starting twice is starting once: the second start finds the stream started. */
  lemma StartIsIdempotent(s: St, r: StartReplies, r2: StartReplies)
    requires Inv(s)
    ensures var o := Start(s, r);
      o.res == 0 ==> Start(o.st, r2) == Outcome(o.st, 0, 0)
  {
    var o := Start(s, r);
    if o.res == 0 && !s.started {
      assert o.st.started;
    }
  }

  /**
   * spa_alsa_pause: a started stream stops (a failing snd_pcm_drop is only
   * logged); nothing else changes, the device's started flag included.
   */
  function Pause(s: St): (o: Outcome)
    ensures o.res == 0 && !o.st.started && o.st == s.(started := false)
  {
    if !s.started then Outcome(s, 0, 0) else Outcome(s.(started := false), 0, 0)
  }

  /** spa_alsa_reslave: a started stream re-derives its scheduling mode from the clocks; nothing else changes. */
  function Reslave(s: St): (o: Outcome)
    ensures o.res == 0 && o.st == s.(slaved := o.st.slaved)
    ensures s.started ==> o.st.slaved == IsSlaved(s)
    ensures !s.started ==> o.st == s
  {
    if !s.started then Outcome(s, 0, 0)
    else if IsSlaved(s) != s.slaved then Outcome(s.(slaved := IsSlaved(s)), 0, 0)
    else Outcome(s, 0, 0)
  }
}
