/**
 * struct state of the ALSA driver as an object: the fields the data path
 * updates in place, and the operations that update them step by step
 * (the `again:` loop of spa_alsa_write, the loop of reset_buffers, and the
 * flag updates of start, pause and reslave). Each method is tied to the
 * function of AlsaPcm that specifies it through the snapshot State().
 */
module AlsaState {
  import opened Spa
  import opened AlsaPcm

  class State {
    var cfg: Config
    var position: Option<Position>
    var clockId: Option<nat>
    var threshold: nat
    var lastThreshold: nat
    var lastPosition: nat
    var started: bool
    var slaved: bool
    var alsaStarted: bool
    var alsaSync: bool
    var bw: Bandwidth
    var sampleCount: nat
    var fillLevel: int
    var q: Queue
    var ring: Ring

    /** The current value of every field. */
    function Snapshot(): St
      reads this
    {
      St(cfg, position, clockId, threshold, lastThreshold, lastPosition, started, slaved, alsaStarted, alsaSync,
         bw, sampleCount, fillLevel, q, ring)
    }

    constructor (s: St)
      ensures Snapshot() == s
    {
      cfg, position, clockId, threshold, lastThreshold := s.cfg, s.position, s.clockId, s.threshold, s.lastThreshold;
      lastPosition, started, slaved, alsaStarted, alsaSync := s.lastPosition, s.started, s.slaved, s.alsaStarted, s.alsaSync;
      bw, sampleCount, fillLevel, q, ring := s.bw, s.sampleCount, s.fillLevel, s.q, s.ring;
    }

    /** Store every field of s (in three steps, five fields at a time). */
    method Load(s: St)
      modifies this
      ensures Snapshot() == s
    {
      cfg, position, clockId, threshold, lastThreshold := s.cfg, s.position, s.clockId, s.threshold, s.lastThreshold;
      LoadFlags(s);
    }

    method LoadFlags(s: St)
      modifies this
      ensures Snapshot() == s.(cfg := old(cfg), position := old(position), clockId := old(clockId),
                               threshold := old(threshold), lastThreshold := old(lastThreshold))
    {
      lastPosition, started, slaved, alsaStarted, alsaSync := s.lastPosition, s.started, s.slaved, s.alsaStarted, s.alsaSync;
      LoadData(s);
    }

    method LoadData(s: St)
      modifies this
      ensures Snapshot() == s.(cfg := old(cfg), position := old(position), clockId := old(clockId),
                               threshold := old(threshold), lastThreshold := old(lastThreshold),
                               lastPosition := old(lastPosition), started := old(started), slaved := old(slaved),
                               alsaStarted := old(alsaStarted), alsaSync := old(alsaSync))
    {
      bw, sampleCount, fillLevel, q, ring := s.bw, s.sampleCount, s.fillLevel, s.q, s.ring;
    }

    /**
     * reset_buffers: empty both lists, then walk the buffer table, flagging
     * every buffer OUT on playback, or appending it to the free list with
     * the flag cleared on capture.
     */
    method ResetBuffers()
      modifies this
      ensures Snapshot() == old(Snapshot()).(q := ResetQueue(old(q), cfg.stream))
    {
      var out := cfg.stream == Playback;
      var bufs := q.buffers;
      var table := bufs;
      var free: seq<nat> := [];
      var i := 0;
      while i < |bufs|
        invariant 0 <= i <= |bufs| && |table| == |bufs|
        invariant forall k :: 0 <= k < i ==> table[k] == bufs[k].(out := out)
        invariant forall k :: i <= k < |bufs| ==> table[k] == bufs[k]
        invariant free == if out then [] else Indices(i)
      {
        if !out {
          free := free + [i];
        }
        table := table[i := table[i].(out := out)];
        i := i + 1;
      }
      var r := ResetQueue(q, cfg.stream);
      assert table == r.buffers;
      q := q.(buffers := table, free := free, ready := []);
    }

    /** The transfer part of spa_alsa_write, on the fields. */
    method Transfer(silence: nat) returns (res: int, total: nat)
      requires Inv(Snapshot()) && cfg.stream == Playback
      modifies this
      ensures var o := TransferFrom(old(Snapshot()), silence, 0);
        Snapshot() == o.st && res == o.res && total == o.total
    {
      var o := AlsaPcm.Transfer(Snapshot(), silence);
      Load(o.st);
      res, total := o.res, o.total;
    }

    /** spa_alsa_write: follow the clock position, run the slaved prologue, then transfer. */
    method Write(silence: nat, r: Replies) returns (res: int)
      requires Inv(Snapshot()) && cfg.stream == Playback
      modifies this
      ensures var o := AlsaPcm.Write(old(Snapshot()), silence, r);
        Snapshot() == o.st && res == o.res
    {
      if position.Some? {
        threshold := position.value.size;
      }
      assert Snapshot() == SyncThreshold(old(Snapshot()));
      if slaved && alsaStarted {
        var g := GetStatus(Snapshot(), r.status);
        if g.res < 0 {
          Load(g.st);
          return g.res;
        }
        Load(UpdateTime(PlaybackResync(g.st, g.delay), r.elapsed));
      }
      var total;
      res, total := Transfer(silence);
    }

    /** spa_alsa_pause: a started stream stops; nothing else changes. */
    method Pause() returns (res: int)
      modifies this
      ensures Snapshot() == AlsaPcm.Pause(old(Snapshot())).st && res == 0
      ensures !started
    {
      if started {
        started := false;
      }
      return 0;
    }

    /** spa_alsa_reslave: a started stream re-derives its scheduling mode. */
    method Reslave() returns (res: int)
      modifies this
      ensures Snapshot() == AlsaPcm.Reslave(old(Snapshot())).st && res == 0
    {
      if !started {
        return 0;
      }
      var now := IsSlaved(Snapshot());
      if now != slaved {
        slaved := now;
      }
      return 0;
    }

    /**
     * spa_alsa_start: set up the quantum, the scheduling mode and the timing
     * loop, configure and prepare the device, reset the buffers, then prime
     * (playback) or start (capture) the device and clear the io slot.
     */
    method Start(r: StartReplies) returns (res: int)
      requires Inv(Snapshot())
      modifies this
      ensures var o := AlsaPcm.Start(old(Snapshot()), r);
        Snapshot() == o.st && res == o.res
    {
      if started {
        return 0;
      }
      SetUp();
      if r.swparamsRes < 0 {
        return r.swparamsRes;
      }
      if r.prepareRes < 0 {
        return r.prepareRes;
      }
      ResetBuffers();
      alsaSync := true;
      res := StartDevice();
    }

    /** The quantum, the scheduling mode, and a reset timing loop and fill level. */
    method SetUp()
      modifies this
      ensures Snapshot() == StartSetup(old(Snapshot()))
    {
      threshold := if position.Some? then position.value.size else cfg.minLatency;
      slaved := IsSlaved(Snapshot());
      lastThreshold := threshold;
      fillLevel := 0;
      bw := BwOff;
    }

    /** Prime (playback) or start (capture) the device, then clear the io slot and mark the stream started. */
    method StartDevice() returns (res: int)
      requires Inv(Snapshot())
      modifies this
      ensures var o := AlsaPcm.StartDevice(old(Snapshot()));
        Snapshot() == o.st && res == o.res
    {
      if cfg.stream == Playback {
        res := StartPlayback();
        return;
      }
      if ring.startErr < 0 {
        return ring.startErr;
      }
      alsaStarted := true;
      q := q.(io := IoBuffers(STATUS_OK, ID_INVALID));
      started := true;
      return 0;
    }

    /** The playback branch of StartDevice: prime, then clear the io slot and mark the stream started. */
    method StartPlayback() returns (res: int)
      requires Inv(Snapshot()) && cfg.stream == Playback
      modifies this
      ensures var o := AlsaPcm.StartDevice(old(Snapshot()));
        Snapshot() == o.st && res == o.res
    {
      ghost var w := WriteIdle(Snapshot().(alsaStarted := false), threshold * 2);
      var written, total := Prime();
      assert Snapshot() == w.st;
      q := q.(io := IoBuffers(STATUS_OK, ID_INVALID));
      started := true;
      return 0;
    }

    /** Playback priming: spa_alsa_write with two quanta of silence, on a device not yet started. */
    method Prime() returns (res: int, total: nat)
      requires Inv(Snapshot()) && cfg.stream == Playback
      modifies this
      ensures var o := WriteIdle(old(Snapshot()).(alsaStarted := false), old(threshold) * 2);
        Snapshot() == o.st && res == o.res && total == o.total
    {
      var silence := threshold * 2;
      alsaStarted := false;
      if position.Some? {
        threshold := position.value.size;
      }
      assert Snapshot() == SyncThreshold(old(Snapshot()).(alsaStarted := false));
      res, total := Transfer(silence);
    }
  }
}
