/**
 * The Bluetooth device object: it walks the transports of a Bluetooth
 * device and, for every transport whose profile the device has connected,
 * announces the node objects (A2DP source or sink, SCO source and sink) that
 * the graph should create, each under a fresh object id.
 *
 * Profiles are the bits of enum spa_bt_profile (its header is not part of
 * this model); a transport's `profile` may hold any bit pattern.
 */
module Bluez5Device {
  import opened Spa

  const PROFILE_A2DP_SINK: bv32 := 1
  const PROFILE_A2DP_SOURCE: bv32 := 2
  const PROFILE_HSP_HS: bv32 := 4
  const PROFILE_HSP_AG: bv32 := 8
  const PROFILE_HFP_HF: bv32 := 16
  const PROFILE_HFP_AG: bv32 := 32

  /** The node factories a device object can name. */
  datatype Factory = A2dpSourceFactory | A2dpSinkFactory | ScoSourceFactory | ScoSinkFactory

  /** spa_bt_transport: its name and profile. */
  datatype Transport = Transport(name: string, profile: bv32)

  /** spa_bt_device: its transport list, in list order, and the profiles it has connected. */
  datatype BtDevice = BtDevice(transports: seq<Transport>, connected: bv32)

  /**
   * spa_device_object_info as emitted: the object id, the factory, the node
   * name (the transport's) and the transport it wraps, by its list position
   * (the source passes the transport pointer as a property).
   */
  datatype ObjectInfo = ObjectInfo(id: nat, factory: Factory, name: string, transport: nat)

  /** The device info announced to a new listener: media.class and no params. */
  datatype DeviceInfo = DeviceInfo(mediaClass: string, nParams: nat)

  datatype InterfaceType = DeviceInterface

  /** A support item given to impl_init, by the interface it provides. */
  datatype Support = LogSupport | MainLoopSupport | OtherSupport

  /** An item of the info dictionary; `device` is what sscanf("%p") reads from its value, None when it reads nothing. */
  datatype InfoItem = InfoItem(key: string, device: Option<BtDevice>)

  /** A transport takes part when its profile shares a bit with the connected profiles. */
  predicate IsConnected(t: Transport, connected: bv32) {
    t.profile & connected != 0
  }

  predicate IsA2dp(profile: bv32) {
    profile == PROFILE_A2DP_SOURCE || profile == PROFILE_A2DP_SINK
  }

  /** The headset and hands-free profiles, which get an SCO source and an SCO sink. */
  predicate IsHeadset(profile: bv32) {
    profile == PROFILE_HSP_HS || profile == PROFILE_HSP_AG || profile == PROFILE_HFP_HF || profile == PROFILE_HFP_AG
  }

  /**
   * The factories the switch of emit_nodes picks for a profile, in emission
   * order; None for a profile it has no case for.
   */
  function Factories(profile: bv32): (r: Option<seq<Factory>>)
    ensures r.Some? <==> IsA2dp(profile) || IsHeadset(profile)
    ensures r.Some? ==> 1 <= |r.value| <= 2
    ensures profile == PROFILE_A2DP_SOURCE ==> r == Some([A2dpSourceFactory])
    ensures profile == PROFILE_A2DP_SINK ==> r == Some([A2dpSinkFactory])
    ensures IsHeadset(profile) ==> r == Some([ScoSourceFactory, ScoSinkFactory])
  {
    if profile == PROFILE_A2DP_SOURCE then Some([A2dpSourceFactory])
    else if profile == PROFILE_A2DP_SINK then Some([A2dpSinkFactory])
    else if IsHeadset(profile) then
      Some([ScoSourceFactory, ScoSinkFactory])
    else None
  }

  /** The objects emit_node emits for transport `k`, one per factory, with ids from `next` on. */
  function Objects(t: Transport, k: nat, fs: seq<Factory>, next: nat): (r: seq<ObjectInfo>)
    ensures |r| == |fs|
    ensures forall i :: 0 <= i < |r| ==> r[i] == ObjectInfo(next + i, fs[i], t.name, k)
  {
    seq(|fs|, i requires 0 <= i < |fs| => ObjectInfo(next + i, fs[i], t.name, k))
  }

  /** The transports whose profile shares a bit with the connected profiles, by list position. */
  function ConnectedMask(ts: seq<Transport>, connected: bv32): (on: seq<bool>)
    ensures |on| == |ts| && forall i :: 0 <= i < |ts| ==> (on[i] <==> IsConnected(ts[i], connected))
  {
    seq(|ts|, i requires 0 <= i < |ts| => IsConnected(ts[i], connected))
  }

  /** Transport k takes part under the mask `on`. */
  predicate On(on: seq<bool>, k: nat) {
    k < |on| && on[k]
  }

  /** What emit_nodes emits from transport `k` on, with `next` the next object id; and what it returns. */
  function EmitFrom(ts: seq<Transport>, on: seq<bool>, k: nat, next: nat): (r: (seq<ObjectInfo>, int))
    ensures r.1 == 0 || r.1 == -EINVAL
    decreases |ts| - k
  {
    if k >= |ts| then ([], 0)
    else if !On(on, k) then EmitFrom(ts, on, k + 1, next)
    else match Factories(ts[k].profile)
      case None => ([], -EINVAL)
      case Some(fs) =>
        var rest := EmitFrom(ts, on, k + 1, next + |fs|);
        (Objects(ts[k], k, fs, next) + rest.0, rest.1)
  }

  /** What emit_nodes emits for a device, with `next` the next object id; and what it returns. */
  function Emission(d: BtDevice, next: nat): (r: (seq<ObjectInfo>, int))
    ensures r.1 == 0 || r.1 == -EINVAL
    ensures forall i :: 0 <= i < |r.0| ==>
              r.0[i].id == next + i && r.0[i].transport < |d.transports|
              && IsConnected(d.transports[r.0[i].transport], d.connected)
  {
    var on := ConnectedMask(d.transports, d.connected);
    EmitFromContract(d.transports, on, 0, next);
    EmitFrom(d.transports, on, 0, next)
  }

  /** A connected transport whose profile the switch has no case for. */
  predicate Unhandled(ts: seq<Transport>, on: seq<bool>, k: nat)
    requires k < |ts|
  {
    On(on, k) && Factories(ts[k].profile).None?
  }

  /**
   * Emitted objects take consecutive ids from `next`, each comes from a
   * connected transport at or after `k` and names a factory of its profile;
   * the result is -EINVAL exactly when some connected transport has a profile
   * the switch does not handle, and 0 otherwise.
   */
  lemma {:induction false} EmitFromContract(ts: seq<Transport>, on: seq<bool>, k: nat, next: nat)
    ensures var r := EmitFrom(ts, on, k, next);
      (forall i :: 0 <= i < |r.0| ==> r.0[i].id == next + i) &&
      (forall i :: 0 <= i < |r.0| ==>
         k <= r.0[i].transport < |ts| && On(on, r.0[i].transport) &&
         Factories(ts[r.0[i].transport].profile).Some? &&
         r.0[i].factory in Factories(ts[r.0[i].transport].profile).value &&
         r.0[i].name == ts[r.0[i].transport].name) &&
      (r.1 == -EINVAL <==> exists j :: k <= j < |ts| && Unhandled(ts, on, j)) &&
      (r.1 == 0 || r.1 == -EINVAL)
    decreases |ts| - k
  {
    if k < |ts| {
      EmitFromContract(ts, on, k + 1, next + Width(ts, on, k));
      if Unhandled(ts, on, k) {
        assert EmitFrom(ts, on, k, next).1 == -EINVAL;
      }
    }
  }

  /** Ids never repeat within one emission. */
  lemma EmittedIdsUnique(ts: seq<Transport>, on: seq<bool>, next: nat, i: nat, j: nat)
    requires var r := EmitFrom(ts, on, 0, next); i < j < |r.0|
    ensures var r := EmitFrom(ts, on, 0, next); r.0[i].id < r.0[j].id
  {
    EmitFromContract(ts, on, 0, next);
  }

  /** The number of objects transport t contributes. */
  function Width(ts: seq<Transport>, on: seq<bool>, k: nat): nat
    requires k < |ts|
  {
    if On(on, k) && Factories(ts[k].profile).Some? then |Factories(ts[k].profile).value| else 0
  }

  /** The number of objects the transports k..j-1 contribute. */
  function CountBetween(ts: seq<Transport>, on: seq<bool>, k: nat, j: nat): nat
    requires j <= |ts|
    decreases j - k
  {
    if k >= j then 0 else Width(ts, on, k) + CountBetween(ts, on, k + 1, j)
  }

  /** A successful emission from k is the objects of transport k followed by the emission from k + 1. */
  lemma EmitFromStep(ts: seq<Transport>, on: seq<bool>, k: nat, next: nat)
    requires k < |ts| && EmitFrom(ts, on, k, next).1 == 0
    ensures var r := EmitFrom(ts, on, k, next);
      var w := Width(ts, on, k);
      var rest := EmitFrom(ts, on, k + 1, next + w);
      rest.1 == 0 && |r.0| == w + |rest.0| && r.0[w..] == rest.0
      && (On(on, k) ==>
            Factories(ts[k].profile).Some? && r.0[..w] == Objects(ts[k], k, Factories(ts[k].profile).value, next))
  {
  }

  /** A successful emission leaves no connected transport unhandled. */
  lemma ConnectedHandled(ts: seq<Transport>, on: seq<bool>, k: nat, next: nat, j: nat)
    requires k <= j < |ts| && On(on, j)
    requires EmitFrom(ts, on, k, next).1 == 0
    ensures Factories(ts[j].profile).Some?
  {
    EmitFromContract(ts, on, k, next);
    if Factories(ts[j].profile).None? {
      assert Unhandled(ts, on, j);
    }
  }

  /** Past the objects of transports k..j-1, a successful emission from k is the emission from j. */
  lemma {:induction false} EmitFromSuffix(ts: seq<Transport>, on: seq<bool>, k: nat, next: nat, j: nat)
    requires k <= j <= |ts| && EmitFrom(ts, on, k, next).1 == 0
    ensures var at := CountBetween(ts, on, k, j); var r := EmitFrom(ts, on, k, next).0;
      at <= |r| && r[at..] == EmitFrom(ts, on, j, next + at).0 && EmitFrom(ts, on, j, next + at).1 == 0
    decreases j - k
  {
    var r := EmitFrom(ts, on, k, next).0;
    if k == j {
      assert CountBetween(ts, on, k, j) == 0;
      assert r[0..] == r;
    } else {
      EmitFromStep(ts, on, k, next);
      var w := Width(ts, on, k);
      EmitFromSuffix(ts, on, k + 1, next + w, j);
      var at' := CountBetween(ts, on, k + 1, j);
      var at := CountBetween(ts, on, k, j);
      assert at == w + at';
      assert next + w + at' == next + at;
      var rest := EmitFrom(ts, on, k + 1, next + w).0;
      assert r[w..] == rest;
      assert r[at..] == rest[at'..];
    }
  }

  /** Object i of a connected transport j, when emit_nodes succeeds from k. */
  lemma EmittedObjectAt(ts: seq<Transport>, on: seq<bool>, k: nat, next: nat, j: nat, i: nat)
    requires k <= j < |ts| && On(on, j)
    requires EmitFrom(ts, on, k, next).1 == 0
    requires Factories(ts[j].profile).Some? && i < |Factories(ts[j].profile).value|
    ensures var r := EmitFrom(ts, on, k, next); var at := CountBetween(ts, on, k, j);
      at + i < |r.0| && r.0[at + i] == ObjectInfo(next + at + i, Factories(ts[j].profile).value[i], ts[j].name, j)
  {
    var r := EmitFrom(ts, on, k, next).0;
    var fs := Factories(ts[j].profile).value;
    var at := CountBetween(ts, on, k, j);
    EmitFromSuffix(ts, on, k, next, j);
    var tail := EmitFrom(ts, on, j, next + at).0;
    assert r[at..] == tail;
    EmitFromStep(ts, on, j, next + at);
    var objs := Objects(ts[j], j, fs, next + at);
    assert tail[..|fs|] == objs;
    assert tail[i] == objs[i] == ObjectInfo(next + at + i, fs[i], ts[j].name, j);
    assert r[at + i] == tail[i];
  }

  /**
   * When emit_nodes succeeds, every connected transport j is announced with
   * all the factories of its profile, in order, right after the objects of
   * the transports before it, under the ids that follow theirs.
   */
  lemma EveryConnectedTransportEmitted(ts: seq<Transport>, on: seq<bool>, k: nat, next: nat, j: nat)
    requires k <= j < |ts| && On(on, j)
    requires EmitFrom(ts, on, k, next).1 == 0
    ensures Factories(ts[j].profile).Some?
    ensures var r := EmitFrom(ts, on, k, next); var fs := Factories(ts[j].profile).value;
      var at := CountBetween(ts, on, k, j);
      at + |fs| <= |r.0| &&
      forall i :: 0 <= i < |fs| ==> r.0[at + i] == ObjectInfo(next + at + i, fs[i], ts[j].name, j)
  {
    ConnectedHandled(ts, on, k, next, j);
    var fs := Factories(ts[j].profile).value;
    forall i | 0 <= i < |fs|
      ensures var r := EmitFrom(ts, on, k, next); var at := CountBetween(ts, on, k, j);
        at + i < |r.0| && r.0[at + i] == ObjectInfo(next + at + i, fs[i], ts[j].name, j)
    {
      EmittedObjectAt(ts, on, k, next, j, i);
    }
    EmittedObjectAt(ts, on, k, next, j, |fs| - 1);
  }

  /** impl_enum_interface_info: the Device interface at index 0 (and the index advances); nothing after it. */
  function EnumInterfaceInfo(index: nat): (r: (int, Option<InterfaceType>, nat))
    ensures index == 0 ==> r == (1, Some(DeviceInterface), 1)
    ensures index > 0 ==> r == (0, None, index)
  {
    if index >= 1 then (0, None, index) else (1, Some(DeviceInterface), index + 1)
  }

  /** An info item impl_init takes the device from: key "bluez5.device" and a value that parses as a pointer. */
  predicate NamesDevice(it: InfoItem) {
    it.key == "bluez5.device" && it.device.Some?
  }

  /**
   * The device impl_init's item loop leaves behind after its first k items:
   * that of the last item naming one, since every parsing item overwrites
   * the one before; none when no item names a device.
   */
  function LastDevice(items: seq<InfoItem>, k: nat): (d: Option<BtDevice>)
    requires k <= |items|
    ensures d.None? <==> forall i :: 0 <= i < k ==> !NamesDevice(items[i])
    ensures d.Some? ==> exists i :: 0 <= i < k && NamesDevice(items[i]) && items[i].device == d &&
                                   (forall m :: i < m < k ==> !NamesDevice(items[m]))
  {
    if k == 0 then None
    else if NamesDevice(items[k - 1]) then items[k - 1].device
    else LastDevice(items, k - 1)
  }

  /** The device object (struct impl). */
  class Device {
    var hasLog: bool
    var hasMainLoop: bool
    var btDev: Option<BtDevice>
    var nextId: nat
    /** Every object announced to the listeners, oldest first. */
    var emitted: seq<ObjectInfo>
    /** Every device info announced to the listeners, oldest first. */
    var infos: seq<DeviceInfo>

    /** The zeroed handle impl_init receives. */
    constructor ()
      ensures !hasLog && !hasMainLoop && btDev.None? && nextId == 0 && emitted == [] && infos == []
    {
      hasLog, hasMainLoop, btDev, nextId, emitted, infos := false, false, None, 0, [], [];
    }

    /**
     * impl_init: take the log and main loop from the support items, the
     * device from the "bluez5.device" info item (the last one that parses
     * wins); without a main loop or a device the result is -EINVAL. On
     * success the object ids restart at 0.
     */
    method Init(support: seq<Support>, info: Option<seq<InfoItem>>) returns (res: int)
      modifies this
      ensures hasMainLoop == (old(hasMainLoop) || MainLoopSupport in support)
      ensures hasLog == (old(hasLog) || LogSupport in support)
      ensures !hasMainLoop ==> res == -EINVAL && btDev == old(btDev)
      ensures hasMainLoop && btDev.None? ==> res == -EINVAL
      ensures hasMainLoop && btDev.Some? ==> res == 0 && nextId == 0
      ensures hasMainLoop && info.Some? && (forall i :: 0 <= i < |info.value| ==> !(info.value[i].key == "bluez5.device" && info.value[i].device.Some?)) ==>
        btDev == old(btDev)
      ensures hasMainLoop && info.Some? && LastDevice(info.value, |info.value|).Some? ==>
        btDev == LastDevice(info.value, |info.value|)
      ensures emitted == old(emitted) && infos == old(infos)
    {
      var i := 0;
      while i < |support|
        invariant 0 <= i <= |support|
        invariant hasMainLoop == (old(hasMainLoop) || MainLoopSupport in support[..i])
        invariant hasLog == (old(hasLog) || LogSupport in support[..i])
        invariant btDev == old(btDev) && emitted == old(emitted) && infos == old(infos) && nextId == old(nextId)
      {
        if support[i] == LogSupport {
          hasLog := true;
        } else if support[i] == MainLoopSupport {
          hasMainLoop := true;
        }
        assert support[..i + 1] == support[..i] + [support[i]];
        i := i + 1;
      }
      assert support[..i] == support;
      if !hasMainLoop {
        return -EINVAL;
      }
      if info.Some? {
        var items := info.value;
        var j := 0;
        while j < |items|
          invariant 0 <= j <= |items|
          invariant btDev == (if LastDevice(items, j).Some? then LastDevice(items, j) else old(btDev))
          invariant emitted == old(emitted) && infos == old(infos) && hasMainLoop
          invariant hasLog == (old(hasLog) || LogSupport in support)
        {
          if items[j].key == "bluez5.device" && items[j].device.Some? {
            btDev := items[j].device;
          }
          j := j + 1;
        }
      }
      if btDev.None? {
        return -EINVAL;
      }
      nextId := 0;
      return 0;
    }

    /** emit_node: announce one object under the next id, which then increments. */
    method EmitNode(t: Transport, k: nat, f: Factory)
      modifies this`emitted, this`nextId
      ensures emitted == old(emitted) + [ObjectInfo(old(nextId), f, t.name, k)]
      ensures nextId == old(nextId) + 1
    {
      emitted := emitted + [ObjectInfo(nextId, f, t.name, k)];
      nextId := nextId + 1;
    }

    /**
     * emit_nodes: walk the transports in list order; each connected one is
     * announced once per factory of its profile, and a connected transport
     * with an unhandled profile ends the walk with -EINVAL, keeping what was
     * already announced.
     */
    method EmitNodes() returns (res: int)
      requires btDev.Some?
      modifies this`emitted, this`nextId
      ensures var r := Emission(btDev.value, old(nextId));
        emitted == old(emitted) + r.0 && res == r.1 && nextId == old(nextId) + |r.0|
    {
      var ts := btDev.value.transports;
      var connected := btDev.value.connected;
      ghost var on := ConnectedMask(ts, connected);
      ghost var goal := EmitFrom(ts, on, 0, nextId);
      ghost var acc: seq<ObjectInfo> := [];
      assert acc + goal.0 == goal.0;
      var k := 0;
      while k < |ts|
        invariant 0 <= k <= |ts|
        invariant emitted == old(emitted) + acc && nextId == old(nextId) + |acc|
        invariant var rest := EmitFrom(ts, on, k, nextId); goal == (acc + rest.0, rest.1)
      {
        ghost var n0 := nextId;
        ghost var e0 := emitted;
        var ok := EmitTransport(ts[k], k, connected);
        ghost var mine := emitted[|e0|..];
        assert emitted == e0 + mine;
        EmitFromCons(ts, on, k, n0, mine, ok);
        if !ok {
          assert acc + [] == acc;
          return -EINVAL;
        }
        AppendAssoc(acc, mine, EmitFrom(ts, on, k + 1, nextId).0);
        acc := acc + mine;
        k := k + 1;
      }
      assert acc + [] == acc;
      res := 0;
    }

    /** One transport of emit_nodes: the switch on its profile, when it is connected. */
    method EmitTransport(t: Transport, k: nat, connected: bv32) returns (ok: bool)
      modifies this`emitted, this`nextId
      ensures match (if IsConnected(t, connected) then Factories(t.profile) else Some([]))
        case None => !ok && emitted == old(emitted) && nextId == old(nextId)
        case Some(fs) => ok && emitted == old(emitted) + Objects(t, k, fs, old(nextId)) && nextId == old(nextId) + |fs|
    {
      if t.profile & connected != 0 {
        ok := EmitProfile(t, k);
      } else {
        assert Objects(t, k, [], nextId) == [];
        ok := true;
      }
    }

    /** The switch of emit_nodes: the objects of one connected transport, by its profile. */
    method EmitProfile(t: Transport, k: nat) returns (ok: bool)
      modifies this`emitted, this`nextId
      ensures match Factories(t.profile)
        case None => !ok && emitted == old(emitted) && nextId == old(nextId)
        case Some(fs) => ok && emitted == old(emitted) + Objects(t, k, fs, old(nextId)) && nextId == old(nextId) + |fs|
    {
      ghost var n0 := nextId;
      if t.profile == PROFILE_A2DP_SOURCE {
        EmitNode(t, k, A2dpSourceFactory);
      } else if t.profile == PROFILE_A2DP_SINK {
        EmitNode(t, k, A2dpSinkFactory);
      } else if t.profile == PROFILE_HSP_HS || t.profile == PROFILE_HSP_AG || t.profile == PROFILE_HFP_HF || t.profile == PROFILE_HFP_AG {
        EmitNode(t, k, ScoSourceFactory);
        EmitNode(t, k, ScoSinkFactory);
        assert Objects(t, k, [ScoSourceFactory, ScoSinkFactory], n0) ==
          [ObjectInfo(n0, ScoSourceFactory, t.name, k), ObjectInfo(n0 + 1, ScoSinkFactory, t.name, k)];
      } else {
        return false;
      }
      return true;
    }

    /**
     * impl_add_listener: a listener with an info callback gets the device
     * info (media.class "Audio/Device", no params); one with an object
     * callback gets every object through emit_nodes. The result is 0.
     */
    method AddListener(wantsInfo: bool, wantsObjects: bool) returns (res: int)
      requires btDev.Some?
      modifies this`emitted, this`nextId, this`infos
      ensures res == 0
      ensures infos == old(infos) + (if wantsInfo then [DeviceInfo("Audio/Device", 0)] else [])
      ensures var r := Emission(btDev.value, old(nextId));
        if wantsObjects then emitted == old(emitted) + r.0 && nextId == old(nextId) + |r.0|
        else emitted == old(emitted) && nextId == old(nextId)
    {
      if wantsInfo {
        infos := infos + [DeviceInfo("Audio/Device", 0)];
      }
      if wantsObjects {
        var _ := EmitNodes();
      }
      return 0;
    }
  }

  /** One step of emit_nodes: transport k either stops the walk or contributes `mine` ahead of the rest. */
  lemma EmitFromCons(ts: seq<Transport>, on: seq<bool>, k: nat, next: nat, mine: seq<ObjectInfo>, ok: bool)
    requires k < |ts|
    requires match (if On(on, k) then Factories(ts[k].profile) else Some([]))
      case None => !ok && mine == []
      case Some(fs) => ok && mine == Objects(ts[k], k, fs, next)
    ensures !ok ==> EmitFrom(ts, on, k, next) == ([], -EINVAL)
    ensures ok ==> var rest := EmitFrom(ts, on, k + 1, next + |mine|);
      EmitFrom(ts, on, k, next) == (mine + rest.0, rest.1)
  {
    if ok && !On(on, k) {
      assert mine + EmitFrom(ts, on, k + 1, next).0 == EmitFrom(ts, on, k + 1, next).0;
    }
  }

  /**
   * Across successive emissions on one device the ids keep increasing: an
   * object announced later always has a larger id than every earlier one.
   */
  lemma {:induction false} LaterEmissionsHaveLargerIds(ts: seq<Transport>, on: seq<bool>, next: nat)
    ensures var r1 := EmitFrom(ts, on, 0, next);
      var r2 := EmitFrom(ts, on, 0, next + |r1.0|);
      forall a, b :: 0 <= a < |r1.0| && 0 <= b < |r2.0| ==> r1.0[a].id < r2.0[b].id
  {
    var r1 := EmitFrom(ts, on, 0, next);
    EmitFromContract(ts, on, 0, next);
    EmitFromContract(ts, on, 0, next + |r1.0|);
  }
}
