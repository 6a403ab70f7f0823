/**
 * The state of the example session manager: the per-role volume, mute
 * and zone tables, the registry globals it tracks, its nodes and device
 * sessions, and the requests it sends to the server, recorded in order
 * as effects (set a node's volume, enumerate formats, create or destroy
 * a link).
 */
module MediaSession {
  import opened Spa
  import opened MediaPolicy

  datatype ObjKind = ClientObj | NodeObj | PortObj

  /** A registry global the session manager bound. */
  datatype Obj = Obj(id: nat, parentId: nat, kind: ObjKind)

  /**
   * A request sent to the server. SetVolume is the Props parameter
   * stream_set_volume builds; EnumFormats asks a node or a port for its
   * EnumFormat parameters; CreateLink asks the link factory for a link
   * (a port id of -1 lets the server choose) and names the proxy that
   * stands for it; DestroyLink destroys that proxy.
   */
  datatype Effect =
    | SetVolume(node: nat, volume: real, mute: bool)
    | EnumFormats(obj: nat)
    | CreateLink(proxy: nat, outNode: int, outPort: int, inNode: int, inPort: int)
    | DestroyLink(proxy: nat)

  /** What role_get_props writes back: only the values asked for. */
  datatype RoleProps = RoleProps(volume: Option<real>, mute: Option<bool>, zone: Option<int>)

  // ------------------------------------------------------------ link slots

  type Slots = seq<Option<nat>>

  /** The link slots are filled from the front: no link after an empty slot. */
  predicate Packed(s: Slots) {
    forall i, j :: 0 <= i < j < |s| && s[i].None? ==> s[j].None?
  }

  /** Every node has its 16 link slots. */
  predicate NodeOk(n: Node) {
    |n.linkProxy| == MAX_LINKS
  }

  /** The index of the first empty slot, or the number of slots. */
  function FirstFree(s: Slots): (k: nat)
    ensures k <= |s| && (forall j :: 0 <= j < k ==> s[j].Some?) && (k < |s| ==> s[k].None?)
  {
    if |s| == 0 || s[0].None? then 0
    else
      var k := FirstFree(s[1..]);
      assert forall j :: 1 <= j < k + 1 ==> s[j] == s[1..][j - 1];
      k + 1
  }

  /** The slots with the first k emptied. */
  function Cleared(s: Slots, k: nat): (t: Slots)
    ensures |t| == |s| && forall j :: 0 <= j < |s| ==> t[j] == (if j < k then None else s[j])
  {
    seq(|s|, j requires 0 <= j < |s| => if j < k then None else s[j])
  }

  /** The destruction of the links in the first k slots, in slot order. */
  function Destroyed(s: Slots, k: nat): (e: seq<Effect>)
    requires k <= |s| && forall j :: 0 <= j < k ==> s[j].Some?
    ensures |e| == k && forall j :: 0 <= j < k ==> e[j] == DestroyLink(s[j].value)
  {
    if k == 0 then [] else Destroyed(s, k - 1) + [DestroyLink(s[k - 1].value)]
  }

  /** unlink_node_from_dsp's slots: emptied up to the first empty one, the rest as they were. */
  function Unlinked(s: Slots): Slots {
    Cleared(s, FirstFree(s))
  }

  function UnlinkEffects(s: Slots): seq<Effect> {
    Destroyed(s, FirstFree(s))
  }

  /** On packed slots the unlinking destroys every link and leaves every slot empty. */
  lemma UnlinkClearsPacked(s: Slots)
    requires Packed(s)
    ensures forall j :: 0 <= j < |s| ==> Unlinked(s)[j].None?
    ensures forall j :: 0 <= j < |s| && s[j].Some? ==> DestroyLink(s[j].value) in UnlinkEffects(s)
  {
    var k := FirstFree(s);
    assert forall j :: 0 <= j < |s| && s[j].Some? ==> j < k;
    assert forall j :: 0 <= j < |s| && s[j].Some? ==> UnlinkEffects(s)[j] == DestroyLink(s[j].value);
  }

  /** The slots after link_nodes made k links from proxy `base` on: slot j holds proxy base + j. */
  function Filled(s: Slots, k: nat, base: nat): (t: Slots)
    ensures |t| == |s| && forall j :: 0 <= j < |s| ==> t[j] == (if j < k then Some(base + j) else s[j])
  {
    seq(|s|, j requires 0 <= j < |s| => if j < k then Some((base + j) as nat) else s[j])
  }

  lemma FilledPacked(s: Slots, k: nat, base: nat)
    requires Packed(s) && k <= |s|
    ensures Packed(Filled(s, k, base))
  {
  }

  lemma ClearedPacked(s: Slots)
    requires Packed(s)
    ensures Packed(Unlinked(s))
  {
    UnlinkClearsPacked(s);
  }

  // ----------------------------------------------------------- link_nodes

  /**
   * The link for a peer port: an OUTPUT peer port takes the node's
   * output (any port) into the peer port, any other the peer port into
   * the node's input (any port).
   */
  function LinkTo(p: Port, nodeId: nat, peerId: nat, proxy: nat): Effect {
    if p.direction == Output then CreateLink(proxy, nodeId, -1, peerId, p.id)
    else CreateLink(proxy, peerId, p.id, nodeId, -1)
  }

  function LinkEffects(run: seq<Port>, nodeId: nat, peerId: nat, base: nat): (e: seq<Effect>)
    ensures |e| == |run| && forall j :: 0 <= j < |run| ==> e[j] == LinkTo(run[j], nodeId, peerId, base + j)
  {
    seq(|run|, j requires 0 <= j < |run| => LinkTo(run[j], nodeId, peerId, base + j))
  }

  /**
   * link_nodes links the linkable peer ports past the first zoneSkip of
   * them, no more than max (when max is not negative) and no more than
   * the 16 link slots.
   */
  lemma LinkRunMeaning(ports: seq<Port>, direction: Direction, zoneSkip: int, max: int)
    ensures LinkRun(ports, direction, zoneSkip, max, MAX_LINKS)
            == Take(Take(Skip(LinkablePorts(ports, direction), zoneSkip), max), MAX_LINKS)
  {
    LinkRunIsCapped(ports, direction, zoneSkip, max, MAX_LINKS);
    LinkRunAsWrittenMeaning(ports, direction, zoneSkip, max);
  }

  // ------------------------------------------------------ role_set_volume

  /** Whether role_set_volume sets a node's volume: a node with a known role, of the role or, with other_roles, of another. */
  predicate Affected(n: Node, idx: int, otherRoles: bool) {
    RoleIdx(n.role) >= 0 && ((RoleIdx(n.role) == idx) != otherRoles)
  }

  /** The volume requests for the nodes of one session, in list order. */
  function NodeVolumeEffects(nodes: map<nat, Node>, list: seq<nat>, idx: int, otherRoles: bool, v: real, m: bool): seq<Effect>
    decreases |list|
  {
    if |list| == 0 then []
    else
      var prev := NodeVolumeEffects(nodes, list[..|list| - 1], idx, otherRoles, v, m);
      var id := list[|list| - 1];
      if id in nodes && Affected(nodes[id], idx, otherRoles) then prev + [SetVolume(id, v, m)] else prev
  }

  /** The volume requests for the audio sessions (those with a DSP node), in session order. */
  function VolumeEffects(nodes: map<nat, Node>, ss: seq<Session>, idx: int, otherRoles: bool, v: real, m: bool): seq<Effect>
    decreases |ss|
  {
    if |ss| == 0 then []
    else
      var prev := VolumeEffects(nodes, ss[..|ss| - 1], idx, otherRoles, v, m);
      var s := ss[|ss| - 1];
      if s.dsp.Some? then prev + NodeVolumeEffects(nodes, s.nodeList, idx, otherRoles, v, m) else prev
  }

  lemma {:induction false} NodeVolumeTargets(nodes: map<nat, Node>, list: seq<nat>, idx: int, otherRoles: bool, v: real, m: bool)
    ensures forall e :: e in NodeVolumeEffects(nodes, list, idx, otherRoles, v, m) ==> e.SetVolume? && e.volume == v && e.mute == m
    ensures forall id :: SetVolume(id, v, m) in NodeVolumeEffects(nodes, list, idx, otherRoles, v, m)
                         <==> id in list && id in nodes && Affected(nodes[id], idx, otherRoles)
    decreases |list|
  {
    if |list| > 0 {
      var init := list[..|list| - 1];
      NodeVolumeTargets(nodes, init, idx, otherRoles, v, m);
      assert list == init + [list[|list| - 1]];
    }
  }

  /**
   * role_set_volume sets the volume of exactly the affected nodes of the
   * audio sessions, to the given volume and mute, and sends nothing else.
   */
  lemma {:induction false} VolumeTargets(nodes: map<nat, Node>, ss: seq<Session>, idx: int, otherRoles: bool, v: real, m: bool)
    ensures forall e :: e in VolumeEffects(nodes, ss, idx, otherRoles, v, m) ==> e.SetVolume? && e.volume == v && e.mute == m
    ensures forall id :: SetVolume(id, v, m) in VolumeEffects(nodes, ss, idx, otherRoles, v, m)
                         <==> id in nodes && Affected(nodes[id], idx, otherRoles)
                              && exists k :: 0 <= k < |ss| && ss[k].dsp.Some? && id in ss[k].nodeList
    decreases |ss|
  {
    if |ss| > 0 {
      var init := ss[..|ss| - 1];
      var s := ss[|ss| - 1];
      VolumeTargets(nodes, init, idx, otherRoles, v, m);
      NodeVolumeTargets(nodes, s.nodeList, idx, otherRoles, v, m);
      forall id
        ensures SetVolume(id, v, m) in VolumeEffects(nodes, ss, idx, otherRoles, v, m)
                <==> id in nodes && Affected(nodes[id], idx, otherRoles)
                     && exists k :: 0 <= k < |ss| && ss[k].dsp.Some? && id in ss[k].nodeList
      {
        if exists k :: 0 <= k < |ss| && ss[k].dsp.Some? && id in ss[k].nodeList {
          var k :| 0 <= k < |ss| && ss[k].dsp.Some? && id in ss[k].nodeList;
          if k < |init| {
            assert init[k] == ss[k];
          }
        }
        if exists k :: 0 <= k < |init| && init[k].dsp.Some? && id in init[k].nodeList {
          var k :| 0 <= k < |init| && init[k].dsp.Some? && id in init[k].nodeList;
          assert ss[k] == init[k];
        }
      }
    }
  }

  // -------------------------------------------------------- role_set_zone

  /** unlink_node_from_dsp's node: its links undone when there is a core proxy, unchanged otherwise. */
  function Unlink(n: Node, core: bool): Node {
    if core then n.(linkProxy := Unlinked(n.linkProxy)) else n
  }

  /** unlink_node_from_dsp's requests: none without a core proxy. */
  function UnlinkSent(n: Node, core: bool): seq<Effect> {
    if core then UnlinkEffects(n.linkProxy) else []
  }

  /** A node taken out of its session: unlinked, its role released and its session cleared. */
  function Detached(n: Node, core: bool): Node {
    Unlink(n, core).(role := None, session := None)
  }

  /** The nodes, the nodes a session keeps and the requests sent, after detaching a role. */
  datatype Detach = Detach(nodes: map<nat, Node>, kept: seq<nat>, effects: seq<Effect>)

  /** One node of the list: a node of role idx is detached, any other id is kept. */
  function DetachStep(d: Detach, id: nat, idx: nat, core: bool): Detach {
    if id in d.nodes && RoleIdx(d.nodes[id].role) == idx then
      Detach(d.nodes[id := Detached(d.nodes[id], core)], d.kept, d.effects + UnlinkSent(d.nodes[id], core))
    else Detach(d.nodes, d.kept + [id], d.effects)
  }

  /** Detaching the nodes of role idx from one session's node list, in list order. */
  function DetachList(nodes: map<nat, Node>, list: seq<nat>, idx: nat, core: bool): (d: Detach)
    ensures d.nodes.Keys == nodes.Keys && |d.kept| <= |list|
    decreases |list|
  {
    if |list| == 0 then Detach(nodes, [], [])
    else DetachStep(DetachList(nodes, list[..|list| - 1], idx, core), list[|list| - 1], idx, core)
  }

  /** One more node of the list. */
  lemma DetachListStep(nodes: map<nat, Node>, list: seq<nat>, j: nat, idx: nat, core: bool)
    requires j < |list|
    ensures DetachList(nodes, list[..j + 1], idx, core) == DetachStep(DetachList(nodes, list[..j], idx, core), list[j], idx, core)
  {
    assert list[..j + 1][..j] == list[..j];
  }

  /** One session after detaching a role: the nodes, the session and the requests sent. */
  datatype SessionDetach = SessionDetach(nodes: map<nat, Node>, session: Session, effects: seq<Effect>)

  /** Only audio sessions (those with a DSP node) are looked at. */
  function DetachOne(nodes: map<nat, Node>, s: Session, idx: nat, core: bool): (o: SessionDetach)
    ensures o.nodes.Keys == nodes.Keys && o.session.dsp == s.dsp && |o.session.nodeList| <= |s.nodeList|
  {
    if s.dsp.None? then SessionDetach(nodes, s, [])
    else
      var d := DetachList(nodes, s.nodeList, idx, core);
      SessionDetach(d.nodes, s.(nodeList := d.kept), d.effects)
  }

  datatype ZoneResult = ZoneResult(nodes: map<nat, Node>, sessions: seq<Session>, effects: seq<Effect>)

  /** Detaching the nodes of role idx from every audio session, in session order. */
  function DetachSessions(nodes: map<nat, Node>, ss: seq<Session>, idx: nat, core: bool): (z: ZoneResult)
    ensures |z.sessions| == |ss| && z.nodes.Keys == nodes.Keys
    decreases |ss|
  {
    if |ss| == 0 then ZoneResult(nodes, [], [])
    else
      var z := DetachSessions(nodes, ss[..|ss| - 1], idx, core);
      var o := DetachOne(z.nodes, ss[|ss| - 1], idx, core);
      ZoneResult(o.nodes, z.sessions + [o.session], z.effects + o.effects)
  }

  /** One more session of the fold. */
  lemma DetachSessionsStep(nodes: map<nat, Node>, ss: seq<Session>, i: nat, idx: nat, core: bool)
    requires i < |ss|
    ensures var z := DetachSessions(nodes, ss[..i], idx, core);
      var o := DetachOne(z.nodes, ss[i], idx, core);
      DetachSessions(nodes, ss[..i + 1], idx, core) == ZoneResult(o.nodes, z.sessions + [o.session], z.effects + o.effects)
  {
    assert ss[..i + 1][..i] == ss[..i];
  }

  /** `after` has the nodes of `before`, each with the same role or with its role released. */
  predicate RolesKeptOrReleased(before: map<nat, Node>, after: map<nat, Node>) {
    before.Keys == after.Keys
    && forall id :: id in before ==> after[id].role == before[id].role || after[id].role.None?
  }

  /** What detaching the nodes of `list` leaves: nodes only lose roles, kept ids are not of role idx, the others are out of their session. */
  ghost predicate DetachKeeps(nodes: map<nat, Node>, list: seq<nat>, d: Detach, idx: nat) {
    RolesKeptOrReleased(nodes, d.nodes)
    && (forall id :: id in d.kept ==> id in list && (id in d.nodes ==> RoleIdx(d.nodes[id].role) != idx))
    && (forall id :: id in list && id !in d.kept ==> id in d.nodes && d.nodes[id].session.None?)
  }

  lemma DetachStepKeeps(nodes: map<nat, Node>, list: seq<nat>, d: Detach, id: nat, idx: nat, core: bool)
    requires DetachKeeps(nodes, list, d, idx)
    ensures DetachKeeps(nodes, list + [id], DetachStep(d, id, idx, core), idx)
  {
    assert forall x :: x in list + [id] <==> x in list || x == id;
    if id in d.nodes && RoleIdx(d.nodes[id].role) == idx {
      var n := Detached(d.nodes[id], core);
      assert n.role.None? && n.session.None?;
      assert DetachStep(d, id, idx, core) == Detach(d.nodes[id := n], d.kept, d.effects + UnlinkSent(d.nodes[id], core));
    } else {
      assert DetachStep(d, id, idx, core) == Detach(d.nodes, d.kept + [id], d.effects);
    }
  }

  /** Every node the list keeps is not of role idx, and the nodes only lose roles. */
  lemma {:induction false} DetachListKeeps(nodes: map<nat, Node>, list: seq<nat>, idx: nat, core: bool)
    ensures DetachKeeps(nodes, list, DetachList(nodes, list, idx, core), idx)
    decreases |list|
  {
    if |list| > 0 {
      var init := list[..|list| - 1];
      DetachListKeeps(nodes, init, idx, core);
      DetachStepKeeps(nodes, init, DetachList(nodes, init, idx, core), list[|list| - 1], idx, core);
      assert list == init + [list[|list| - 1]];
    }
  }

  /** The same for one session: an audio session keeps no node of role idx, any other is left alone. */
  lemma DetachOneKeeps(nodes: map<nat, Node>, s: Session, idx: nat, core: bool)
    ensures var o := DetachOne(nodes, s, idx, core);
      RolesKeptOrReleased(nodes, o.nodes)
      && o.session.id == s.id && o.session.dsp == s.dsp
      && (s.dsp.None? ==> o.session == s)
      && (s.dsp.Some? ==> forall id :: id in o.session.nodeList && id in o.nodes ==> RoleIdx(o.nodes[id].role) != idx)
  {
    DetachListKeeps(nodes, s.nodeList, idx, core);
  }

  /** A zone change keeps each session's id and DSP node, and leaves a session without a DSP node alone. */
  lemma {:induction false} DetachSessionsShapeAt(nodes: map<nat, Node>, ss: seq<Session>, idx: nat, core: bool, k: nat)
    requires k < |ss|
    ensures var z := DetachSessions(nodes, ss, idx, core);
      z.sessions[k].id == ss[k].id && z.sessions[k].dsp == ss[k].dsp
      && (ss[k].dsp.None? ==> z.sessions[k] == ss[k])
    decreases |ss|
  {
    var init := ss[..|ss| - 1];
    var z := DetachSessions(nodes, init, idx, core);
    var o := DetachOne(z.nodes, ss[|ss| - 1], idx, core);
    assert DetachSessions(nodes, ss, idx, core).sessions == z.sessions + [o.session];
    if k < |init| {
      DetachSessionsShapeAt(nodes, init, idx, core, k);
      assert ss[k] == init[k];
    }
  }

  /** A zone change keeps the sessions and their order, and leaves the sessions without a DSP node alone. */
  lemma DetachSessionsShape(nodes: map<nat, Node>, ss: seq<Session>, idx: nat, core: bool)
    ensures var z := DetachSessions(nodes, ss, idx, core);
      (forall k :: 0 <= k < |ss| ==> z.sessions[k].id == ss[k].id && z.sessions[k].dsp == ss[k].dsp)
      && (forall k :: 0 <= k < |ss| && ss[k].dsp.None? ==> z.sessions[k] == ss[k])
  {
    forall k | 0 <= k < |ss|
      ensures var z := DetachSessions(nodes, ss, idx, core);
        z.sessions[k].id == ss[k].id && z.sessions[k].dsp == ss[k].dsp
        && (ss[k].dsp.None? ==> z.sessions[k] == ss[k])
    {
      DetachSessionsShapeAt(nodes, ss, idx, core, k);
    }
  }

  /**
   * After a zone change no audio session keeps a node of that role, and
   * the node table keeps its nodes, whose roles are kept or released.
   */
  lemma {:induction false} DetachSessionsRemovesRole(nodes: map<nat, Node>, ss: seq<Session>, idx: nat, core: bool)
    ensures var z := DetachSessions(nodes, ss, idx, core);
      RolesKeptOrReleased(nodes, z.nodes)
      && (forall k, id :: 0 <= k < |ss| && ss[k].dsp.Some? && id in z.sessions[k].nodeList && id in z.nodes ==>
            RoleIdx(z.nodes[id].role) != idx)
    decreases |ss|
  {
    if |ss| > 0 {
      var init := ss[..|ss| - 1];
      var s := ss[|ss| - 1];
      DetachSessionsRemovesRole(nodes, init, idx, core);
      var z := DetachSessions(nodes, init, idx, core);
      DetachOneKeeps(z.nodes, s, idx, core);
      var o := DetachOne(z.nodes, s, idx, core);
      var z' := DetachSessions(nodes, ss, idx, core);
      assert z'.nodes == o.nodes && z'.sessions == z.sessions + [o.session];
      forall k, id | 0 <= k < |ss| && ss[k].dsp.Some? && id in z'.sessions[k].nodeList && id in z'.nodes
        ensures RoleIdx(z'.nodes[id].role) != idx
      {
        if k < |init| {
          assert ss[k] == init[k] && z'.sessions[k] == z.sessions[k];
          assert id in z.nodes;
        }
      }
    }
  }

  lemma AppendEmpty<T>(a: seq<T>)
    ensures a + [] == a
  {
  }

  /** The truncation of a float to an int. */
  function Trunc(x: real): int {
    if x >= 0.0 then x.Floor else -((-x).Floor)
  }

  // ------------------------------------------------------- the manager

  class SessionManager {
    /** The volume, mute flag and zone of each role, in role-table order. */
    var volumes: seq<real>
    var mute: seq<bool>
    var zones: seq<int>
    /** The bound registry globals by id; None where none is stored. */
    var globals: seq<Option<Obj>>
    var nodes: map<nat, Node>
    var sessions: seq<Session>
    /** The requests sent to the server so far. */
    var effects: seq<Effect>
    /** Whether the manager holds a core proxy. */
    var coreConnected: bool
    /** The id of the next link proxy. */
    var nextProxy: nat
    /** The AUDIO_SINK and AUDIO_SRC environment variables. */
    const preferredSink: Option<string>
    const preferredSrc: Option<string>

    predicate Valid()
      reads this
    {
      |volumes| == N_AUDIO_ROLES && |mute| == N_AUDIO_ROLES && |zones| == N_AUDIO_ROLES
      && forall id :: id in nodes ==> NodeOk(nodes[id])
    }

    /** The start of main: volume 1.0, not muted and zone 0 for every role, nothing bound. */
    constructor (core: bool, sink: Option<string>, src: Option<string>)
      ensures Valid()
      ensures volumes == [1.0, 1.0, 1.0, 1.0, 1.0, 1.0] && mute == [false, false, false, false, false, false]
      ensures zones == [0, 0, 0, 0, 0, 0]
      ensures globals == [] && nodes == map[] && sessions == [] && effects == []
      ensures coreConnected == core && nextProxy == 0 && preferredSink == sink && preferredSrc == src
    {
      volumes := [1.0, 1.0, 1.0, 1.0, 1.0, 1.0];
      mute := [false, false, false, false, false, false];
      zones := [0, 0, 0, 0, 0, 0];
      globals := [];
      nodes := map[];
      sessions := [];
      effects := [];
      coreConnected := core;
      nextProxy := 0;
      preferredSink := sink;
      preferredSrc := src;
    }

    // ----------------------------------------------------------- globals

    /** find_object: the object stored under id, if any. */
    function FindObject(id: nat): (o: Option<Obj>)
      reads this
      ensures o.Some? ==> id < |globals|
    {
      if id < |globals| then globals[id] else None
    }

    /**
     * add_object: pad the table with empty entries up to the id, then
     * store the object there. Only its own entry changes.
     */
    method AddObject(o: Obj)
      modifies this`globals
      ensures FindObject(o.id) == Some(o)
      ensures forall k :: k != o.id ==> FindObject(k) == old(FindObject(k))
      ensures |globals| == if o.id < old(|globals|) then old(|globals|) else o.id + 1
    {
      while |globals| < o.id
        invariant old(|globals|) <= |globals| <= if o.id < old(|globals|) then old(|globals|) else o.id
        invariant forall k :: 0 <= k < old(|globals|) ==> globals[k] == old(globals[k])
        invariant forall k :: old(|globals|) <= k < |globals| ==> globals[k].None?
        decreases o.id - |globals|
      {
        globals := globals + [None];
      }
      if o.id == |globals| {
        globals := globals + [Some(o)];
      } else {
        globals := globals[o.id := Some(o)];
      }
    }

    /**
     * remove_object: store nothing under the object's id (an entry past
     * the end of the table is refused, one just past it is appended).
     */
    method RemoveObject(o: Obj)
      modifies this`globals
      ensures FindObject(o.id).None?
      ensures forall k :: k != o.id ==> FindObject(k) == old(FindObject(k))
    {
      if o.id < |globals| {
        globals := globals[o.id := None];
      } else if o.id == |globals| {
        globals := globals + [None];
      }
    }

    // -------------------------------------------------------- role table

    /** role_get_props: the values asked for, or None when nothing is asked or the role is unknown. */
    function RoleGetProps(role: Option<string>, wantVolume: bool, wantMute: bool, wantZone: bool): (r: Option<RoleProps>)
      reads this
      requires Valid()
      ensures r.None? <==> (!wantVolume && !wantMute && !wantZone) || RoleIdx(role) < 0
      ensures r.Some? ==>
                r.value.volume == (if wantVolume then Some(volumes[RoleIdx(role)]) else None)
                && r.value.mute == (if wantMute then Some(mute[RoleIdx(role)]) else None)
                && r.value.zone == (if wantZone then Some(zones[RoleIdx(role)]) else None)
    {
      var idx := RoleIdx(role);
      if (!wantVolume && !wantMute && !wantZone) || idx < 0 then None
      else
        Some(RoleProps(if wantVolume then Some(volumes[idx]) else None,
                       if wantMute then Some(mute[idx]) else None,
                       if wantZone then Some(zones[idx]) else None))
    }

    /** The inner loop of role_set_volume: the volume requests for one session's nodes. */
    method SessionSetVolume(list: seq<nat>, idx: int, otherRoles: bool, v: real, m: bool)
      modifies this`effects
      ensures effects == old(effects) + NodeVolumeEffects(nodes, list, idx, otherRoles, v, m)
    {
      var j := 0;
      while j < |list|
        invariant 0 <= j <= |list|
        invariant effects == old(effects) + NodeVolumeEffects(nodes, list[..j], idx, otherRoles, v, m)
      {
        var id := list[j];
        if id in nodes {
          var nodeIdx := RoleIdx(nodes[id].role);
          if nodeIdx >= 0 && ((nodeIdx == idx) != otherRoles) {
            effects := effects + [SetVolume(id, v, m)];
          }
        }
        assert list[..j + 1][..j] == list[..j];
        j := j + 1;
      }
      assert list[..j] == list;
    }

    /**
     * role_set_volume: the volume and mute default to the role's stored
     * ones; every affected node of an audio session gets them; they are
     * stored only when other_roles is false. -1 for an unknown role,
     * with nothing changed.
     */
    method RoleSetVolume(role: Option<string>, otherRoles: bool, volume: Option<real>, muteArg: Option<bool>) returns (r: int)
      requires Valid()
      modifies this`volumes, this`mute, this`effects
      ensures Valid()
      ensures r == (if RoleIdx(role) < 0 then -1 else 0)
      ensures RoleIdx(role) < 0 ==> volumes == old(volumes) && mute == old(mute) && effects == old(effects)
      ensures RoleIdx(role) >= 0 ==>
                var idx := RoleIdx(role);
                var v := if volume.Some? then volume.value else old(volumes[idx]);
                var m := if muteArg.Some? then muteArg.value else old(mute[idx]);
                effects == old(effects) + VolumeEffects(nodes, sessions, idx, otherRoles, v, m)
                && volumes == (if otherRoles then old(volumes) else old(volumes)[idx := v])
                && mute == (if otherRoles then old(mute) else old(mute)[idx := m])
    {
      var idx := RoleIdx(role);
      if idx < 0 {
        return -1;
      }
      var v := if volume.Some? then volume.value else volumes[idx];
      var m := if muteArg.Some? then muteArg.value else mute[idx];
      var i := 0;
      while i < |sessions|
        invariant 0 <= i <= |sessions|
        invariant effects == old(effects) + VolumeEffects(nodes, sessions[..i], idx, otherRoles, v, m)
        invariant volumes == old(volumes) && mute == old(mute)
      {
        var s := sessions[i];
        if s.dsp.Some? {
          SessionSetVolume(s.nodeList, idx, otherRoles, v, m);
        }
        assert sessions[..i + 1][..i] == sessions[..i];
        i := i + 1;
      }
      assert sessions[..i] == sessions;
      if !otherRoles {
        volumes := volumes[idx := v];
        mute := mute[idx := m];
      }
      r := 0;
    }

    /**
     * unlink_node_from_dsp: -1 without a core proxy; otherwise destroy the
     * node's links in slot order and empty their slots, up to the first
     * empty slot.
     */
    method UnlinkNodeFromDsp(id: nat) returns (r: int)
      requires Valid() && id in nodes
      modifies this`nodes, this`effects
      ensures Valid()
      ensures r == (if coreConnected then 0 else -1)
      ensures nodes == old(nodes)[id := Unlink(old(nodes[id]), coreConnected)]
      ensures effects == old(effects) + UnlinkSent(old(nodes[id]), coreConnected)
    {
      if !coreConnected {
        assert nodes[id := nodes[id]] == nodes;
        AppendEmpty(effects);
        return -1;
      }
      var n := nodes[id];
      var slots := DestroyLinks(n.linkProxy);
      nodes := nodes[id := n.(linkProxy := slots)];
      r := 0;
    }

    /** The loop of unlink_node_from_dsp: destroy the links in slot order up to the first empty slot, emptying those slots. */
    method DestroyLinks(s: Slots) returns (slots: Slots)
      modifies this`effects
      ensures slots == Unlinked(s)
      ensures effects == old(effects) + UnlinkEffects(s)
    {
      slots := s;
      var i := 0;
      while i < |slots| && slots[i].Some?
        invariant 0 <= i <= FirstFree(s)
        invariant slots == Cleared(s, i)
        invariant effects == old(effects) + Destroyed(s, i)
      {
        effects := effects + [DestroyLink(slots[i].value)];
        slots := slots[i := None];
        i := i + 1;
      }
      assert i == FirstFree(s);
    }

    /** One node of role_set_zone's inner loop: unlink it, release its role and clear its session. */
    method DetachNode(id: nat)
      requires Valid() && id in nodes
      modifies this`nodes, this`effects
      ensures Valid()
      ensures nodes == old(nodes)[id := Detached(old(nodes[id]), coreConnected)]
      ensures effects == old(effects) + UnlinkSent(old(nodes[id]), coreConnected)
    {
      var _ := UnlinkNodeFromDsp(id);
      nodes := nodes[id := nodes[id].(role := None, session := None)];
    }

    /** One pass of role_set_zone's inner loop: detach the node if it has role idx, otherwise report it kept. */
    method DetachListNode(id: nat, idx: nat, ghost d: Detach, ghost e0: seq<Effect>) returns (keep: bool)
      requires Valid() && nodes == d.nodes && effects == e0 + d.effects
      modifies this`nodes, this`effects
      ensures Valid()
      ensures var next := DetachStep(d, id, idx, coreConnected);
        nodes == next.nodes && effects == e0 + next.effects && next.kept == d.kept + (if keep then [id] else [])
    {
      keep := !(id in nodes && RoleIdx(nodes[id].role) == idx);
      if !keep {
        AppendAssoc(e0, d.effects, UnlinkSent(nodes[id], coreConnected));
        DetachNode(id);
      }
    }

    /** The inner loop of role_set_zone, for one session: take the nodes of role idx out of an audio session's list. */
    method DetachSession(s: Session, idx: nat) returns (t: Session)
      requires Valid()
      modifies this`nodes, this`effects
      ensures Valid()
      ensures var o := DetachOne(old(nodes), s, idx, coreConnected);
        nodes == o.nodes && t == o.session && effects == old(effects) + o.effects
    {
      if s.dsp.None? {
        AppendEmpty(effects);
        return s;
      }
      var list := s.nodeList;
      var kept := [];
      ghost var d := Detach(nodes, [], []);
      var j := 0;
      assert list[..j] == [];
      AppendEmpty(effects);
      while j != |list|
        invariant 0 <= j <= |list|
        invariant Valid()
        invariant d == DetachList(old(nodes), list[..j], idx, coreConnected)
        invariant nodes == d.nodes && kept == d.kept && effects == old(effects) + d.effects
      {
        var id := list[j];
        DetachListStep(old(nodes), list, j, idx, coreConnected);
        var keep := DetachListNode(id, idx, d, old(effects));
        if keep {
          kept := kept + [id];
        }
        d := DetachStep(d, id, idx, coreConnected);
        j := j + 1;
      }
      assert list[..j] == list;
      assert d == DetachList(old(nodes), s.nodeList, idx, coreConnected);
      t := s.(nodeList := kept);
    }

    /** The loop of role_set_zone: take the nodes of role idx out of every audio session, returning the new session list. */
    method DetachRole(idx: nat) returns (processed: seq<Session>)
      requires Valid()
      modifies this`nodes, this`effects
      ensures Valid()
      ensures var z := DetachSessions(old(nodes), sessions, idx, coreConnected);
        nodes == z.nodes && processed == z.sessions && effects == old(effects) + z.effects
    {
      processed := [];
      ghost var z := ZoneResult(nodes, [], []);
      var i := 0;
      while i < |sessions|
        invariant 0 <= i <= |sessions|
        invariant Valid()
        invariant z == DetachSessions(old(nodes), sessions[..i], idx, coreConnected)
        invariant nodes == z.nodes && processed == z.sessions && effects == old(effects) + z.effects
      {
        var s := sessions[i];
        DetachSessionsStep(old(nodes), sessions, i, idx, coreConnected);
        ghost var o := DetachOne(nodes, s, idx, coreConnected);
        var t := DetachSession(s, idx);
        AppendAssoc(old(effects), z.effects, o.effects);
        processed := processed + [t];
        z := ZoneResult(o.nodes, z.sessions + [o.session], z.effects + o.effects);
        i := i + 1;
      }
      assert sessions[..i] == sessions;
    }

    /**
     * role_set_zone: -1 for an unknown role, with nothing changed;
     * otherwise store the zone and take every node of the role out of
     * the audio sessions, so that the next rescan links it by the new
     * zone.
     */
    method RoleSetZone(role: Option<string>, zone: int) returns (r: int)
      requires Valid()
      modifies this`zones, this`nodes, this`sessions, this`effects
      ensures Valid()
      ensures r == (if RoleIdx(role) < 0 then -1 else 0)
      ensures RoleIdx(role) < 0 ==> zones == old(zones) && nodes == old(nodes) && sessions == old(sessions) && effects == old(effects)
      ensures RoleIdx(role) >= 0 ==>
                var z := DetachSessions(old(nodes), old(sessions), RoleIdx(role), coreConnected);
                zones == old(zones)[RoleIdx(role) := zone]
                && nodes == z.nodes && sessions == z.sessions && effects == old(effects) + z.effects
    {
      var idx := RoleIdx(role);
      if idx < 0 {
        return -1;
      }
      zones := zones[idx := zone];
      sessions := DetachRole(idx);
      r := 0;
    }

    // --------------------------------------------------- registry globals

    /**
     * handle_node: bind the node and record it; a Stream/ class makes it
     * a stream of that media, whose formats are enumerated; Audio/ or
     * Video/ Sink or Source makes it a device with a new session,
     * plugged at "node.plugged" or else at `now`; Audio/DSP/ or
     * Video/DSP/ makes it a DSP node. 1 for a stream or a device, 0
     * otherwise.
     */
    method HandleNode(id: nat, parentId: nat, props: Option<Props>, now: nat) returns (r: int)
      requires Valid()
      modifies this`globals, this`nodes, this`sessions, this`effects
      ensures Valid()
      ensures var c := Classify(MediaClassOf(props));
        r == (if c.StreamClass? || c.DeviceClass? then 1 else 0)
        && nodes == old(nodes)[id := Classified(NewNode(id, parentId), c)]
        && sessions == old(sessions) + (if c.DeviceClass? then [NewSession(id, c.direction, c.needDsp, Plugged(props, now))] else [])
        && effects == old(effects) + (if c.StreamClass? then [EnumFormats(id)] else [])
      ensures FindObject(id) == Some(Obj(id, parentId, NodeObj))
      ensures forall k :: k != id ==> FindObject(k) == old(FindObject(k))
    {
      AddObject(Obj(id, parentId, NodeObj));
      var node := NewNode(id, parentId);
      var c := Classify(MediaClassOf(props));
      r := 0;
      match c {
        case Unclassified =>
        case StreamClass(d, media) =>
          node := node.(direction := Some(d), nodeType := StreamNode, media := Some(media));
          effects := effects + [EnumFormats(id)];
          r := 1;
        case DeviceClass(d, needDsp) =>
          sessions := sessions + [NewSession(id, d, needDsp, Plugged(props, now))];
          node := node.(direction := Some(d), nodeType := DeviceNode, manager := Some(id));
          r := 1;
        case DspClass =>
          node := node.(nodeType := DspNode);
      }
      nodes := nodes[id := node];
    }

    /**
     * handle_port: -ESRCH when the parent is not a bound node, -EINVAL
     * without properties or a "port.direction", with nothing changed;
     * otherwise bind the port, append it to its node's ports and, on a
     * device node, enumerate its formats.
     */
    method HandlePort(id: nat, parentId: nat, props: Option<Props>) returns (r: int)
      requires Valid()
      modifies this`globals, this`nodes, this`effects
      ensures Valid()
      ensures var parent := old(FindObject(parentId));
        r == (if parent.None? || parent.value.kind != NodeObj || parentId !in old(nodes) then -ESRCH
              else if props.None? || PortDirection !in props.value then -EINVAL
              else 0)
      ensures r != 0 ==> globals == old(globals) && nodes == old(nodes) && effects == old(effects)
      ensures r == 0 ==>
                var parent := old(nodes[parentId]);
                nodes == old(nodes)[parentId := parent.(ports := parent.ports + [NewPort(id, props.value, parent.nodeType)])]
                && effects == old(effects) + (if parent.nodeType == DeviceNode then [EnumFormats(id)] else [])
                && FindObject(id) == Some(Obj(id, parentId, PortObj))
                && forall k :: k != id ==> FindObject(k) == old(FindObject(k))
    {
      var parent := FindObject(parentId);
      if parent.None? || parent.value.kind != NodeObj || parentId !in nodes {
        return -ESRCH;
      }
      if props.None? || PortDirection !in props.value {
        return -EINVAL;
      }
      var node := nodes[parentId];
      AddObject(Obj(id, parentId, PortObj));
      var port := NewPort(id, props.value, node.nodeType);
      nodes := nodes[parentId := node.(ports := node.ports + [port])];
      if node.nodeType == DeviceNode {
        effects := effects + [EnumFormats(id)];
      }
      r := 0;
    }

    // -------------------------------------------------- sessions and links

    /** find_session over the session list: the session Best chooses, by position. */
    method FindSession(f: Find) returns (b: Option<nat>)
      ensures b == Best(nodes, sessions, f)
    {
      b := None;
      var plugged: nat := 0;
      var i := 0;
      while i < |sessions|
        invariant 0 <= i <= |sessions|
        invariant b == Best(nodes, sessions[..i], f)
        invariant b.Some? ==> b.value < i && plugged == Rank(sessions[b.value], f)
      {
        var s := sessions[i];
        assert sessions[..i + 1][..i] == sessions[..i];
        if Candidate(nodes, s, f) {
          var p := Rank(s, f);
          if b.None? || p > plugged {
            b := Some(i);
            plugged := p;
          }
        }
        i := i + 1;
      }
      assert sessions[..i] == sessions;
    }

    /** The zone of the node's role: how many peer ports it skips. */
    function ZoneSkip(n: Node): int
      reads this
      requires Valid()
    {
      var k := RoleIdx(n.role);
      if k >= 0 then zones[k] else 0
    }

    /**
     * link_nodes, with the slot overrun corrected: link the node to the
     * peer ports LinkRun chooses, each link's proxy stored in the next
     * slot from the first on.
     */
    method LinkNodes(peerId: nat, direction: Direction, nodeId: nat, max: int) returns (r: int)
      requires Valid() && peerId in nodes && nodeId in nodes
      modifies this`nodes, this`effects, this`nextProxy
      ensures Valid() && r == 0
      ensures var run := LinkRun(old(nodes[peerId]).ports, direction, old(ZoneSkip(nodes[nodeId])), max, MAX_LINKS);
        var node := old(nodes[nodeId]);
        nodes == old(nodes)[nodeId := node.(linkProxy := Filled(node.linkProxy, |run|, old(nextProxy)))]
        && effects == old(effects) + LinkEffects(run, nodeId, peerId, old(nextProxy))
        && nextProxy == old(nextProxy) + |run|
    {
      var node := nodes[nodeId];
      var slots := CreateLinks(nodes[peerId].ports, direction, ZoneSkip(node), max, nodeId, peerId, node.linkProxy);
      nodes := nodes[nodeId := node.(linkProxy := slots)];
      r := 0;
    }

    /** The loop of link_nodes: link the eligible ports of the peer in order, filling the node's slots from the first. */
    method CreateLinks(ports: seq<Port>, direction: Direction, zoneSkip0: int, max: int, nodeId: nat, peerId: nat, s: Slots)
      returns (slots: Slots)
      requires |s| == MAX_LINKS
      modifies this`effects, this`nextProxy
      ensures var run := LinkRun(ports, direction, zoneSkip0, max, MAX_LINKS);
        slots == Filled(s, |run|, old(nextProxy))
        && effects == old(effects) + LinkEffects(run, nodeId, peerId, old(nextProxy))
        && nextProxy == old(nextProxy) + |run|
    {
      var zoneSkip := zoneSkip0;
      ghost var run := LinkRun(ports, direction, zoneSkip, max, MAX_LINKS);
      ghost var done: seq<Port> := [];
      var left := max;
      slots := s;
      var i := 0;
      var k := 0;
      while k < |ports|
        invariant 0 <= k <= |ports| && 0 <= i <= MAX_LINKS && |done| == i
        invariant run == done + LinkRun(ports[k..], direction, zoneSkip, left, MAX_LINKS - i)
        invariant slots == Filled(s, i, old(nextProxy)) && nextProxy == old(nextProxy) + i
        invariant effects == old(effects) + LinkEffects(done, nodeId, peerId, old(nextProxy))
      {
        var p := ports[k];
        assert ports[k..][1..] == ports[k + 1..];
        if p.direction == direction || p.skip {
          k := k + 1;
        } else if zoneSkip > 0 {
          zoneSkip := zoneSkip - 1;
          k := k + 1;
        } else if left == 0 || i == MAX_LINKS {
          break;
        } else {
          effects := effects + [LinkTo(p, nodeId, peerId, nextProxy)];
          slots := slots[i := Some(nextProxy)];
          nextProxy := nextProxy + 1;
          done := done + [p];
          i := i + 1;
          left := left - 1;
          zoneSkip := zoneSkip - 1;
          k := k + 1;
        }
      }
    }

    // ----------------------------------------------------------- commands

    /** The value a command reports for a role: the volume in percent (truncated), 1 for muted, or the zone. */
    function Reported(c: Command, idx: nat): int
      reads this
      requires Valid() && idx < N_AUDIO_ROLES
    {
      match c
      case VolumeCmd => Trunc(volumes[idx] * 100.0)
      case MuteCmd => if mute[idx] then 1 else 0
      case ZoneCmd => zones[idx]
    }

    /**
     * parse: a well-formed command for a known role sets the value (when
     * one is given) and answers with the role's value, which is then the
     * value set; anything else is refused, with nothing changed. A query
     * changes nothing.
     */
    method Parse(buf: string) returns (result: Option<string>)
      requires Valid()
      modifies this`volumes, this`mute, this`zones, this`nodes, this`sessions, this`effects
      ensures Valid()
      ensures result.Some? <==> ParseRequest(buf).Some? && RoleIdx(Some(ParseRequest(buf).value.role)) >= 0
      ensures result.Some? ==>
                var rq := ParseRequest(buf).value;
                var idx := RoleIdx(Some(rq.role));
                result.value == FormatInt(Reported(rq.cmd, idx))
                && (rq.action.Set? ==> Reported(rq.cmd, idx) == rq.action.value)
      ensures result.None? || ParseRequest(buf).value.action.Query? ==>
                volumes == old(volumes) && mute == old(mute) && zones == old(zones)
                && nodes == old(nodes) && sessions == old(sessions) && effects == old(effects)
    {
      var req := ParseRequest(buf);
      if req.None? {
        return None;
      }
      result := Execute(req.value);
    }

    /** The command branches of parse, for a request of the grammar. */
    method Execute(rq: Request) returns (result: Option<string>)
      requires Valid() && (rq.action.Set? ==> Settable(rq.cmd, rq.action.value))
      modifies this`volumes, this`mute, this`zones, this`nodes, this`sessions, this`effects
      ensures Valid()
      ensures result.Some? <==> RoleIdx(Some(rq.role)) >= 0
      ensures result.Some? ==>
                var idx := RoleIdx(Some(rq.role));
                result.value == FormatInt(Reported(rq.cmd, idx))
                && (rq.action.Set? ==> Reported(rq.cmd, idx) == rq.action.value)
      ensures result.None? || rq.action.Query? ==>
                volumes == old(volumes) && mute == old(mute) && zones == old(zones)
                && nodes == old(nodes) && sessions == old(sessions) && effects == old(effects)
    {
      var role := Some(rq.role);
      match rq.cmd {
        case VolumeCmd =>
          if rq.action.Set? {
            var res := RoleSetVolume(role, false, Some(rq.action.value as real / 100.0), None);
            if res < 0 {
              return None;
            }
          }
          var props := RoleGetProps(role, true, false, false);
          if props.None? {
            return None;
          }
          assert props.value.volume.value == volumes[RoleIdx(role)];
          result := Some(FormatInt(Trunc(props.value.volume.value * 100.0)));
          assert result.value == FormatInt(Reported(rq.cmd, RoleIdx(role)));
        case MuteCmd =>
          if rq.action.Set? {
            var res := RoleSetVolume(role, false, None, Some(rq.action.value != 0));
            if res < 0 {
              return None;
            }
          }
          var props := RoleGetProps(role, false, true, false);
          if props.None? {
            return None;
          }
          assert props.value.mute.value == mute[RoleIdx(role)];
          result := Some(FormatInt(if props.value.mute.value then 1 else 0));
          assert result.value == FormatInt(Reported(rq.cmd, RoleIdx(role)));
        case ZoneCmd =>
          if rq.action.Set? {
            var res := RoleSetZone(role, rq.action.value);
            if res < 0 {
              return None;
            }
          }
          var props := RoleGetProps(role, false, false, true);
          if props.None? {
            return None;
          }
          assert props.value.zone.value == zones[RoleIdx(role)];
          result := Some(FormatInt(props.value.zone.value));
          assert result.value == FormatInt(Reported(rq.cmd, RoleIdx(role)));
      }
    }
  }

  // ------------------------------------------------------ handle_node helpers

  function MediaClassOf(props: Option<Props>): Option<string> {
    if props.Some? && MediaClass in props.value then Some(props.value[MediaClass]) else None
  }

  /** A node as handle_node first records it: unknown type, no direction, empty link slots. */
  function NewNode(id: nat, parentId: nat): (n: Node)
    ensures NodeOk(n)
  {
    Node(id, parentId, UnknownNode, None, None, None, 0, 0, None, [], seq(MAX_LINKS, _ => None), None, None, 0)
  }

  /** What the media class makes of a new node. */
  function Classified(n: Node, c: NodeClass): Node {
    match c
    case Unclassified => n
    case StreamClass(d, media) => n.(direction := Some(d), nodeType := StreamNode, media := Some(media))
    case DeviceClass(d, _) => n.(direction := Some(d), nodeType := DeviceNode, manager := Some(n.id))
    case DspClass => n.(nodeType := DspNode)
  }

  /** A device's new session: starting, not enabled, managing its own node. */
  function NewSession(id: nat, d: Direction, needDsp: bool, plugged: nat): Session {
    Session(id, d, plugged, id, None, [], true, false, false, false, needDsp)
  }

  /** "node.plugged" read as an unsigned 64-bit number, or else the current time. */
  function Plugged(props: Option<Props>, now: nat): nat {
    if props.Some? && NodePlugged in props.value then ParseUint64(props.value[NodePlugged]) else now
  }
}
