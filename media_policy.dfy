/**
 * The decisions of the example session manager, as pure functions: the
 * role table, how a node's media class classifies it, a port's direction
 * and flags, the defaults a stream gets when it is rescanned, which session
 * it looks for and which one wins, which peer ports get linked, and the
 * grammar of the volume/mute/zone commands.
 *
 * Property dictionaries are maps from the keys the session manager reads
 * to their values.
 */
module MediaPolicy {
  import opened Spa

  /** The audio roles, in table order. */
  const ROLES: seq<string> := ["Multimedia", "Radio", "Communication", "Navigation", "Emergency", "Capture"]
  const N_AUDIO_ROLES: nat := 6
  /** The size of node.link_proxy. */
  const MAX_LINKS: nat := 16

  /**
   * The property keys the session manager reads. MediaClass is
   * "media.class", NodePlugged "node.plugged", PortDirection
   * "port.direction", PortDsp "port.dsp", AlsaDevice "alsa.device" and
   * DontReconnect "pipewire.dont-reconnect"; Autoconnect, Media, Category,
   * Role, Exclusive and TargetNode are the keys PW_NODE_PROP_AUTOCONNECT,
   * PW_NODE_PROP_MEDIA, PW_NODE_PROP_CATEGORY, PW_NODE_PROP_ROLE,
   * PW_NODE_PROP_EXCLUSIVE and PW_NODE_PROP_TARGET_NODE name.
   */
  datatype PropKey =
    | MediaClass | NodePlugged | PortDirection | PortDsp | AlsaDevice | DontReconnect
    | Autoconnect | Media | Category | Role | Exclusive | TargetNode

  type Props = map<PropKey, string>

  datatype NodeType = UnknownNode | StreamNode | DspNode | DeviceNode

  /** A port of a node: its global id, its direction and the DSP and SKIP flags. */
  datatype Port = Port(id: nat, direction: Direction, dsp: bool, skip: bool)

  /**
   * A node as the session manager tracks it. `direction` is None until the
   * media class gives one; `info` is the node's info properties, None
   * until they arrive; `linkProxy` holds the 16 link slots.
   */
  datatype Node = Node(
    id: nat, parentId: nat, nodeType: NodeType, direction: Option<Direction>,
    media: Option<string>, info: Option<Props>, nInputPorts: nat, nOutputPorts: nat,
    role: Option<string>, ports: seq<Port>, linkProxy: seq<Option<nat>>,
    session: Option<nat>, manager: Option<nat>, formatChannels: nat)

  /** A session, created for a device node. `dsp` is the id of its DSP node, if any. */
  datatype Session = Session(
    id: nat, direction: Direction, plugged: nat, node: nat, dsp: Option<nat>,
    nodeList: seq<nat>, starting: bool, enabled: bool, busy: bool, exclusive: bool, needDsp: bool)

  // ---------------------------------------------------------------- roles

  function IndexFrom(table: seq<string>, s: string, i: nat): (r: int)
    requires i <= |table|
    ensures r == -1 || i <= r < |table|
    ensures r >= 0 ==> table[r] == s && forall j :: i <= j < r ==> table[j] != s
    ensures r == -1 <==> forall j :: i <= j < |table| ==> table[j] != s
    decreases |table| - i
  {
    if i == |table| then -1
    else if table[i] == s then i
    else IndexFrom(table, s, i + 1)
  }

  /** role_idx: the position of the role in the table; -1 for no role or an unknown one. */
  function RoleIdx(role: Option<string>): (r: int)
    ensures -1 <= r < N_AUDIO_ROLES
    ensures r >= 0 ==> role == Some(ROLES[r])
    ensures r == -1 <==> role.None? || role.value !in ROLES
  {
    if role.None? then -1 else IndexFrom(ROLES, role.value, 0)
  }

  /** Every role in the table is found at its own position. */
  lemma RoleIdxOfTable(i: nat)
    requires i < N_AUDIO_ROLES
    ensures RoleIdx(Some(ROLES[i])) == i
  {
    assert forall j, k :: 0 <= j < k < N_AUDIO_ROLES ==> ROLES[j] != ROLES[k];
  }

  // ------------------------------------------------------- classification

  predicate StartsWith(s: string, prefix: string) {
    |prefix| <= |s| && s[..|prefix|] == prefix
  }

  /** What a node's media class makes of it. */
  datatype NodeClass =
    | Unclassified
    | StreamClass(direction: Direction, media: string)
    | DeviceClass(direction: Direction, needDsp: bool)
    | DspClass

  /** The media-class branches of handle_node. */
  function Classify(mediaClass: Option<string>): (r: NodeClass)
    ensures mediaClass.None? ==> r == Unclassified
    ensures !r.Unclassified? ==>
              mediaClass.Some? && (StartsWith(mediaClass.value, "Stream/") || StartsWith(mediaClass.value, "Audio/") || StartsWith(mediaClass.value, "Video/"))
    ensures r.StreamClass? ==> StartsWith(mediaClass.value, "Stream/")
  {
    if mediaClass.None? then Unclassified
    else
      var mc := mediaClass.value;
      if StartsWith(mc, "Stream/") then
        var r := mc[7..];
        if StartsWith(r, "Output/") then StreamClass(Output, r[7..])
        else if StartsWith(r, "Input/") then StreamClass(Input, r[6..])
        else Unclassified
      else if StartsWith(mc, "Audio/") || StartsWith(mc, "Video/") then
        var r := mc[6..];
        if r == "Sink" then DeviceClass(Output, StartsWith(mc, "Audio/"))
        else if r == "Source" then DeviceClass(Input, StartsWith(mc, "Audio/"))
        else if StartsWith(r, "DSP/") then DspClass
        else Unclassified
      else Unclassified
  }

  function StreamPrefix(d: Direction): string {
    if d == Output then "Stream/Output/" else "Stream/Input/"
  }

  /** Stream/Output/X and Stream/Input/X are streams of media X in that direction. */
  lemma ClassifyStream(d: Direction, media: string)
    ensures Classify(Some(StreamPrefix(d) + media)) == StreamClass(d, media)
  {
    var mc := StreamPrefix(d) + media;
    assert mc[..7] == "Stream/";
    if d == Output {
      assert mc[7..][..7] == "Output/";
      assert mc[7..][7..] == media;
    } else {
      assert mc[7..][..6] == "Input/";
      assert mc[7..][6..] == media;
      assert mc[7..][0] == 'I';
    }
  }

  /** Exactly Audio/Sink, Audio/Source, Video/Sink and Video/Source make device sessions; only Audio needs a DSP. */
  lemma ClassifyDevice(mc: string, d: Direction, needDsp: bool)
    ensures Classify(Some(mc)) == DeviceClass(d, needDsp) <==>
            mc == (if needDsp then "Audio/" else "Video/") + (if d == Output then "Sink" else "Source")
  {
    var name := (if needDsp then "Audio/" else "Video/") + (if d == Output then "Sink" else "Source");
    if mc == name {
      assert mc[..6] == (if needDsp then "Audio/" else "Video/");
      assert mc[6..] == (if d == Output then "Sink" else "Source");
      assert mc[0] == mc[..6][0];
      assert mc[0] != 'S';
      assert needDsp ==> StartsWith(mc, "Audio/");
      assert !needDsp ==> !StartsWith(mc, "Audio/");
    }
    if Classify(Some(mc)) == DeviceClass(d, needDsp) {
      assert mc == mc[..6] + mc[6..];
      assert StartsWith(mc, "Audio/") || StartsWith(mc, "Video/");
      if needDsp {
        assert mc[..6] == "Audio/";
      } else {
        assert !StartsWith(mc, "Audio/");
        assert mc[..6] == "Video/";
      }
    }
  }

  /** Audio/DSP/... and Video/DSP/... are DSP nodes. */
  lemma ClassifyDsp(mc: string)
    requires StartsWith(mc, "Audio/DSP/") || StartsWith(mc, "Video/DSP/")
    ensures Classify(Some(mc)) == DspClass
  {
    assert mc[..6] == mc[..10][..6];
    assert mc[6..][..4] == mc[..10][6..];
    assert mc[6..][..4] == "DSP/";
    assert mc[6..][0] == 'D';
    assert mc[0] == mc[..10][0];
    assert mc[0] != 'S';
  }

  /** handle_port: "out" is recorded as INPUT, anything else as OUTPUT. */
  function PortDirectionOf(s: string): (d: Direction)
    ensures d == Input <==> s == "out"
  {
    if s == "out" then Input else Output
  }

  /** The port a registry global becomes: DSP when "port.dsp" is present, SKIP on a DSP node otherwise. */
  function NewPort(id: nat, props: Props, parent: NodeType): (p: Port)
    requires PortDirection in props
    ensures p.id == id && p.direction == PortDirectionOf(props[PortDirection])
    ensures p.dsp <==> PortDsp in props
    ensures p.skip <==> parent == DspNode && PortDsp !in props
  {
    Port(id, PortDirectionOf(props[PortDirection]), PortDsp in props, parent == DspNode && PortDsp !in props)
  }

  // ------------------------------------------------------- number parsing

  predicate IsDigit(c: char) { '0' <= c <= '9' }

  predicate IsSpace(c: char) {
    c == ' ' || c == '\t' || c == '\n' || c == '\r' || c as int == 11 || c as int == 12
  }

  function DigitValue(c: char): nat
    requires IsDigit(c)
  {
    (c as int) - ('0' as int)
  }

  /** The leading run of decimal digits. */
  function LeadingDigits(s: string): (ds: string)
    ensures ds <= s && forall i :: 0 <= i < |ds| ==> IsDigit(ds[i])
  {
    if |s| == 0 || !IsDigit(s[0]) then "" else [s[0]] + LeadingDigits(s[1..])
  }

  /** The value of a run of digits, most significant first. */
  function DigitsValue(ds: string): nat
    requires forall i :: 0 <= i < |ds| ==> IsDigit(ds[i])
    decreases |ds|
  {
    if |ds| == 0 then 0 else DigitsValue(ds[..|ds| - 1]) * 10 + DigitValue(ds[|ds| - 1])
  }

  function SkipSpaces(s: string): (t: string)
    ensures |t| <= |s| && (|t| > 0 ==> !IsSpace(t[0]))
  {
    if |s| > 0 && IsSpace(s[0]) then SkipSpaces(s[1..]) else s
  }

  /** atoi: leading white space, an optional sign, then decimal digits. */
  function Atoi(s: string): int {
    var t := SkipSpaces(s);
    if |t| > 0 && t[0] == '-' then 0 - DigitsValue(LeadingDigits(t[1..]))
    else if |t| > 0 && t[0] == '+' then DigitsValue(LeadingDigits(t[1..]))
    else DigitsValue(LeadingDigits(t))
  }

  /** The decimal digits of n, most significant first. */
  function Decimal(n: nat): (s: string)
    ensures |s| > 0 && forall i :: 0 <= i < |s| ==> IsDigit(s[i])
  {
    if n < 10 then [('0' as int + n) as char]
    else Decimal(n / 10) + [('0' as int + n % 10) as char]
  }

  /** "%d". */
  function FormatInt(v: int): (s: string)
    ensures |s| > 0 && !IsSpace(s[0]) && IsDigit(s[|s| - 1])
  {
    if v < 0 then "-" + Decimal(-v) else Decimal(v)
  }

  lemma {:induction false} DecimalValue(n: nat)
    ensures DigitsValue(Decimal(n)) == n
  {
    if n >= 10 {
      DecimalValue(n / 10);
      var s := Decimal(n);
      assert s[..|s| - 1] == Decimal(n / 10);
    }
  }

  lemma {:induction false} LeadingDigitsAll(s: string)
    requires forall i :: 0 <= i < |s| ==> IsDigit(s[i])
    ensures LeadingDigits(s) == s
  {
    if |s| > 0 {
      LeadingDigitsAll(s[1..]);
    }
  }

  /** atoi reads back what "%d" prints. */
  lemma AtoiFormatInt(v: int)
    ensures Atoi(FormatInt(v)) == v
  {
    var s := FormatInt(v);
    assert SkipSpaces(s) == s;
    if v < 0 {
      assert s[0] == '-' && s[1..] == Decimal(-v);
      LeadingDigitsAll(Decimal(-v));
      DecimalValue(-v);
    } else {
      assert s == Decimal(v) && IsDigit(s[0]);
      LeadingDigitsAll(s);
      DecimalValue(v);
    }
  }

  /** pw_properties_parse_bool: "true", or a number equal to 1. */
  predicate ParseBool(s: string) {
    s == "true" || Atoi(s) == 1
  }

  const UINT64_MAX: nat := 0xFFFF_FFFF_FFFF_FFFF

  /** pw_properties_parse_uint64 of a decimal value, saturating at UINT64_MAX. */
  function ParseUint64(s: string): (v: nat)
    ensures v <= UINT64_MAX
  {
    var n := DigitsValue(LeadingDigits(SkipSpaces(s)));
    if n > UINT64_MAX then UINT64_MAX else n
  }

  /** An int stored into a uint32_t. */
  function ToUint32(v: int): (u: nat)
    ensures u < 0x1_0000_0000 && (0 <= v < 0x1_0000_0000 ==> u == v)
  {
    v % 0x1_0000_0000
  }

  // ------------------------------------------------- rescan decisions

  /**
   * The default category of a node without one: Capture for an input
   * node or one with only input ports, Playback for an output node or one
   * with only output ports, Duplex for one with ports both ways, and none
   * (-EINVAL) otherwise.
   */
  function DefaultCategory(direction: Option<Direction>, nIn: nat, nOut: nat): (c: Option<string>)
    ensures direction == Some(Input) ==> c == Some("Capture")
    ensures direction == Some(Output) && !(nIn > 0 && nOut == 0) ==> c == Some("Playback")
    ensures direction.None? ==>
              c == (if nIn > 0 && nOut == 0 then Some("Capture")
                    else if nOut > 0 && nIn == 0 then Some("Playback")
                    else if nIn > 0 && nOut > 0 then Some("Duplex")
                    else None)
  {
    if direction == Some(Input) || (nIn > 0 && nOut == 0) then Some("Capture")
    else if direction == Some(Output) || (nOut > 0 && nIn == 0) then Some("Playback")
    else if nOut > 0 && nIn > 0 then Some("Duplex")
    else None
  }

  /**
   * The default category as written: the node's direction field is always
   * INPUT or OUTPUT (a node the media class did not classify keeps the
   * zero value, INPUT). The port counts are still read, so an OUTPUT node
   * with only input ports is Capture, but Duplex and the undetermined case
   * cannot be reached.
   */
  function DefaultCategoryAsWritten(direction: Direction, nIn: nat, nOut: nat): Option<string> {
    if direction == Input || (nIn > 0 && nOut == 0) then Some("Capture")
    else if direction == Output || (nOut > 0 && nIn == 0) then Some("Playback")
    else if nOut > 0 && nIn > 0 then Some("Duplex")
    else None
  }

  /**
   * As written, the category never comes out Duplex or undetermined, and an
   * unclassified node with only output ports is taken for Capture; the port
   * counts still turn an OUTPUT node with only input ports into Capture.
   */
  lemma DefaultCategoryAsWrittenIgnoresPorts(d: Direction, nIn: nat, nOut: nat)
    ensures DefaultCategoryAsWritten(d, nIn, nOut) == Some("Capture") || DefaultCategoryAsWritten(d, nIn, nOut) == Some("Playback")
    ensures DefaultCategoryAsWritten(Input, 0, 1) == Some("Capture")
    ensures DefaultCategoryAsWritten(Output, 1, 0) == Some("Capture")
    ensures DefaultCategory(None, 0, 1) == Some("Playback")
  {
  }

  /** For a node with a direction the corrected default agrees with the code. */
  lemma DefaultCategoryAgrees(d: Direction, nIn: nat, nOut: nat)
    ensures DefaultCategory(Some(d), nIn, nOut) == DefaultCategoryAsWritten(d, nIn, nOut)
  {
  }

  /**
   * The default role: for Audio, Communication for Duplex, Capture for
   * Capture and Multimedia otherwise; for Video, Communication, Camera
   * and Video likewise; none for other media.
   */
  function DefaultRole(media: string, category: string): (r: Option<string>)
    ensures r.None? <==> media != "Audio" && media != "Video"
    ensures r.Some? && category == "Duplex" ==> r == Some("Communication")
    ensures media == "Audio" && category == "Capture" ==> r == Some("Capture")
    ensures media == "Video" && category == "Capture" ==> r == Some("Camera")
    ensures category != "Duplex" && category != "Capture" ==>
              r == (if media == "Audio" then Some("Multimedia") else if media == "Video" then Some("Video") else None)
  {
    if media == "Audio" then
      if category == "Duplex" then Some("Communication")
      else if category == "Capture" then Some("Capture")
      else Some("Multimedia")
    else if media == "Video" then
      if category == "Duplex" then Some("Communication")
      else if category == "Capture" then Some("Camera")
      else Some("Video")
    else None
  }

  /** What a stream looks for: the media class of the session and the preferred device, if any. */
  datatype Find = Find(pathId: nat, mediaClass: string, device: Option<string>, exclusive: bool)

  /**
   * The session class a stream of this media and category looks for:
   * Audio Playback an Audio/Sink on the preferred sink, Audio Capture an
   * Audio/Source on the preferred source, Video Capture a Video/Source;
   * every other pair is refused (-EINVAL).
   */
  function SearchClass(media: string, category: string, sink: Option<string>, src: Option<string>): (r: Option<(string, Option<string>)>)
    ensures r.Some? <==> (media == "Audio" && (category == "Playback" || category == "Capture"))
                         || (media == "Video" && category == "Capture")
    ensures r.Some? ==> (r.value.0 == "Audio/Sink" <==> media == "Audio" && category == "Playback")
    ensures r.Some? && media == "Audio" ==> r.value.1 == (if category == "Playback" then sink else src)
    ensures r.Some? && media == "Video" ==> r.value == ("Video/Source", None)
    ensures r.Some? ==> category == "Capture" || category == "Playback"
  {
    if media == "Audio" then
      if category == "Playback" then Some(("Audio/Sink", sink))
      else if category == "Capture" then Some(("Audio/Source", src))
      else None
    else if media == "Video" then
      if category == "Capture" then Some(("Video/Source", None))
      else None
    else None
  }

  /**
   * How rescan_node ends before the session search: Ignore returns 0,
   * Invalid returns -EINVAL before a role is stored, Reject stores the role
   * and returns -EINVAL, Search stores the role and looks for a session,
   * linking in `direction`.
   */
  datatype Decision =
    | Ignore
    | Invalid
    | Reject(role: string)
    | Search(role: string, find: Find, direction: Direction)

  /** The stream-side checks of rescan_node, with a node's direction as the code reads it. */
  function RescanWith(n: Node, category: Option<string>, sink: Option<string>, src: Option<string>): (r: Option<Decision>)
    requires n.info.Some? && (n.media.Some? || Media in n.info.value)
    ensures category.None? <==> r == Some(Invalid)
    ensures r.Some? && (r.value.Reject? || r.value.Search?) && Role in n.info.value ==> r.value.role == n.info.value[Role]
    ensures r.None? ==> Role !in n.info.value
    ensures r.Some? && r.value.Search? ==> r.value.direction == (if category.value == "Capture" then Output else Input)
    ensures r != Some(Ignore)
  {
    var props := n.info.value;
    var media := if Media in props then props[Media] else n.media.value;
    if category.None? then Some(Invalid)
    else
      var role := if Role in props then Some(props[Role]) else DefaultRole(media, category.value);
      if role.None? then None
      else
        var exclusive := Exclusive in props && ParseBool(props[Exclusive]);
        var target := SearchClass(media, category.value, sink, src);
        if target.None? then Some(Reject(role.value))
        else
          var direction := if category.value == "Capture" then Output else Input;
          var pathId := if TargetNode in props then ToUint32(Atoi(props[TargetNode])) else ID_INVALID;
          Some(Search(role.value, Find(pathId, target.value.0, target.value.1, exclusive), direction))
  }

  /** The checks before the category: which nodes rescan_node looks at all. */
  predicate Rescannable(n: Node) {
    n.nodeType != DspNode && n.nodeType != DeviceNode && n.session.None? && n.info.Some?
    && Autoconnect in n.info.value && ParseBool(n.info.value[Autoconnect])
    && (Media in n.info.value || n.media.Some?)
  }

  function CategoryOf(n: Node): Option<string>
    requires n.info.Some?
  {
    if Category in n.info.value then Some(n.info.value[Category])
    else DefaultCategory(n.direction, n.nInputPorts, n.nOutputPorts)
  }

  /**
   * rescan_node's decisions as written. None stands for strdup(NULL): a
   * stream whose media is neither Audio nor Video and that has no role
   * gets no default role, which is then duplicated.
   */
  function RescanAsWritten(n: Node, sink: Option<string>, src: Option<string>): (r: Option<Decision>)
    ensures r == Some(Ignore) <==> !Rescannable(n)
    ensures r != Some(Invalid)
  {
    if !Rescannable(n) then Some(Ignore)
    else
      var category := if Category in n.info.value then Some(n.info.value[Category])
                      else DefaultCategoryAsWritten(if n.direction.Some? then n.direction.value else Input, n.nInputPorts, n.nOutputPorts);
      RescanWith(n, category, sink, src)
  }

  /**
   * rescan_node's decisions, corrected: a node without a direction gets
   * its category from its ports, and a stream of other media without a
   * role is refused (-EINVAL) before a role is stored.
   */
  function Rescan(n: Node, sink: Option<string>, src: Option<string>): (d: Decision)
    ensures !Rescannable(n) ==> d == Ignore
    ensures d.Search? ==> RoleOk(n, d.role) && SearchOk(n, d.find, d.direction, sink, src)
    ensures d.Reject? ==> RoleOk(n, d.role) && SearchClass(MediaOf(n), CategoryOf(n).value, sink, src).None?
    ensures d.Invalid? <==> Rescannable(n) && (CategoryOf(n).None?
                              || (Role !in n.info.value && MediaOf(n) != "Audio" && MediaOf(n) != "Video"))
  {
    if !Rescannable(n) then Ignore
    else
      var r := RescanWith(n, CategoryOf(n), sink, src);
      if r.None? then Invalid else r.value
  }

  function MediaOf(n: Node): string
    requires Rescannable(n)
  {
    if Media in n.info.value then n.info.value[Media] else n.media.value
  }

  /** The stored role is the node's own role, or the default for its media and category. */
  predicate RoleOk(n: Node, role: string)
    requires Rescannable(n)
  {
    CategoryOf(n).Some?
    && Some(role) == if Role in n.info.value then Some(n.info.value[Role]) else DefaultRole(MediaOf(n), CategoryOf(n).value)
  }

  /**
   * The search matches the media and category, links captures as OUTPUT
   * and playbacks as INPUT, follows the target node when there is one
   * and is exclusive as the node asks.
   */
  predicate SearchOk(n: Node, f: Find, direction: Direction, sink: Option<string>, src: Option<string>)
    requires Rescannable(n)
  {
    CategoryOf(n).Some?
    && SearchClass(MediaOf(n), CategoryOf(n).value, sink, src) == Some((f.mediaClass, f.device))
    && (direction == Output <==> CategoryOf(n).value == "Capture")
    && f.pathId == (if TargetNode in n.info.value then ToUint32(Atoi(n.info.value[TargetNode])) else ID_INVALID)
    && (f.exclusive <==> Exclusive in n.info.value && ParseBool(n.info.value[Exclusive]))
  }

  /** A stream of other media without a role makes the code duplicate a NULL role. */
  lemma RescanAsWrittenDuplicatesNull(n: Node)
    requires Rescannable(n) && Role !in n.info.value && Media in n.info.value && n.info.value[Media] == "Midi"
    requires Category in n.info.value
    ensures RescanAsWritten(n, None, None).None?
    ensures Rescan(n, None, None) == Invalid
  {
  }

  /** Wherever the code does not crash and the node has a direction, the corrected decisions are the code's. */
  lemma RescanAgrees(n: Node, sink: Option<string>, src: Option<string>)
    requires RescanAsWritten(n, sink, src).Some? && (n.direction.Some? || (n.info.Some? && Category in n.info.value))
    ensures Rescan(n, sink, src) == RescanAsWritten(n, sink, src).value
  {
    if Rescannable(n) && Category !in n.info.value {
      DefaultCategoryAgrees(n.direction.value, n.nInputPorts, n.nOutputPorts);
    }
  }

  // --------------------------------------------------------- find_session

  /** The info properties of a session's device node. */
  function SessionProps(nodes: map<nat, Node>, s: Session): Option<Props> {
    if s.node in nodes then nodes[s.node].info else None
  }

  /**
   * find_session's filter: an enabled session, the target itself when a
   * target is given, or else one whose device node has the media class
   * (and the preferred device, when there is one); never an exclusive
   * session, and no busy session for an exclusive request.
   */
  predicate Candidate(nodes: map<nat, Node>, s: Session, f: Find) {
    s.enabled
    && (f.pathId != ID_INVALID ==> s.id == f.pathId)
    && (f.pathId == ID_INVALID ==>
          var props := SessionProps(nodes, s);
          props.Some? && MediaClass in props.value && props.value[MediaClass] == f.mediaClass
          && (f.device.Some? ==> AlsaDevice in props.value && props.value[AlsaDevice] == f.device.value))
    && !(f.exclusive && s.busy) && !s.exclusive
  }

  /** The value sessions compete on: `plugged`, or 0 when a target is given. */
  function Rank(s: Session, f: Find): nat {
    if f.pathId == ID_INVALID then s.plugged else 0
  }

  /** The session find_session settles on over the list: the first candidate unless a later one ranks strictly higher. */
  function Best(nodes: map<nat, Node>, ss: seq<Session>, f: Find): (b: Option<nat>)
    ensures b.Some? ==> b.value < |ss| && Candidate(nodes, ss[b.value], f)
    decreases |ss|
  {
    if |ss| == 0 then None
    else
      var prev := Best(nodes, ss[..|ss| - 1], f);
      var s := ss[|ss| - 1];
      if Candidate(nodes, s, f) && (prev.None? || Rank(s, f) > Rank(ss[prev.value], f)) then Some(|ss| - 1)
      else prev
  }

  /**
   * The chosen session ranks highest among the candidates and every
   * candidate before it ranks strictly lower; there is none exactly when
   * no session is a candidate.
   */
  lemma {:induction false} BestIsFirstHighest(nodes: map<nat, Node>, ss: seq<Session>, f: Find)
    ensures Best(nodes, ss, f).None? <==> forall k :: 0 <= k < |ss| ==> !Candidate(nodes, ss[k], f)
    ensures Best(nodes, ss, f).Some? ==>
              forall k :: 0 <= k < |ss| && Candidate(nodes, ss[k], f) ==>
                Rank(ss[k], f) <= Rank(ss[Best(nodes, ss, f).value], f)
                && (k < Best(nodes, ss, f).value ==> Rank(ss[k], f) < Rank(ss[Best(nodes, ss, f).value], f))
    decreases |ss|
  {
    if |ss| > 0 {
      var init := ss[..|ss| - 1];
      BestIsFirstHighest(nodes, init, f);
      assert forall k :: 0 <= k < |init| ==> init[k] == ss[k];
    }
  }

  /** With a target, the first candidate wins. */
  lemma TargetTakesFirst(nodes: map<nat, Node>, ss: seq<Session>, f: Find)
    requires f.pathId != ID_INVALID && Best(nodes, ss, f).Some?
    ensures forall k :: 0 <= k < Best(nodes, ss, f).value ==> !Candidate(nodes, ss[k], f)
  {
    BestIsFirstHighest(nodes, ss, f);
  }

  // ------------------------------------------------------------ link_nodes

  /** A peer port link_nodes can use: the other direction and not SKIP. */
  predicate Linkable(p: Port, direction: Direction) {
    p.direction != direction && !p.skip
  }

  /**
   * The ports link_nodes links as written: past the first `zoneSkip`
   * linkable ones, until `max` runs out (never, for a negative max).
   */
  function LinkRunAsWritten(ports: seq<Port>, direction: Direction, zoneSkip: int, max: int): (r: seq<Port>)
    ensures max >= 0 ==> |r| <= max
    decreases |ports|
  {
    if |ports| == 0 then []
    else if !Linkable(ports[0], direction) then LinkRunAsWritten(ports[1..], direction, zoneSkip, max)
    else if zoneSkip > 0 then LinkRunAsWritten(ports[1..], direction, zoneSkip - 1, max)
    else if max == 0 then []
    else [ports[0]] + LinkRunAsWritten(ports[1..], direction, zoneSkip - 1, max - 1)
  }

  /** The same with at most `room` links, the free link slots. */
  function LinkRun(ports: seq<Port>, direction: Direction, zoneSkip: int, max: int, room: nat): (r: seq<Port>)
    ensures |r| <= room
    decreases |ports|
  {
    if |ports| == 0 then []
    else if !Linkable(ports[0], direction) then LinkRun(ports[1..], direction, zoneSkip, max, room)
    else if zoneSkip > 0 then LinkRun(ports[1..], direction, zoneSkip - 1, max, room)
    else if max == 0 || room == 0 then []
    else [ports[0]] + LinkRun(ports[1..], direction, zoneSkip - 1, max - 1, room - 1)
  }

  /** The linkable ports, in list order. */
  function LinkablePorts(ports: seq<Port>, direction: Direction): (r: seq<Port>)
    ensures forall p :: p in r ==> p in ports && Linkable(p, direction)
    ensures forall p :: p in ports && Linkable(p, direction) ==> p in r
  {
    if |ports| == 0 then []
    else (if Linkable(ports[0], direction) then [ports[0]] else []) + LinkablePorts(ports[1..], direction)
  }

  /** The first n of s (all of s when n is negative or large). */
  function Take<T>(s: seq<T>, n: int): (r: seq<T>)
    ensures r <= s
  {
    if n < 0 || n >= |s| then s else s[..n]
  }

  function Skip<T>(s: seq<T>, n: int): seq<T> {
    if n <= 0 then s else if n >= |s| then [] else s[n..]
  }

  /**
   * As written, link_nodes links the linkable ports that follow the first
   * `zoneSkip` of them, at most `max` of them when max is not negative.
   */
  lemma {:induction false} LinkRunAsWrittenMeaning(ports: seq<Port>, direction: Direction, zoneSkip: int, max: int)
    ensures LinkRunAsWritten(ports, direction, zoneSkip, max) == Take(Skip(LinkablePorts(ports, direction), zoneSkip), max)
    decreases |ports|
  {
    if |ports| > 0 {
      var p := ports[0];
      var rest := LinkablePorts(ports[1..], direction);
      var all := LinkablePorts(ports, direction);
      var run := LinkRunAsWritten(ports, direction, zoneSkip, max);
      if !Linkable(p, direction) {
        LinkRunAsWrittenMeaning(ports[1..], direction, zoneSkip, max);
        assert all == [] + rest == rest;
        assert run == LinkRunAsWritten(ports[1..], direction, zoneSkip, max);
        assert run == Take(Skip(all, zoneSkip), max);
      } else if zoneSkip > 0 {
        LinkRunAsWrittenMeaning(ports[1..], direction, zoneSkip - 1, max);
        assert all == [p] + rest;
        SkipCons(p, rest, zoneSkip);
        assert run == LinkRunAsWritten(ports[1..], direction, zoneSkip - 1, max);
        assert run == Take(Skip(all, zoneSkip), max);
      } else if max == 0 {
        assert run == [];
        assert Take(Skip(all, zoneSkip), max) == [];
        assert run == Take(Skip(all, zoneSkip), max);
      } else {
        LinkRunAsWrittenMeaning(ports[1..], direction, zoneSkip - 1, max - 1);
        assert all == [p] + rest;
        assert Skip(all, zoneSkip) == all && Skip(rest, zoneSkip - 1) == rest;
        assert run == [p] + LinkRunAsWritten(ports[1..], direction, zoneSkip - 1, max - 1);
        TakeCons(p, rest, max);
        assert run == Take(Skip(all, zoneSkip), max);
      }
    } else {
      assert LinkablePorts(ports, direction) == [];
      assert LinkRunAsWritten(ports, direction, zoneSkip, max) == [];
    }
  }

  lemma SkipCons<T>(x: T, s: seq<T>, n: int)
    requires n > 0
    ensures Skip([x] + s, n) == Skip(s, n - 1)
  {
    if 0 < n - 1 < |s| {
      assert ([x] + s)[n..] == s[n - 1..];
    }
  }

  lemma TakeCons<T>(x: T, s: seq<T>, n: int)
    requires n != 0
    ensures Take([x] + s, n) == [x] + Take(s, n - 1)
  {
    if 0 < n <= |s| {
      assert ([x] + s)[..n] == [x] + s[..n - 1];
    }
  }

  /** With room for `room` links, the corrected run is the first `room` links of the code's. */
  lemma {:induction false} LinkRunIsCapped(ports: seq<Port>, direction: Direction, zoneSkip: int, max: int, room: nat)
    ensures LinkRun(ports, direction, zoneSkip, max, room) == Take(LinkRunAsWritten(ports, direction, zoneSkip, max), room)
    decreases |ports|
  {
    if |ports| > 0 {
      if !Linkable(ports[0], direction) {
        LinkRunIsCapped(ports[1..], direction, zoneSkip, max, room);
      } else if zoneSkip > 0 {
        LinkRunIsCapped(ports[1..], direction, zoneSkip - 1, max, room);
      } else if max != 0 && room != 0 {
        LinkRunIsCapped(ports[1..], direction, zoneSkip - 1, max - 1, room - 1);
        var rest := LinkRunAsWritten(ports[1..], direction, zoneSkip - 1, max - 1);
        assert Take([ports[0]] + rest, room) == [ports[0]] + Take(rest, room - 1);
      }
    }
  }

  /** When every port is linkable and nothing is skipped, the code links all of them up to max. */
  lemma {:induction false} LinkRunAsWrittenAll(ports: seq<Port>, direction: Direction, max: int)
    requires forall p :: p in ports ==> Linkable(p, direction)
    requires max < 0 || max >= |ports|
    ensures LinkRunAsWritten(ports, direction, 0, max) == ports
    decreases |ports|
  {
    if |ports| > 0 {
      assert forall p :: p in ports[1..] ==> p in ports;
      LinkRunAsWrittenAll(ports[1..], direction, max - 1);
      assert LinkRunAsWritten(ports[1..], direction, -1, max - 1) == LinkRunAsWritten(ports[1..], direction, 0, max - 1) by {
        SkipSignOnly(ports[1..], direction, -1, max - 1);
      }
    }
  }

  /** Only whether zoneSkip is positive matters once it is not. */
  lemma {:induction false} SkipSignOnly(ports: seq<Port>, direction: Direction, zoneSkip: int, max: int)
    requires zoneSkip <= 0
    ensures LinkRunAsWritten(ports, direction, zoneSkip, max) == LinkRunAsWritten(ports, direction, 0, max)
    decreases |ports|
  {
    if |ports| > 0 {
      SkipSignOnly(ports[1..], direction, zoneSkip, max);
      SkipSignOnly(ports[1..], direction, zoneSkip - 1, max);
      SkipSignOnly(ports[1..], direction, zoneSkip - 1, max - 1);
      SkipSignOnly(ports[1..], direction, -1, max);
      SkipSignOnly(ports[1..], direction, -1, max - 1);
    }
  }

  /**
   * A peer with 18 linkable ports and a max of 18 (a stream and a DSP
   * node of 18 channels each) makes the code write 18 link slots, two
   * past the 16 there are.
   */
  lemma LinkNodesOverrunsSlots()
    ensures var ports := seq(18, i requires 0 <= i => Port(i, Input, true, false));
      |LinkRunAsWritten(ports, Output, 0, 18)| == 18 > MAX_LINKS
      && |LinkRun(ports, Output, 0, 18, MAX_LINKS)| == MAX_LINKS
  {
    var ports := seq(18, i requires 0 <= i => Port(i, Input, true, false));
    LinkRunAsWrittenAll(ports, Output, 18);
    LinkRunIsCapped(ports, Output, 0, 18, MAX_LINKS);
  }

  // ------------------------------------------------------ command grammar

  /** The characters stripped around a command. */
  predicate IsStripped(c: char) { c == '\n' || c == '\r' || c == ' ' || c == '\t' }

  /** The characters between a command's words. */
  predicate IsDelimiter(c: char) { c == ' ' || c == '\t' }

  function StripFront(s: string): (t: string)
    ensures |t| <= |s| && (|t| > 0 ==> !IsStripped(t[0]))
  {
    if |s| > 0 && IsStripped(s[0]) then StripFront(s[1..]) else s
  }

  function StripBack(s: string): (t: string)
    ensures t <= s && (|t| > 0 ==> !IsStripped(t[|t| - 1]))
    decreases |s|
  {
    if |s| > 0 && IsStripped(s[|s| - 1]) then StripBack(s[..|s| - 1]) else s
  }

  /** What StripFront cuts off is white space, and it keeps the rest. */
  lemma {:induction false} StripFrontCuts(s: string)
    ensures StripFront(s) == s[|s| - |StripFront(s)|..]
    ensures forall j :: 0 <= j < |s| - |StripFront(s)| ==> IsStripped(s[j])
    decreases |s|
  {
    if |s| > 0 && IsStripped(s[0]) {
      StripFrontCuts(s[1..]);
      assert forall j :: 1 <= j < |s| ==> s[j] == s[1..][j - 1];
    }
  }

  /** What StripBack cuts off is white space. */
  lemma {:induction false} StripBackCuts(s: string)
    ensures forall j :: |StripBack(s)| <= j < |s| ==> IsStripped(s[j])
    decreases |s|
  {
    if |s| > 0 && IsStripped(s[|s| - 1]) {
      StripBackCuts(s[..|s| - 1]);
    }
  }

  /** t sits at offset k in s, with only stripped characters before and after it. */
  predicate TrimmedAt(s: string, t: string, k: nat) {
    k + |t| <= |s| && s[k..k + |t|] == t
    && (forall j :: 0 <= j < k ==> IsStripped(s[j]))
    && (forall j :: k + |t| <= j < |s| ==> IsStripped(s[j]))
  }

  /**
   * pw_strip: the string without leading and trailing white space; what
   * is left neither starts nor ends with it (StripTrimmed: what is cut off
   * on either side is all white space).
   */
  function Strip(s: string): (t: string)
    ensures |t| > 0 ==> !IsStripped(t[0]) && !IsStripped(t[|t| - 1])
  {
    StripBack(StripFront(s))
  }

  /** What Strip keeps sits in the line with only white space before and after it. */
  lemma StripTrimmed(s: string)
    ensures TrimmedAt(s, Strip(s), |s| - |StripFront(s)|)
  {
    var f := StripFront(s);
    var t := StripBack(f);
    var k := |s| - |f|;
    StripFrontCuts(s);
    StripBackCuts(f);
    assert t == f[..|t|];
    assert s[k..k + |t|] == t;
    assert forall j :: 0 <= j < k ==> IsStripped(s[j]);
    forall j | k + |t| <= j < |s|
      ensures IsStripped(s[j])
    {
      assert s[j] == f[j - k];
    }
    assert TrimmedAt(s, t, k);
  }

  /** strcspn over the delimiters. */
  function WordLength(s: string): (n: nat)
    ensures n <= |s| && (n < |s| ==> IsDelimiter(s[n]))
    ensures forall i :: 0 <= i < n ==> !IsDelimiter(s[i])
  {
    if |s| == 0 || IsDelimiter(s[0]) then 0 else 1 + WordLength(s[1..])
  }

  /** strspn over the delimiters. */
  function SkipDelimiters(s: string): (t: string)
    ensures |t| <= |s| && (|t| > 0 ==> !IsDelimiter(t[0]))
  {
    if |s| > 0 && IsDelimiter(s[0]) then SkipDelimiters(s[1..]) else s
  }

  lemma {:induction false} SkipDelimitersSuffix(s: string)
    ensures SkipDelimiters(s) == s[|s| - |SkipDelimiters(s)|..]
    decreases |s|
  {
    if |s| > 0 && IsDelimiter(s[0]) {
      SkipDelimitersSuffix(s[1..]);
    }
  }

  /**
   * pw_split_ip: up to max_tokens tokens (one when max_tokens is 0 or 1);
   * every token but the last is free of delimiters, and the last is the
   * rest of the string, delimiters and all.
   */
  function SplitIp(s: string, maxTokens: nat): (ts: seq<string>)
    ensures ts == [] <==> s == ""
    ensures |ts| <= Max(maxTokens, 1)
    decreases |s|
  {
    if s == "" then []
    else if maxTokens <= 1 then [s]
    else
      var n := WordLength(s);
      [s[..n]] + SplitIp(SkipDelimiters(s[n..]), maxTokens - 1)
  }

  /** No delimiter in s (a token, possibly empty). */
  predicate Undelimited(s: string) {
    forall i :: 0 <= i < |s| ==> !IsDelimiter(s[i])
  }

  /** Every token but the last holds no delimiter, and the last too when fewer than `maxTokens` came out. */
  predicate TokensUndelimited(ts: seq<string>, maxTokens: nat) {
    forall i :: 0 <= i < |ts| && (i < |ts| - 1 || |ts| < Max(maxTokens, 1)) ==> Undelimited(ts[i])
  }

  /**
   * The tokens of a split hold no delimiter: every token but the last, and
   * the last too when fewer than max_tokens came out.
   */
  lemma {:induction false} SplitIpTokens(s: string, maxTokens: nat)
    ensures TokensUndelimited(SplitIp(s, maxTokens), maxTokens)
    decreases |s|
  {
    if s != "" && maxTokens > 1 {
      var n := WordLength(s);
      var r := SkipDelimiters(s[n..]);
      SplitIpTokens(r, maxTokens - 1);
      var rest := SplitIp(r, maxTokens - 1);
      var ts := SplitIp(s, maxTokens);
      assert ts == [s[..n]] + rest;
      assert Undelimited(s[..n]);
      assert Max(maxTokens, 1) == Max(maxTokens - 1, 1) + 1;
      forall i | 0 < i < |ts| && (i < |ts| - 1 || |ts| < Max(maxTokens, 1))
        ensures Undelimited(ts[i])
      {
        assert ts[i] == rest[i - 1];
      }
    }
  }

  /** When `maxTokens` tokens came out, the last is a suffix of s. */
  predicate LastIsRest(ts: seq<string>, s: string, maxTokens: nat) {
    |ts| == Max(maxTokens, 1) ==> |ts[|ts| - 1]| <= |s| && ts[|ts| - 1] == s[|s| - |ts[|ts| - 1]|..]
  }

  /** When max_tokens tokens came out, the last is the unsplit rest of the line, a suffix of it. */
  lemma {:induction false} SplitIpLastIsRest(s: string, maxTokens: nat)
    ensures LastIsRest(SplitIp(s, maxTokens), s, maxTokens)
    decreases |s|
  {
    if s != "" && maxTokens > 1 {
      var n := WordLength(s);
      var r := SkipDelimiters(s[n..]);
      SplitIpLastIsRest(r, maxTokens - 1);
      var rest := SplitIp(r, maxTokens - 1);
      var ts := SplitIp(s, maxTokens);
      assert ts == [s[..n]] + rest;
      if |ts| == Max(maxTokens, 1) {
        assert |rest| == Max(maxTokens - 1, 1);
        var w := rest[|rest| - 1];
        assert ts[|ts| - 1] == w && w == r[|r| - |w|..];
        SkipDelimitersSuffix(s[n..]);
        assert r == s[|s| - |r|..];
        assert s[|s| - |r|..][|r| - |w|..] == s[|s| - |w|..];
      }
    }
  }

  /** The words of a line: its maximal runs of non-delimiters, in order. */
  function Words(s: string): (ws: seq<string>)
    ensures forall i :: 0 <= i < |ws| ==> IsWord(ws[i])
    decreases |s|
  {
    if s == "" then []
    else if IsDelimiter(s[0]) then Words(s[1..])
    else
      var n := WordLength(s);
      [s[..n]] + Words(s[n..])
  }

  lemma {:induction false} WordsSkipDelimiters(s: string)
    ensures Words(SkipDelimiters(s)) == Words(s)
    decreases |s|
  {
    if |s| > 0 && IsDelimiter(s[0]) {
      WordsSkipDelimiters(s[1..]);
    }
  }

  /**
   * On a line that does not start with a delimiter, the split gives its
   * words when there are fewer than max_tokens of them; otherwise it gives
   * the first max_tokens - 1 words and then the unsplit rest.
   */
  lemma {:induction false} SplitIpIsWords(s: string, maxTokens: nat)
    requires s == "" || !IsDelimiter(s[0])
    ensures |Words(s)| < maxTokens ==> SplitIp(s, maxTokens) == Words(s)
    ensures 0 < maxTokens <= |Words(s)| ==>
              |SplitIp(s, maxTokens)| == maxTokens && SplitIp(s, maxTokens)[..maxTokens - 1] == Words(s)[..maxTokens - 1]
    decreases |s|
  {
    if s != "" && maxTokens > 1 {
      var n := WordLength(s);
      var r := SkipDelimiters(s[n..]);
      WordsSkipDelimiters(s[n..]);
      SplitIpIsWords(r, maxTokens - 1);
      assert Words(s) == [s[..n]] + Words(r);
      assert SplitIp(s, maxTokens) == [s[..n]] + SplitIp(r, maxTokens - 1);
      if 0 < maxTokens <= |Words(s)| {
        assert SplitIp(s, maxTokens)[..maxTokens - 1] == [s[..n]] + SplitIp(r, maxTokens - 1)[..maxTokens - 2];
        assert Words(s)[..maxTokens - 1] == [s[..n]] + Words(r)[..maxTokens - 2];
      }
    }
  }

  datatype Command = VolumeCmd | MuteCmd | ZoneCmd
  datatype Action = Set(value: int) | Query
  datatype Request = Request(cmd: Command, role: string, action: Action)

  function CommandName(c: Command): string {
    match c
    case VolumeCmd => "volume"
    case MuteCmd => "mute"
    case ZoneCmd => "zone"
  }

  /** The values a command accepts: volume 0..100, mute 0..1, zone from 0 up; -1 queries. */
  predicate Settable(c: Command, v: int) {
    match c
    case VolumeCmd => 0 <= v <= 100
    case MuteCmd => 0 <= v <= 1
    case ZoneCmd => v >= 0
  }

  /**
   * parse's grammar: at least three words after stripping, the first a
   * command name, the third a number the command accepts or -1.
   */
  function ParseRequest(buf: string): (r: Option<Request>)
    ensures r.Some? && r.value.action.Set? ==> Settable(r.value.cmd, r.value.action.value)
  {
    var p := Strip(buf);
    if p == "" then None
    else
      var a := SplitIp(p, 3);
      if |a| < 3 then None
      else RequestOf(a[0], a[1], Atoi(a[2]))
  }

  /** The request the three words make, when the command and the value are good. */
  function RequestOf(name: string, role: string, value: int): (r: Option<Request>)
    ensures r.Some? && r.value.action.Set? ==> Settable(r.value.cmd, r.value.action.value)
  {
    var cmd := if name == "volume" then Some(VolumeCmd)
               else if name == "mute" then Some(MuteCmd)
               else if name == "zone" then Some(ZoneCmd)
               else None;
    if cmd.None? then None
    else if Settable(cmd.value, value) then Some(Request(cmd.value, role, Set(value)))
    else if value == -1 then Some(Request(cmd.value, role, Query))
    else None
  }

  /** A request written out as a command line. */
  function Render(r: Request): string {
    CommandName(r.cmd) + " " + r.role + " " + FormatInt(if r.action.Set? then r.action.value else -1)
  }

  /** A word that survives splitting: not empty and without delimiters. */
  predicate IsWord(s: string) {
    |s| > 0 && forall i :: 0 <= i < |s| ==> !IsDelimiter(s[i])
  }

  lemma {:induction false} WordLengthOf(w: string, rest: string)
    requires forall i :: 0 <= i < |w| ==> !IsDelimiter(w[i])
    requires |rest| > 0 && IsDelimiter(rest[0])
    ensures WordLength(w + rest) == |w|
  {
    if |w| > 0 {
      assert (w + rest)[1..] == w[1..] + rest;
      WordLengthOf(w[1..], rest);
    } else {
      assert w + rest == rest;
    }
  }

  lemma SkipOneDelimiter(s: string)
    requires |s| > 0 && !IsDelimiter(s[0])
    ensures SkipDelimiters(" " + s) == s
  {
    assert (" " + s)[1..] == s;
  }

  lemma {:induction false} StripFrontKeeps(s: string)
    requires |s| > 0 && !IsStripped(s[0])
    ensures StripFront(s) == s
  {
  }

  lemma {:induction false} StripBackKeeps(s: string)
    requires |s| > 0 && !IsStripped(s[|s| - 1])
    ensures StripBack(s) == s
  {
  }

  lemma SplitTwo(w: string, rest: string)
    requires IsWord(w) && |rest| > 0 && !IsDelimiter(rest[0])
    ensures SplitIp(w + " " + rest, 2) == [w, rest]
  {
    var t := w + " " + rest;
    WordLengthOf(w, " " + rest);
    assert t == w + (" " + rest);
    assert t[..|w|] == w;
    assert t[|w|..] == " " + rest;
    SkipOneDelimiter(rest);
    assert SkipDelimiters(t[|w|..]) == rest;
    assert SplitIp(rest, 1) == [rest];
    assert SplitIp(t, 2) == [t[..|w|]] + SplitIp(SkipDelimiters(t[|w|..]), 1);
  }

  lemma SplitThree(w1: string, w2: string, rest: string)
    requires IsWord(w1) && IsWord(w2) && |rest| > 0 && !IsDelimiter(rest[0])
    ensures SplitIp(w1 + " " + w2 + " " + rest, 3) == [w1, w2, rest]
  {
    var tail := w2 + " " + rest;
    var t := w1 + " " + w2 + " " + rest;
    assert t == w1 + (" " + tail);
    WordLengthOf(w1, " " + tail);
    assert t[..|w1|] == w1;
    assert t[|w1|..] == " " + tail;
    SkipOneDelimiter(tail);
    SplitTwo(w2, rest);
  }

  /** A well-formed command line parses to the request it was written from. */
  lemma ParseRender(r: Request)
    requires IsWord(r.role)
    requires r.action.Set? ==> Settable(r.cmd, r.action.value)
    ensures ParseRequest(Render(r)) == Some(r)
  {
    var v := if r.action.Set? then r.action.value else -1;
    var name := CommandName(r.cmd);
    var num := FormatInt(v);
    NameIsWord(r.cmd);
    assert !IsDelimiter(num[0]) && !IsStripped(num[|num| - 1]);
    ParseLine(name, r.role, num);
    assert Render(r) == name + " " + r.role + " " + num;
    AtoiFormatInt(v);
    RequestOfName(r.cmd, r.role, v);
    assert ParseRequest(Render(r)) == RequestOf(name, r.role, v);
    if r.action.Set? {
      assert RequestOf(name, r.role, v) == Some(Request(r.cmd, r.role, Set(v)));
      assert r == Request(r.cmd, r.role, Set(v));
    } else {
      assert !Settable(r.cmd, -1);
      assert RequestOf(name, r.role, v) == Some(Request(r.cmd, r.role, Query));
      assert r.action == Query;
    }
  }

  lemma NameIsWord(c: Command)
    ensures IsWord(CommandName(c)) && !IsStripped(CommandName(c)[0])
  {
  }

  /** Each command name selects its own command. */
  lemma RequestOfName(c: Command, role: string, v: int)
    ensures RequestOf(CommandName(c), role, v)
            == if Settable(c, v) then Some(Request(c, role, Set(v)))
               else if v == -1 then Some(Request(c, role, Query))
               else None
  {
    var name := CommandName(c);
    match c
    case VolumeCmd =>
    case MuteCmd =>
      assert name != "volume" by { assert |name| != 6; }
    case ZoneCmd =>
      assert name != "volume" by { assert |name| != 6; }
      assert name != "mute" by { assert name[0] != 'm'; }
  }

  /** Three words, the first and last not white space at the ends, parse as their request. */
  lemma ParseLine(name: string, role: string, num: string)
    requires IsWord(name) && IsWord(role) && |num| > 0 && !IsDelimiter(num[0])
    requires !IsStripped(name[0]) && !IsStripped(num[|num| - 1])
    ensures ParseRequest(name + " " + role + " " + num) == RequestOf(name, role, Atoi(num))
  {
    var line := name + " " + role + " " + num;
    assert line[0] == name[0];
    assert line[|line| - 1] == num[|num| - 1];
    StripFrontKeeps(line);
    StripBackKeeps(line);
    SplitThree(name, role, num);
    ParseWords(line);
  }

  lemma ParseWords(line: string)
    requires Strip(line) == line && line != ""
    ensures ParseRequest(line) == (var a := SplitIp(line, 3); if |a| < 3 then None else RequestOf(a[0], a[1], Atoi(a[2])))
  {
    var a := SplitIp(line, 3);
    assert ParseRequest(line) == if |a| < 3 then None else RequestOf(a[0], a[1], Atoi(a[2]));
  }
}
