/**
 * The wire layout of the endpoint and client-endpoint interfaces: each
 * method or event is one Struct pod whose fields are written in a fixed
 * order by the marshal function and read back in the same order by the
 * demarshal function. Any field that is missing or of the wrong kind makes
 * the demarshal function return -EINVAL.
 */
module EndpointProtocol {
  import opened Spa
  import opened SpaPod

  // enum endpoint_param_type
  const PARAM_EnumControl: u32 := 0x1000
  const PARAM_Control: u32 := 0x1001
  const PARAM_EnumStream: u32 := 0x1002
  /** PW_ENDPOINT_PARAM_CONTROL_id, the key of a control's id inside a Control object. */
  const PARAM_CONTROL_id: u32 := 1

  // pw_endpoint_info change mask bits
  const CHANGE_MASK_PARAMS: bv32 := 1
  const CHANGE_MASK_PROPS: bv32 := 2

  // change mask bits of pw_client_endpoint_proxy_methods.update
  const UPDATE_PARAMS: bv32 := 1
  const UPDATE_PARAMS_INCREMENTAL: bv32 := 2
  const UPDATE_INFO: bv32 := 4

  // opcodes
  const METHOD_SUBSCRIBE_PARAMS: nat := 0
  const METHOD_ENUM_PARAMS: nat := 1
  const METHOD_SET_PARAM: nat := 2
  const EVENT_INFO: nat := 0
  const EVENT_PARAM: nat := 1

  predicate HasBit(mask: u32, bit: bv32) {
    (mask as bv32) & bit != 0
  }

  /** spa_param_info: a param id and its flags. */
  datatype ParamInfo = ParamInfo(id: u32, flags: u32)

  /** spa_dict_item. */
  datatype DictItem = DictItem(key: string, value: string)

  /** pw_endpoint_info; `props` is None for a NULL dictionary. */
  datatype EndpointInfo = EndpointInfo(id: u32, changeMask: u32, params: seq<ParamInfo>, props: Option<seq<DictItem>>)

  /** The dictionary items the info carries: none for a NULL dictionary. */
  function PropItems(info: EndpointInfo): seq<DictItem> {
    if info.props.None? then [] else info.props.value
  }

  /** The counts fit the uint32 fields that carry them. */
  predicate ValidInfo(info: EndpointInfo) {
    |info.params| < 0x1_0000_0000 && |PropItems(info)| < 0x1_0000_0000
  }

  /** The info a decoder fills in: the same, with a (possibly empty) dictionary. */
  function Received(info: EndpointInfo): EndpointInfo {
    info.(props := Some(PropItems(info)))
  }

  // ---------------------------------------------------------------------
  // Endpoint info

  function ParamFields(ps: seq<ParamInfo>): (fs: seq<Pod>)
    ensures |fs| == 2 * |ps|
  {
    if |ps| == 0 then [] else [PId(ps[0].id), PInt(AsInt32(ps[0].flags))] + ParamFields(ps[1..])
  }

  function PropFields(items: seq<DictItem>): (fs: seq<Pod>)
    ensures |fs| == 2 * |items|
  {
    if |items| == 0 then [] else [PString(items[0].key), PString(items[0].value)] + PropFields(items[1..])
  }

  function InfoHeader(info: EndpointInfo): seq<Pod>
    requires ValidInfo(info)
  {
    [PId(info.id), PInt(AsInt32(info.changeMask)), PInt(AsInt32(|info.params|)), PInt(AsInt32(|PropItems(info)|))]
  }

  /** serialize_pw_endpoint_info: one struct of the header, the param pairs, then the prop pairs. */
  function EncodeInfo(info: EndpointInfo): (r: Pod)
    requires ValidInfo(info)
    ensures r.PStruct? && |r.fields| == 4 + 2 * |info.params| + 2 * |PropItems(info)|
    ensures r.fields[0] == PId(info.id)
  {
    PStruct(InfoHeader(info) + ParamFields(info.params) + PropFields(PropItems(info)))
  }

  /** `acc` in front of a decoded tail; a failed tail stays failed. */
  function Prepend<T>(acc: seq<T>, r: Option<seq<T>>): Option<seq<T>> {
    if r.None? then None else Some(acc + r.value)
  }

  /** The pair of fields `k` after `base` has the kinds t1, t2. */
  predicate PairTyped(fs: seq<Pod>, base: nat, k: nat, t1: PodType, t2: PodType) {
    base + 2 * k + 1 < |fs| && TypeOf(fs[base + 2 * k]) == t1 && TypeOf(fs[base + 2 * k + 1]) == t2
  }

  /** The n pairs of fields after `base` have the kinds t1, t2. */
  predicate PairsTyped(fs: seq<Pod>, base: nat, n: nat, t1: PodType, t2: PodType) {
    forall k: nat :: k < n ==> PairTyped(fs, base, k, t1, t2)
  }

  /** Reads n (Id, Int) pairs from position pos on. */
  function DecodeParams(fs: seq<Pod>, pos: nat, n: nat): (r: Option<seq<ParamInfo>>)
    ensures r.Some? ==> |r.value| == n
    decreases n
  {
    if n == 0 then Some([])
    else if pos + 1 < |fs| && fs[pos].PId? && fs[pos + 1].PInt? then
      Prepend([ParamInfo(fs[pos].id, AsUint32(fs[pos + 1].v))], DecodeParams(fs, pos + 2, n - 1))
    else None
  }

  /** Reads n (String, String) pairs from position pos on. */
  function DecodeProps(fs: seq<Pod>, pos: nat, n: nat): (r: Option<seq<DictItem>>)
    ensures r.Some? ==> |r.value| == n
    decreases n
  {
    if n == 0 then Some([])
    else if pos + 1 < |fs| && fs[pos].PString? && fs[pos + 1].PString? then
      Prepend([DictItem(fs[pos].s, fs[pos + 1].s)], DecodeProps(fs, pos + 2, n - 1))
    else None
  }

  /** The deserialize_pw_endpoint_info macro: push the struct, read the header, the pairs, pop. */
  function DecodeInfo(p: Pod): (r: Result<EndpointInfo>)
    ensures r.Err? ==> r.code == -EINVAL
    ensures r.Ok? ==> r.value.props.Some? && ValidInfo(r.value)
  {
    if !p.PStruct? || |p.fields| < 4 || !p.fields[0].PId? || !p.fields[1].PInt?
       || !p.fields[2].PInt? || !p.fields[3].PInt? then Err(-EINVAL)
    else
      var fs := p.fields;
      var n := AsUint32(fs[2].v);
      var m := AsUint32(fs[3].v);
      var ps := DecodeParams(fs, 4, n);
      var items := DecodeProps(fs, 4 + 2 * n, m);
      if ps.None? || items.None? then Err(-EINVAL)
      else Ok(EndpointInfo(fs[0].id, AsUint32(fs[1].v), ps.value, Some(items.value)))
  }

  /** A struct whose fields have the kinds the info decoder asks for. */
  predicate InfoWellTyped(p: Pod) {
    p.PStruct? && |p.fields| >= 4 && p.fields[0].PId? && p.fields[1].PInt?
    && p.fields[2].PInt? && p.fields[3].PInt?
    && PairsTyped(p.fields, 4, AsUint32(p.fields[2].v), TId, TInt)
    && PairsTyped(p.fields, 4 + 2 * AsUint32(p.fields[2].v), AsUint32(p.fields[3].v), TString, TString)
  }

  lemma {:induction false} DecodeParamsSomeIff(fs: seq<Pod>, pos: nat, n: nat)
    ensures DecodeParams(fs, pos, n).Some? <==> PairsTyped(fs, pos, n, TId, TInt)
    decreases n
  {
    if n > 0 {
      DecodeParamsSomeIff(fs, pos + 2, n - 1);
      forall k: nat | 1 <= k < n
        ensures PairTyped(fs, pos, k, TId, TInt) == PairTyped(fs, pos + 2, k - 1, TId, TInt)
      {
        assert pos + 2 + 2 * (k - 1) == pos + 2 * k;
      }
      if DecodeParams(fs, pos, n).Some? {
        forall k: nat | k < n ensures PairTyped(fs, pos, k, TId, TInt) {
          if k > 0 {
            assert PairTyped(fs, pos + 2, k - 1, TId, TInt);
          }
        }
      } else if pos + 1 < |fs| && fs[pos].PId? && fs[pos + 1].PInt? {
        var k: nat :| k < n - 1 && !PairTyped(fs, pos + 2, k, TId, TInt);
        assert !PairTyped(fs, pos, k + 1, TId, TInt);
      } else {
        assert !PairTyped(fs, pos, 0, TId, TInt);
      }
    }
  }

  lemma {:induction false} DecodePropsSomeIff(fs: seq<Pod>, pos: nat, n: nat)
    ensures DecodeProps(fs, pos, n).Some? <==> PairsTyped(fs, pos, n, TString, TString)
    decreases n
  {
    if n > 0 {
      DecodePropsSomeIff(fs, pos + 2, n - 1);
      forall k: nat | 1 <= k < n
        ensures PairTyped(fs, pos, k, TString, TString) == PairTyped(fs, pos + 2, k - 1, TString, TString)
      {
        assert pos + 2 + 2 * (k - 1) == pos + 2 * k;
      }
      if DecodeProps(fs, pos, n).Some? {
        forall k: nat | k < n ensures PairTyped(fs, pos, k, TString, TString) {
          if k > 0 {
            assert PairTyped(fs, pos + 2, k - 1, TString, TString);
          }
        }
      } else if pos + 1 < |fs| && fs[pos].PString? && fs[pos + 1].PString? {
        var k: nat :| k < n - 1 && !PairTyped(fs, pos + 2, k, TString, TString);
        assert !PairTyped(fs, pos, k + 1, TString, TString);
      } else {
        assert !PairTyped(fs, pos, 0, TString, TString);
      }
    }
  }

  /** Decoding fails, with -EINVAL, exactly when a field is missing or of the wrong kind. */
  lemma DecodeInfoOkIff(p: Pod)
    ensures DecodeInfo(p).Ok? <==> InfoWellTyped(p)
    ensures DecodeInfo(p).Err? ==> DecodeInfo(p).code == -EINVAL
  {
    if p.PStruct? && |p.fields| >= 4 && p.fields[0].PId? && p.fields[1].PInt?
       && p.fields[2].PInt? && p.fields[3].PInt? {
      var n: nat := AsUint32(p.fields[2].v);
      DecodeParamsSomeIff(p.fields, 4, n);
      DecodePropsSomeIff(p.fields, 4 + 2 * n, AsUint32(p.fields[3].v));
    }
  }

  lemma {:induction false} DecodeParamsOfFields(fs: seq<Pod>, pos: nat, ps: seq<ParamInfo>)
    requires pos + 2 * |ps| <= |fs| && fs[pos..pos + 2 * |ps|] == ParamFields(ps)
    ensures DecodeParams(fs, pos, |ps|) == Some(ps)
    decreases |ps|
  {
    if |ps| > 0 {
      var w := ParamFields(ps);
      assert w == [PId(ps[0].id), PInt(AsInt32(ps[0].flags))] + ParamFields(ps[1..]);
      assert fs[pos] == w[0] && fs[pos + 1] == w[1];
      assert fs[pos + 2..pos + 2 + 2 * |ps[1..]|] == w[2..];
      DecodeParamsOfFields(fs, pos + 2, ps[1..]);
      Uint32RoundTrip(ps[0].flags);
      assert [ps[0]] + ps[1..] == ps;
    }
  }

  lemma {:induction false} DecodePropsOfFields(fs: seq<Pod>, pos: nat, items: seq<DictItem>)
    requires pos + 2 * |items| <= |fs| && fs[pos..pos + 2 * |items|] == PropFields(items)
    ensures DecodeProps(fs, pos, |items|) == Some(items)
    decreases |items|
  {
    if |items| > 0 {
      var w := PropFields(items);
      assert w == [PString(items[0].key), PString(items[0].value)] + PropFields(items[1..]);
      assert fs[pos] == w[0] && fs[pos + 1] == w[1];
      assert fs[pos + 2..pos + 2 + 2 * |items[1..]|] == w[2..];
      DecodePropsOfFields(fs, pos + 2, items[1..]);
      assert [items[0]] + items[1..] == items;
    }
  }

  lemma SliceOfConcat<T>(a: seq<T>, b: seq<T>, c: seq<T>)
    ensures (a + b + c)[|a|..|a| + |b|] == b
    ensures (a + b + c)[|a| + |b|..|a| + |b| + |c|] == c
    ensures (a + b + c)[..|a|] == a
  {
  }

  /** A struct with a well-typed header whose `n` and `m` pairs decode is accepted, with the values read. */
  lemma DecodeInfoAccepts(fs: seq<Pod>, n: nat, m: nat)
    requires |fs| >= 4 && fs[0].PId? && fs[1].PInt? && fs[2].PInt? && fs[3].PInt?
    requires n == AsUint32(fs[2].v) && m == AsUint32(fs[3].v)
    requires DecodeParams(fs, 4, n).Some? && DecodeProps(fs, 4 + 2 * n, m).Some?
    ensures DecodeInfo(PStruct(fs))
         == Ok(EndpointInfo(fs[0].id, AsUint32(fs[1].v), DecodeParams(fs, 4, n).value, Some(DecodeProps(fs, 4 + 2 * n, m).value)))
  {
  }

  /** A struct whose header and pairs decode decodes to the info they give. */
  lemma DecodeInfoOfParts(fs: seq<Pod>, id: u32, mask: u32, ps: seq<ParamInfo>, items: seq<DictItem>)
    requires |ps| < 0x1_0000_0000 && |items| < 0x1_0000_0000 && |fs| >= 4
    requires fs[0] == PId(id) && fs[1] == PInt(AsInt32(mask))
    requires fs[2] == PInt(AsInt32(|ps|)) && fs[3] == PInt(AsInt32(|items|))
    requires DecodeParams(fs, 4, |ps|) == Some(ps) && DecodeProps(fs, 4 + 2 * |ps|, |items|) == Some(items)
    ensures DecodeInfo(PStruct(fs)) == Ok(EndpointInfo(id, mask, ps, Some(items)))
  {
    Uint32RoundTrip(mask);
    Uint32RoundTrip(|ps|);
    Uint32RoundTrip(|items|);
    DecodeInfoAccepts(fs, |ps|, |items|);
  }

  /** Fields laid out as the serializer lays them out decode to the info. */
  lemma LayoutDecodes(fs: seq<Pod>, info: EndpointInfo, n: nat, m: nat)
    requires ValidInfo(info) && n == |info.params| && m == |PropItems(info)| && |fs| == 4 + 2 * n + 2 * m
    requires fs[0] == PId(info.id) && fs[1] == PInt(AsInt32(info.changeMask))
    requires fs[2] == PInt(AsInt32(n)) && fs[3] == PInt(AsInt32(m))
    requires fs[4..4 + 2 * n] == ParamFields(info.params) && fs[4 + 2 * n..] == PropFields(PropItems(info))
    ensures DecodeInfo(PStruct(fs)) == Ok(Received(info))
  {
    DecodeParamsOfFields(fs, 4, info.params);
    assert fs[4 + 2 * n..4 + 2 * n + 2 * m] == fs[4 + 2 * n..];
    DecodePropsOfFields(fs, 4 + 2 * n, PropItems(info));
    DecodeInfoOfParts(fs, info.id, info.changeMask, info.params, PropItems(info));
  }

  /** Decoding an encoded info gives back its id, change mask, params and props. */
  lemma InfoRoundTrip(info: EndpointInfo)
    requires ValidInfo(info)
    ensures DecodeInfo(EncodeInfo(info)) == Ok(Received(info))
  {
    var h := InfoHeader(info);
    var pf := ParamFields(info.params);
    var qf := PropFields(PropItems(info));
    var fs := h + pf + qf;
    assert EncodeInfo(info) == PStruct(fs);
    SliceOfConcat(h, pf, qf);
    assert fs[4 + |pf|..] == qf;
    LayoutDecodes(fs, info, |info.params|, |PropItems(info)|);
  }

  lemma {:induction false} ParamFieldsAppend(ps: seq<ParamInfo>, p: ParamInfo)
    ensures ParamFields(ps + [p]) == ParamFields(ps) + [PId(p.id), PInt(AsInt32(p.flags))]
    decreases |ps|
  {
    if |ps| > 0 {
      assert (ps + [p])[1..] == ps[1..] + [p];
      ParamFieldsAppend(ps[1..], p);
    } else {
      assert ps + [p] == [p];
    }
  }

  lemma {:induction false} PropFieldsAppend(items: seq<DictItem>, it: DictItem)
    ensures PropFields(items + [it]) == PropFields(items) + [PString(it.key), PString(it.value)]
    decreases |items|
  {
    if |items| > 0 {
      assert (items + [it])[1..] == items[1..] + [it];
      PropFieldsAppend(items[1..], it);
    } else {
      assert items + [it] == [it];
    }
  }

  /** serialize_pw_endpoint_info, field by field. */
  method SerializeInfo(info: EndpointInfo) returns (p: Pod)
    requires ValidInfo(info)
    ensures p == EncodeInfo(info)
    ensures DecodeInfo(p) == Ok(Received(info))
  {
    var items := if info.props.None? then [] else info.props.value;
    var fs := [PId(info.id), PInt(AsInt32(info.changeMask)), PInt(AsInt32(|info.params|)), PInt(AsInt32(|items|))];
    var i := 0;
    while i < |info.params|
      invariant 0 <= i <= |info.params|
      invariant fs == InfoHeader(info) + ParamFields(info.params[..i])
    {
      ParamFieldsAppend(info.params[..i], info.params[i]);
      assert info.params[..i + 1] == info.params[..i] + [info.params[i]];
      fs := fs + [PId(info.params[i].id), PInt(AsInt32(info.params[i].flags))];
      i := i + 1;
    }
    assert info.params[..i] == info.params;
    i := 0;
    while i < |items|
      invariant 0 <= i <= |items|
      invariant fs == InfoHeader(info) + ParamFields(info.params) + PropFields(items[..i])
    {
      PropFieldsAppend(items[..i], items[i]);
      assert items[..i + 1] == items[..i] + [items[i]];
      fs := fs + [PString(items[i].key), PString(items[i].value)];
      i := i + 1;
    }
    assert items[..i] == items;
    p := PStruct(fs);
    InfoRoundTrip(info);
  }

  lemma PrependNil<T>(r: Option<seq<T>>)
    ensures Prepend([], r) == r
  {
    if r.Some? {
      assert [] + r.value == r.value;
    }
  }

  lemma PrependAssoc<T>(a: seq<T>, b: seq<T>, r: Option<seq<T>>)
    ensures Prepend(a, Prepend(b, r)) == Prepend(a + b, r)
  {
    if r.Some? {
      assert a + (b + r.value) == (a + b) + r.value;
    }
  }

  /** The deserialize_pw_endpoint_info macro, field by field. */
  method DeserializeInfo(p: Pod) returns (r: Result<EndpointInfo>)
    ensures r == DecodeInfo(p)
    ensures r.Ok? <==> InfoWellTyped(p)
  {
    DecodeInfoOkIff(p);
    if !p.PStruct? || |p.fields| < 4 || !p.fields[0].PId? || !p.fields[1].PInt?
       || !p.fields[2].PInt? || !p.fields[3].PInt? {
      return Err(-EINVAL);
    }
    var fs := p.fields;
    var n: nat := AsUint32(fs[2].v);
    var m: nat := AsUint32(fs[3].v);
    var params: seq<ParamInfo> := [];
    var i: nat := 0;
    PrependNil(DecodeParams(fs, 4, n));
    while i < n
      invariant i <= n && |params| == i
      invariant DecodeParams(fs, 4, n) == Prepend(params, DecodeParams(fs, 4 + 2 * i, n - i))
    {
      var pos := 4 + 2 * i;
      if !(pos + 1 < |fs| && fs[pos].PId? && fs[pos + 1].PInt?) {
        return Err(-EINVAL);
      }
      var next := ParamInfo(fs[pos].id, AsUint32(fs[pos + 1].v));
      PrependAssoc(params, [next], DecodeParams(fs, pos + 2, n - i - 1));
      params := params + [next];
      i := i + 1;
    }
    assert params + [] == params;
    assert DecodeParams(fs, 4, n) == Some(params);
    var base := 4 + 2 * n;
    var items: seq<DictItem> := [];
    i := 0;
    PrependNil(DecodeProps(fs, base, m));
    while i < m
      invariant i <= m && |items| == i
      invariant DecodeProps(fs, base, m) == Prepend(items, DecodeProps(fs, base + 2 * i, m - i))
    {
      var pos := base + 2 * i;
      if !(pos + 1 < |fs| && fs[pos].PString? && fs[pos + 1].PString?) {
        return Err(-EINVAL);
      }
      var next := DictItem(fs[pos].s, fs[pos + 1].s);
      PrependAssoc(items, [next], DecodeProps(fs, pos + 2, m - i - 1));
      items := items + [next];
      i := i + 1;
    }
    assert items + [] == items;
    assert DecodeProps(fs, base, m) == Some(items);
    return Ok(EndpointInfo(fs[0].id, AsUint32(fs[1].v), params, Some(items)));
  }

  // ---------------------------------------------------------------------
  // Endpoint methods and events

  /** The methods a client calls on an endpoint, with their arguments. */
  datatype EndpointMethod =
    | SubscribeParams(ids: seq<u32>)
    | EnumParams(seqNum: i32, id: u32, index: u32, num: u32, filter: Option<Pod>)
    | SetParam(id: u32, flags: u32, param: Option<Pod>)

  /** The events an endpoint sends to a client. */
  datatype EndpointEvent =
    | InfoEvent(info: EndpointInfo)
    | ParamEvent(seqNum: i32, id: u32, index: u32, next: u32, param: Option<Pod>)

  /** A message: its opcode and its body. */
  datatype Message = Message(opcode: nat, body: Pod)

  predicate ValidMethod(m: EndpointMethod) {
    m.SubscribeParams? ==> |m.ids| < 0x1_0000_0000
  }

  predicate ValidEvent(e: EndpointEvent) {
    e.InfoEvent? ==> ValidInfo(e.info)
  }

  /** The endpoint_marshal_* functions. */
  function MarshalMethod(m: EndpointMethod): (r: Message)
    requires ValidMethod(m)
    ensures r.opcode < 3 && r.body.PStruct?
    ensures |r.body.fields| == match m case SubscribeParams(_) => 1 case EnumParams(_, _, _, _, _) => 5 case SetParam(_, _, _) => 3
  {
    match m
    case SubscribeParams(ids) =>
      Message(METHOD_SUBSCRIBE_PARAMS, PStruct([PArray(TId, ids)]))
    case EnumParams(sq, id, index, num, filter) =>
      Message(METHOD_ENUM_PARAMS, PStruct([PInt(sq), PId(id), PInt(AsInt32(index)), PInt(AsInt32(num)), PodField(filter)]))
    case SetParam(id, flags, param) =>
      Message(METHOD_SET_PARAM, PStruct([PId(id), PInt(AsInt32(flags)), PodField(param)]))
  }

  /**
   * The endpoint_demarshal_* functions, chosen by opcode from the
   * three-entry demarshal table.
   */
  function DemarshalMethod(msg: Message): (r: Result<EndpointMethod>)
    requires msg.opcode < 3
    ensures r.Err? ==> r.code == -EINVAL
    ensures r.Ok? && r.value.SubscribeParams? ==>
              msg.body.PStruct? && |msg.body.fields| >= 1 && msg.body.fields[0] == PArray(TId, r.value.ids)
  {
    var b := msg.body;
    if msg.opcode == METHOD_SUBSCRIBE_PARAMS then
      if !b.PStruct? || |b.fields| < 1 || !b.fields[0].PArray? then Err(-EINVAL)
      else if b.fields[0].child != TId then Err(-EINVAL)
      else Ok(SubscribeParams(b.fields[0].items))
    else if msg.opcode == METHOD_ENUM_PARAMS then
      if !b.PStruct? || |b.fields| < 5 || !b.fields[0].PInt? || !b.fields[1].PId?
         || !b.fields[2].PInt? || !b.fields[3].PInt? then Err(-EINVAL)
      else Ok(EnumParams(b.fields[0].v, b.fields[1].id, AsUint32(b.fields[2].v), AsUint32(b.fields[3].v),
                         ParsePod(b.fields[4])))
    else
      if !b.PStruct? || |b.fields| < 3 || !b.fields[0].PId? || !b.fields[1].PInt? then Err(-EINVAL)
      else Ok(SetParam(b.fields[0].id, AsUint32(b.fields[1].v), ParsePod(b.fields[2])))
  }

  /** A method as the server sees it: a pod argument that is a None pod arrives as NULL. */
  function ReceivedMethod(m: EndpointMethod): EndpointMethod {
    match m
    case SubscribeParams(_) => m
    case EnumParams(_, _, _, _, filter) => m.(filter := NormPod(filter))
    case SetParam(_, _, param) => m.(param := NormPod(param))
  }

  /** Every endpoint method decodes to the values it was encoded from, in the same order. */
  lemma MethodRoundTrip(m: EndpointMethod)
    requires ValidMethod(m)
    ensures MarshalMethod(m).opcode < 3
    ensures DemarshalMethod(MarshalMethod(m)) == Ok(ReceivedMethod(m))
  {
    match m
    case SubscribeParams(_) =>
    case EnumParams(_, _, index, num, filter) =>
      Uint32RoundTrip(index);
      Uint32RoundTrip(num);
      PodFieldRoundTrip(filter);
    case SetParam(_, flags, param) =>
      Uint32RoundTrip(flags);
      PodFieldRoundTrip(param);
  }

  /** subscribe_params rejects an array of anything but ids. */
  lemma SubscribeRejectsNonIdArray(child: PodType, items: seq<u32>, rest: seq<Pod>)
    requires child != TId
    ensures DemarshalMethod(Message(METHOD_SUBSCRIBE_PARAMS, PStruct([PArray(child, items)] + rest))) == Err(-EINVAL)
  {
  }

  /** endpoint_marshal_info and endpoint_marshal_param. */
  function MarshalEvent(e: EndpointEvent): (r: Message)
    requires ValidEvent(e)
    ensures r.opcode < 2 && r.body.PStruct?
    ensures e.ParamEvent? ==> |r.body.fields| == 5
  {
    match e
    case InfoEvent(info) => Message(EVENT_INFO, EncodeInfo(info))
    case ParamEvent(sq, id, index, next, param) =>
      Message(EVENT_PARAM, PStruct([PInt(sq), PId(id), PInt(AsInt32(index)), PInt(AsInt32(next)), PodField(param)]))
  }

  /** endpoint_demarshal_info and endpoint_demarshal_param. */
  function DemarshalEvent(msg: Message): (r: Result<EndpointEvent>)
    requires msg.opcode < 2
    ensures r.Err? ==> r.code == -EINVAL
    ensures msg.opcode == EVENT_INFO ==> (r.Ok? <==> InfoWellTyped(msg.body))
  {
    var b := msg.body;
    if msg.opcode == EVENT_INFO then
      DecodeInfoOkIff(b);
      var info := DecodeInfo(b);
      if info.Err? then Err(info.code) else Ok(InfoEvent(info.value))
    else
      if !b.PStruct? || |b.fields| < 5 || !b.fields[0].PInt? || !b.fields[1].PId?
         || !b.fields[2].PInt? || !b.fields[3].PInt? then Err(-EINVAL)
      else Ok(ParamEvent(b.fields[0].v, b.fields[1].id, AsUint32(b.fields[2].v), AsUint32(b.fields[3].v),
                         ParsePod(b.fields[4])))
  }

  function ReceivedEvent(e: EndpointEvent): EndpointEvent {
    match e
    case InfoEvent(info) => InfoEvent(Received(info))
    case ParamEvent(_, _, _, _, param) => e.(param := NormPod(param))
  }

  /** Every endpoint event decodes to the values it was encoded from, in the same order. */
  lemma EventRoundTrip(e: EndpointEvent)
    requires ValidEvent(e)
    ensures MarshalEvent(e).opcode < 2
    ensures DemarshalEvent(MarshalEvent(e)) == Ok(ReceivedEvent(e))
  {
    match e
    case InfoEvent(info) =>
      InfoRoundTrip(info);
    case ParamEvent(_, _, index, next, param) =>
      Uint32RoundTrip(index);
      Uint32RoundTrip(next);
      PodFieldRoundTrip(param);
  }

  // ---------------------------------------------------------------------
  // Client-endpoint update and set_param

  /**
   * pw_client_endpoint_proxy_methods.update: the change mask, the param
   * pods (NULL entries allowed) and the info, which is only sent when the
   * mask has UPDATE_INFO.
   */
  datatype ClientUpdate = ClientUpdate(changeMask: u32, params: seq<Option<Pod>>, info: EndpointInfo)

  /** pw_client_endpoint_proxy_events.set_param. */
  datatype ClientSetParam = ClientSetParam(id: u32, flags: u32, param: Option<Pod>)

  /** The info the update demarshaller hands on when none was sent: all zero, no items. */
  const EmptyInfo: EndpointInfo := EndpointInfo(0, 0, [], Some([]))

  predicate ValidUpdate(u: ClientUpdate) {
    |u.params| < 0x1_0000_0000 && (HasBit(u.changeMask, UPDATE_INFO) ==> ValidInfo(u.info))
  }

  function PodFields(ps: seq<Option<Pod>>): (fs: seq<Pod>)
    ensures |fs| == |ps|
    ensures forall k :: 0 <= k < |ps| ==> fs[k] == PodField(ps[k])
  {
    seq(|ps|, k requires 0 <= k < |ps| => PodField(ps[k]))
  }

  /** client_endpoint_marshal_update. */
  function MarshalUpdate(u: ClientUpdate): (r: Pod)
    requires ValidUpdate(u)
    ensures r.PStruct? && |r.fields| == 2 + |u.params| + (if HasBit(u.changeMask, UPDATE_INFO) then 1 else 0)
    ensures forall k :: 0 <= k < |u.params| ==> r.fields[2 + k] == PodField(u.params[k])
  {
    PStruct([PInt(AsInt32(u.changeMask)), PInt(AsInt32(|u.params|))] + PodFields(u.params)
            + (if HasBit(u.changeMask, UPDATE_INFO) then [EncodeInfo(u.info)] else []))
  }

  /** Reads n pods with the 'O' parser from position pos on. */
  function DecodeObjects(fs: seq<Pod>, pos: nat, n: nat): (r: Option<seq<Option<Pod>>>)
    ensures r.Some? ==> |r.value| == n
    decreases n
  {
    if n == 0 then Some([])
    else if pos < |fs| && ParseObject(fs[pos]).Ok? then
      Prepend([ParseObject(fs[pos]).value], DecodeObjects(fs, pos + 1, n - 1))
    else None
  }

  /** client_endpoint_demarshal_update. */
  function DemarshalUpdate(b: Pod): (r: Result<ClientUpdate>)
    ensures r.Err? ==> r.code == -EINVAL
    ensures r.Ok? ==> forall k :: 0 <= k < |r.value.params| ==> ObjectOrNull(r.value.params[k])
  {
    if !b.PStruct? || |b.fields| < 2 || !b.fields[0].PInt? || !b.fields[1].PInt? then Err(-EINVAL)
    else
      var fs := b.fields;
      var mask := AsUint32(fs[0].v);
      var n: nat := AsUint32(fs[1].v);
      var params := DecodeObjects(fs, 2, n);
      if params.None? then Err(-EINVAL)
      else
        DecodeObjectsAreObjects(fs, 2, n);
        if HasBit(mask, UPDATE_INFO) then
          if 2 + n < |fs| && DecodeInfo(fs[2 + n]).Ok? then
            Ok(ClientUpdate(mask, params.value, DecodeInfo(fs[2 + n]).value))
          else Err(-EINVAL)
        else Ok(ClientUpdate(mask, params.value, EmptyInfo))
  }

  /** A pod pointer the 'O' parser accepts: NULL, a None pod or an Object. */
  predicate ObjectOrNull(p: Option<Pod>) {
    p.None? || p.value.PNone? || p.value.PObject?
  }

  lemma {:induction false} DecodeObjectsAreObjects(fs: seq<Pod>, pos: nat, n: nat)
    requires DecodeObjects(fs, pos, n).Some?
    ensures forall k :: 0 <= k < n ==> ObjectOrNull(DecodeObjects(fs, pos, n).value[k])
    decreases n
  {
    if n > 0 {
      DecodeObjectsAreObjects(fs, pos + 1, n - 1);
      var r := DecodeObjects(fs, pos, n).value;
      assert r == [ParseObject(fs[pos]).value] + DecodeObjects(fs, pos + 1, n - 1).value;
    }
  }

  lemma {:induction false} DecodeObjectsOfFields(fs: seq<Pod>, pos: nat, ps: seq<Option<Pod>>)
    requires pos + |ps| <= |fs| && fs[pos..pos + |ps|] == PodFields(ps)
    ensures DecodeObjects(fs, pos, |ps|).Some? <==> forall k :: 0 <= k < |ps| ==> ObjectOrNull(ps[k])
    ensures DecodeObjects(fs, pos, |ps|).Some? ==> DecodeObjects(fs, pos, |ps|).value == seq(|ps|, k requires 0 <= k < |ps| => NormPod(ps[k]))
    decreases |ps|
  {
    if |ps| > 0 {
      assert fs[pos] == PodField(ps[0]);
      assert fs[pos + 1..pos + 1 + |ps[1..]|] == PodFields(ps[1..]);
      DecodeObjectsOfFields(fs, pos + 1, ps[1..]);
      PodFieldRoundTrip(ps[0]);
      if DecodeObjects(fs, pos, |ps|).Some? {
        assert ParseObject(fs[pos]).Ok?;
        assert forall k :: 0 <= k < |ps| ==> ObjectOrNull(ps[k]) by {
          forall k | 0 <= k < |ps| ensures ObjectOrNull(ps[k]) {
            if k > 0 { assert ps[k] == ps[1..][k - 1]; }
          }
        }
      } else if ParseObject(fs[pos]).Ok? {
        var k :| 0 <= k < |ps[1..]| && !ObjectOrNull(ps[1..][k]);
        assert !ObjectOrNull(ps[k + 1]);
      } else {
        assert !ObjectOrNull(ps[0]);
      }
    }
  }

  /** The update as the endpoint receives it: NULL for None pods, and the info only when it was sent. */
  function ReceivedUpdate(u: ClientUpdate): ClientUpdate {
    ClientUpdate(u.changeMask, seq(|u.params|, k requires 0 <= k < |u.params| => NormPod(u.params[k])),
                 if HasBit(u.changeMask, UPDATE_INFO) then Received(u.info) else EmptyInfo)
  }

  /**
   * The update round trip: the demarshaller reads the info under the same
   * mask bit the marshaller wrote it, so an update whose params are all
   * objects or NULL comes back intact; a param of any other kind makes the
   * whole message fail.
   */
  lemma UpdateRoundTrip(u: ClientUpdate)
    requires ValidUpdate(u)
    ensures DemarshalUpdate(MarshalUpdate(u)).Ok? <==> forall k :: 0 <= k < |u.params| ==> ObjectOrNull(u.params[k])
    ensures DemarshalUpdate(MarshalUpdate(u)).Ok? ==> DemarshalUpdate(MarshalUpdate(u)).value == ReceivedUpdate(u)
  {
    var head := [PInt(AsInt32(u.changeMask)), PInt(AsInt32(|u.params|))];
    var pf := PodFields(u.params);
    var tail := if HasBit(u.changeMask, UPDATE_INFO) then [EncodeInfo(u.info)] else [];
    var fs := head + pf + tail;
    assert MarshalUpdate(u) == PStruct(fs);
    SliceOfConcat(head, pf, tail);
    assert fs[0] == head[0] && fs[1] == head[1];
    Uint32RoundTrip(u.changeMask);
    Uint32RoundTrip(|u.params|);
    DecodeObjectsOfFields(fs, 2, u.params);
    if HasBit(u.changeMask, UPDATE_INFO) {
      assert fs[2 + |u.params|] == EncodeInfo(u.info);
      InfoRoundTrip(u.info);
    }
  }

  /** client_endpoint_marshal_set_param. */
  function MarshalClientSetParam(e: ClientSetParam): Pod {
    PStruct([PId(e.id), PInt(AsInt32(e.flags)), PodField(e.param)])
  }

  /** client_endpoint_demarshal_set_param: the param must be an object or None. */
  function DemarshalClientSetParam(b: Pod): (r: Result<ClientSetParam>)
    ensures r.Err? ==> r.code == -EINVAL
    ensures r.Ok? ==> ObjectOrNull(r.value.param)
  {
    if !b.PStruct? || |b.fields| < 3 || !b.fields[0].PId? || !b.fields[1].PInt? then Err(-EINVAL)
    else
      var p := ParseObject(b.fields[2]);
      if p.Err? then Err(-EINVAL)
      else Ok(ClientSetParam(b.fields[0].id, AsUint32(b.fields[1].v), p.value))
  }

  lemma ClientSetParamRoundTrip(e: ClientSetParam)
    ensures DemarshalClientSetParam(MarshalClientSetParam(e)).Ok? <==> ObjectOrNull(e.param)
    ensures ObjectOrNull(e.param) ==>
              DemarshalClientSetParam(MarshalClientSetParam(e)) == Ok(e.(param := NormPod(e.param)))
  {
    Uint32RoundTrip(e.flags);
    PodFieldRoundTrip(e.param);
  }
}
