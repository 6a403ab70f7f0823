/**
 * SPA pods as the endpoint protocol writes and reads them, and the cursor
 * rules of the pod parser that the demarshal functions rely on (the builder
 * and parser sources are not part of this model; their conventions are
 * stated here once):
 *   - SPA_POD_Pod(NULL) writes a None pod;
 *   - the 'P' (any pod) and 'O' (object) parsers hand back NULL for a None
 *     pod; 'O' accepts only an Object or a None pod;
 *   - every other parser accepts exactly its own kind of pod;
 *   - fields left after the last one requested are ignored.
 */
module SpaPod {
  import opened Spa

  /** uint32_t. */
  type u32 = x: int | 0 <= x < 0x1_0000_0000
  /** int32_t, the payload of an Int pod. */
  type i32 = x: int | -0x8000_0000 <= x < 0x8000_0000

  /** A decoded value, or the negative errno the demarshal function returns. */
  datatype Result<T> = Ok(value: T) | Err(code: int)

  /** The kinds of pod, as the array child type and the parsers tell them apart. */
  datatype PodType = TNone | TId | TInt | TString | TArray | TStruct | TObject | TOther

  datatype Pod =
    | PNone
    | PId(id: u32)
    | PInt(v: i32)
    | PString(s: string)
    | PArray(child: PodType, items: seq<u32>)
    | PStruct(fields: seq<Pod>)
    | PObject(objType: u32, objId: u32, props: seq<Prop>)
    /** Any other kind of pod (Bool, Long, Float, Rectangle, ...), by its type number. */
    | POther(typeNum: u32, body: seq<int>)

  /** spa_pod_prop: a key and its value. */
  datatype Prop = Prop(key: u32, value: Pod)

  function TypeOf(p: Pod): PodType {
    match p
    case PNone => TNone
    case PId(_) => TId
    case PInt(_) => TInt
    case PString(_) => TString
    case PArray(_, _) => TArray
    case PStruct(_) => TStruct
    case PObject(_, _, _) => TObject
    case POther(_, _) => TOther
  }

  /** spa_pod_is_object_id: an Object pod whose object id is `id`. */
  predicate IsObjectId(p: Pod, id: u32) {
    p.PObject? && p.objId == id
  }

  /**
   * spa_pod_object_find_prop(obj, NULL, key): the value of the first
   * property with that key.
   */
  function FindProp(props: seq<Prop>, key: u32): (r: Option<Pod>)
    ensures r.Some? <==> exists k :: 0 <= k < |props| && props[k].key == key
    ensures r.Some? ==> exists k :: 0 <= k < |props| && props[k].key == key && props[k].value == r.value
                          && forall j :: 0 <= j < k ==> props[j].key != key
  {
    if |props| == 0 then None
    else if props[0].key == key then Some(props[0].value)
    else
      var r := FindProp(props[1..], key);
      assert forall k :: 0 < k < |props| ==> props[k] == props[1..][k - 1];
      if r.Some? then
        var k' :| 0 <= k' < |props[1..]| && props[1..][k'].key == key && props[1..][k'].value == r.value
                  && forall j :: 0 <= j < k' ==> props[1..][j].key != key;
        assert props[k' + 1] == props[1..][k'];
        r
      else r
  }

  // uint32 values travel in Int pods as the int32 with the same bits.

  function AsInt32(u: u32): (v: i32)
    ensures v >= 0 <==> u < 0x8000_0000
  {
    if u < 0x8000_0000 then u else u - 0x1_0000_0000
  }

  function AsUint32(v: i32): (u: u32)
    ensures v >= 0 ==> u == v
  {
    if v >= 0 then v else v + 0x1_0000_0000
  }

  lemma Uint32RoundTrip(u: u32)
    ensures AsUint32(AsInt32(u)) == u
  {
  }

  /** The pod SPA_POD_Pod writes for a possibly NULL pod pointer. */
  function PodField(p: Option<Pod>): Pod {
    if p.None? then PNone else p.value
  }

  /** What the 'P' parser hands back for a field: NULL for a None pod. */
  function ParsePod(p: Pod): (r: Option<Pod>)
    ensures r.None? <==> p.PNone?
  {
    if p.PNone? then None else Some(p)
  }

  /** What the 'O' parser hands back: NULL for None, the object itself, or a mismatch. */
  function ParseObject(p: Pod): (r: Result<Option<Pod>>)
    ensures r.Ok? <==> p.PNone? || p.PObject?
    ensures r.Ok? ==> r.value == ParsePod(p)
  {
    if p.PNone? then Ok(None)
    else if p.PObject? then Ok(Some(p))
    else Err(-EINVAL)
  }

  /** A pod pointer as the 'P' parser would return it after a round trip through SPA_POD_Pod. */
  function NormPod(p: Option<Pod>): Option<Pod> {
    if p == Some(PNone) then None else p
  }

  lemma PodFieldRoundTrip(p: Option<Pod>)
    ensures ParsePod(PodField(p)) == NormPod(p)
    ensures p.None? || p.value != PNone ==> ParsePod(PodField(p)) == p
  {
  }
}
