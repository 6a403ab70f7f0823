/**
 * The server side of a client-provided endpoint: the endpoint keeps the
 * param pods its owning client last sent, the endpoint info and its
 * properties, and the resources bound to it, each with the param ids it
 * subscribed to. Clients enumerate params by index, subscribe to param ids,
 * and are told of changes as the owner updates params (wholesale or, for
 * Control params, one control at a time) and info.
 *
 * Everything the endpoint sends is appended to `sent`, in order.
 */
module EndpointImpl {
  import opened Spa
  import opened SpaPod
  import opened EndpointProtocol

  /** The size of resource_data.subscribe_ids. */
  const MAX_SUBSCRIBE_IDS: nat := 32

  /** A bound resource: its id and the param ids it subscribed to. */
  datatype Resource = Resource(id: nat, subscribeIds: seq<u32>)

  /** A message the endpoint sends, to a bound resource or to its owner. */
  datatype Sent =
    | ParamTo(resource: nat, seqNum: i32, id: u32, index: nat, next: nat, param: Pod)
    | InfoTo(resource: nat, info: EndpointInfo)
    | SetParamToOwner(id: u32, flags: u32, pod: Option<Pod>)

  /**
   * spa_pod_filter: without a filter the param passes unchanged; with one,
   * the library (`f`, not part of this model) decides and may refuse.
   */
  function ApplyFilter(f: (Pod, Pod) -> Option<Pod>, param: Pod, filter: Option<Pod>): (r: Option<Pod>)
    ensures filter.None? ==> r == Some(param)
  {
    if filter.None? then Some(param) else f(param, filter.value)
  }

  /** The param at `index` is one enum_params reports for `id`. */
  predicate Reported(params: seq<Option<Pod>>, index: nat, id: u32, filter: Option<Pod>, f: (Pod, Pod) -> Option<Pod>)
    requires index < |params|
  {
    params[index].Some? && IsObjectId(params[index].value, id) && ApplyFilter(f, params[index].value, filter).Some?
  }

  /** The (index, filtered param) pairs enum_params can report from `start` on, in index order. */
  function Matches(params: seq<Option<Pod>>, id: u32, start: nat, filter: Option<Pod>, f: (Pod, Pod) -> Option<Pod>): (ms: seq<(nat, Pod)>)
    ensures |ms| <= |params| - start || (start >= |params| && ms == [])
    decreases |params| - start
  {
    if start >= |params| then []
    else
      var rest := Matches(params, id, start + 1, filter, f);
      if Reported(params, start, id, filter, f) then [(start, ApplyFilter(f, params[start].value, filter).value)] + rest
      else rest
  }

  /** At most `num` of them; all of them when `num` is 0. */
  function Limit<T>(s: seq<T>, num: nat): (r: seq<T>)
    ensures num == 0 ==> r == s
    ensures num > 0 ==> |r| == if |s| <= num then |s| else num
    ensures r <= s
  {
    if num == 0 || |s| <= num then s else s[..num]
  }

  /** The param events for reported pairs: each with next = index + 1. */
  function ParamEvents(resource: nat, seqNum: i32, id: u32, ms: seq<(nat, Pod)>): (r: seq<Sent>)
    ensures |r| == |ms|
  {
    seq(|ms|, k requires 0 <= k < |ms| => ParamTo(resource, seqNum, id, ms[k].0, ms[k].0 + 1, ms[k].1))
  }

  /** Every reported pair is a param that meets the conditions, with its filtered value. */
  lemma {:induction false} MatchesSound(params: seq<Option<Pod>>, id: u32, start: nat, filter: Option<Pod>, f: (Pod, Pod) -> Option<Pod>)
    ensures forall m :: m in Matches(params, id, start, filter, f) ==>
              start <= m.0 < |params| && Reported(params, m.0, id, filter, f)
              && m.1 == ApplyFilter(f, params[m.0].value, filter).value
    decreases |params| - start
  {
    if start < |params| {
      MatchesSound(params, id, start + 1, filter, f);
    }
  }

  /** Every param from `start` on that meets the conditions is reported. */
  lemma {:induction false} MatchesComplete(params: seq<Option<Pod>>, id: u32, start: nat, filter: Option<Pod>, f: (Pod, Pod) -> Option<Pod>, index: nat)
    requires start <= index < |params| && Reported(params, index, id, filter, f)
    ensures (index, ApplyFilter(f, params[index].value, filter).value) in Matches(params, id, start, filter, f)
    decreases |params| - start
  {
    if start < index {
      MatchesComplete(params, id, start + 1, filter, f, index);
    }
  }

  /** Reported indices are strictly increasing and start at `start` or later. */
  lemma {:induction false} MatchesIncreasing(params: seq<Option<Pod>>, id: u32, start: nat, filter: Option<Pod>, f: (Pod, Pod) -> Option<Pod>)
    ensures forall k :: 0 <= k < |Matches(params, id, start, filter, f)| ==>
              start <= Matches(params, id, start, filter, f)[k].0 < |params|
    ensures forall j, k :: 0 <= j < k < |Matches(params, id, start, filter, f)| ==>
              Matches(params, id, start, filter, f)[j].0 < Matches(params, id, start, filter, f)[k].0
    decreases |params| - start
  {
    if start < |params| {
      MatchesIncreasing(params, id, start + 1, filter, f);
      var ms := Matches(params, id, start, filter, f);
      var rest := Matches(params, id, start + 1, filter, f);
      if Reported(params, start, id, filter, f) {
        assert ms == [(start, ApplyFilter(f, params[start].value, filter).value)] + rest;
        assert forall k :: 1 <= k < |ms| ==> ms[k] == rest[k - 1];
      }
    }
  }

  /** Matching from `index` is the param at `index`, if reported, followed by matching from `index + 1`. */
  lemma MatchesStep(params: seq<Option<Pod>>, id: u32, index: nat, filter: Option<Pod>, f: (Pod, Pod) -> Option<Pod>)
    requires index < |params|
    ensures Matches(params, id, index, filter, f)
      == (if Reported(params, index, id, filter, f) then [(index, ApplyFilter(f, params[index].value, filter).value)] else [])
         + Matches(params, id, index + 1, filter, f)
  {
  }

  lemma ParamEventsSnoc(resource: nat, seqNum: i32, id: u32, ms: seq<(nat, Pod)>, m: (nat, Pod))
    ensures ParamEvents(resource, seqNum, id, ms + [m])
         == ParamEvents(resource, seqNum, id, ms) + [ParamTo(resource, seqNum, id, m.0, m.0 + 1, m.1)]
  {
  }

  /** Enumeration stops with all matches taken, or with `num` of them taken. */
  lemma LimitOfPrefix<T>(all: seq<T>, done: seq<T>, rest: seq<T>, num: nat)
    requires all == done + rest
    requires (rest == [] && (num == 0 || |done| <= num)) || (num > 0 && |done| == num)
    ensures Limit(all, num) == done
  {
    if num > 0 && |done| == num {
      assert all[..num] == done;
    }
  }

  lemma MatchesFromEnd(params: seq<Option<Pod>>, id: u32, start: nat, filter: Option<Pod>, f: (Pod, Pod) -> Option<Pod>)
    requires start >= |params|
    ensures Matches(params, id, start, filter, f) == []
  {
  }

  /**
   * Subscription replays ask for at most UINT32_MAX params, which never
   * cuts the list short: there are fewer params than that.
   */
  lemma ReplayIsUnlimited(params: seq<Option<Pod>>, id: u32, f: (Pod, Pod) -> Option<Pod>)
    requires |params| < 0x1_0000_0000
    ensures Limit(Matches(params, id, 0, None, f), UINT32_MAX) == Matches(params, id, 0, None, f)
  {
  }

  /** The events one resource gets for a changed param: one per subscription entry equal to the param's id. */
  function SubscriberEvents(r: Resource, subs: seq<u32>, id: u32, index: nat, next: nat, param: Pod): (evs: seq<Sent>)
    ensures |evs| <= |subs|
    ensures forall e :: e in evs ==> e == ParamTo(r.id, 1, id, index, next, param)
    decreases |subs|
  {
    if |subs| == 0 then []
    else
      SubscriberEvents(r, subs[..|subs| - 1], id, index, next, param)
      + (if subs[|subs| - 1] == id then [ParamTo(r.id, 1, id, index, next, param)] else [])
  }

  /** The events all resources, in list order, get for a changed param. */
  function BroadcastParam(rs: seq<Resource>, id: u32, index: nat, next: nat, param: Pod): (evs: seq<Sent>)
    ensures forall e :: e in evs ==> e.ParamTo? && e.id == id && e.index == index && e.next == next && e.param == param
                                      && exists r :: r in rs && r.id == e.resource && id in r.subscribeIds
    decreases |rs|
  {
    if |rs| == 0 then []
    else
      var last := rs[|rs| - 1];
      var evs := SubscriberEvents(last, last.subscribeIds, id, index, next, param);
      assert forall e :: e in evs ==> id in last.subscribeIds by {
        SubscriberEventsNeedEntry(last, last.subscribeIds, id, index, next, param);
      }
      assert forall r :: r in rs[..|rs| - 1] ==> r in rs;
      BroadcastParam(rs[..|rs| - 1], id, index, next, param) + evs
  }

  lemma {:induction false} SubscriberEventsNeedEntry(r: Resource, subs: seq<u32>, id: u32, index: nat, next: nat, param: Pod)
    ensures |SubscriberEvents(r, subs, id, index, next, param)| > 0 ==> id in subs
    decreases |subs|
  {
    if |subs| > 0 {
      SubscriberEventsNeedEntry(r, subs[..|subs| - 1], id, index, next, param);
      if subs[|subs| - 1] != id && |SubscriberEvents(r, subs, id, index, next, param)| > 0 {
        assert id in subs[..|subs| - 1];
      }
    }
  }

  /** endpoint_notify_subscribed: nothing for a NULL or non-object param. */
  function NotifyEvents(rs: seq<Resource>, param: Option<Pod>, index: nat, next: nat): (evs: seq<Sent>)
    ensures param.None? || !param.value.PObject? ==> evs == []
  {
    if param.None? || !param.value.PObject? then []
    else BroadcastParam(rs, param.value.objId, index, next, param.value)
  }

  /** The notifications of a wholesale param update: param i with next i + 1, in order. */
  function FullUpdateEvents(rs: seq<Resource>, ps: seq<Option<Pod>>): seq<Sent>
    decreases |ps|
  {
    if |ps| == 0 then []
    else FullUpdateEvents(rs, ps[..|ps| - 1]) + NotifyEvents(rs, ps[|ps| - 1], |ps| - 1, |ps|)
  }

  /** A Control param: an Object pod whose object id is PW_ENDPOINT_PARAM_Control. */
  predicate IsControl(p: Option<Pod>) {
    p.Some? && IsObjectId(p.value, PARAM_Control)
  }

  /** The new param replaces the current one: both Control params, with equal control ids. */
  predicate SameControl(cur: Pod, nw: Option<Pod>)
    requires cur.PObject?
  {
    IsControl(nw)
    && FindProp(cur.props, PARAM_CONTROL_id).Some?
    && FindProp(nw.value.props, PARAM_CONTROL_id).Some?
    && FindProp(cur.props, PARAM_CONTROL_id) == FindProp(nw.value.props, PARAM_CONTROL_id)
  }

  /**
   * The inner loop of an incremental update for a Control param at `index`:
   * every new param with the same control id replaces it in turn and is
   * announced with next = UINT32_MAX.
   */
  function SlotRun(cur: Pod, news: seq<Option<Pod>>, rs: seq<Resource>, index: nat): (r: (Pod, seq<Sent>))
    requires IsControl(Some(cur))
    ensures IsControl(Some(r.0))
    ensures r.0 == cur || Some(r.0) in news
    decreases |news|
  {
    if |news| == 0 then (cur, [])
    else
      var prev := SlotRun(cur, news[..|news| - 1], rs, index);
      assert prev.0 == cur || Some(prev.0) in news;
      var nw := news[|news| - 1];
      if SameControl(prev.0, nw) then (nw.value, prev.1 + NotifyEvents(rs, nw, index, UINT32_MAX))
      else prev
  }

  /** One more new param extends the run by one replacement step. */
  lemma SlotRunSnoc(cur: Pod, news: seq<Option<Pod>>, j: nat, rs: seq<Resource>, index: nat)
    requires IsControl(Some(cur)) && j < |news|
    ensures var s := SlotRun(cur, news[..j], rs, index);
      SlotRun(cur, news[..j + 1], rs, index)
        == if SameControl(s.0, news[j]) then (news[j].value, s.1 + NotifyEvents(rs, news[j], index, UINT32_MAX)) else s
  {
    assert news[..j + 1][..j] == news[..j];
  }

  /**
   * The incremental update over the first |ps| params: only Control params
   * are touched; NULL entries count as not Control.
   */
  function IncrementalRun(ps: seq<Option<Pod>>, news: seq<Option<Pod>>, rs: seq<Resource>): (r: (seq<Option<Pod>>, seq<Sent>))
    ensures |r.0| == |ps|
    decreases |ps|
  {
    if |ps| == 0 then ([], [])
    else
      var prev := IncrementalRun(ps[..|ps| - 1], news, rs);
      var p := ps[|ps| - 1];
      if IsControl(p) then
        var s := SlotRun(p.value, news, rs, |ps| - 1);
        (prev.0 + [Some(s.0)], prev.1 + s.1)
      else (prev.0 + [p], prev.1)
  }

  /** The incremental update over one more param. */
  lemma IncrementalRunSnoc(ps: seq<Option<Pod>>, news: seq<Option<Pod>>, rs: seq<Resource>, i: nat)
    requires i < |ps|
    ensures var prev := IncrementalRun(ps[..i], news, rs);
      IncrementalRun(ps[..i + 1], news, rs)
        == if IsControl(ps[i]) then
             var s := SlotRun(ps[i].value, news, rs, i);
             (prev.0 + [Some(s.0)], prev.1 + s.1)
           else (prev.0 + [ps[i]], prev.1)
  {
    assert ps[..i + 1][..i] == ps[..i];
  }

  lemma SplitAt<T>(pre: seq<T>, s: seq<T>, i: nat)
    requires i < |s|
    ensures pre + s[i..] == pre + [s[i]] + s[i + 1..]
  {
    assert s[i..] == [s[i]] + s[i + 1..];
  }

  lemma ReplaceAt<T>(pre: seq<T>, x: T, y: T, post: seq<T>)
    ensures (pre + [x] + post)[|pre| := y] == pre + [y] + post
  {
  }

  /**
   * An incremental update leaves every non-Control param (NULL included)
   * as it was, and leaves each Control param either as it was or replaced
   * by one of the new params, itself a Control param with the same
   * control id.
   */
  lemma {:induction false} IncrementalOnlyReplacesControls(ps: seq<Option<Pod>>, news: seq<Option<Pod>>, rs: seq<Resource>)
    ensures forall i :: 0 <= i < |ps| && !IsControl(ps[i]) ==> IncrementalRun(ps, news, rs).0[i] == ps[i]
    ensures forall i :: 0 <= i < |ps| && IsControl(ps[i]) ==>
              IsControl(IncrementalRun(ps, news, rs).0[i])
              && (IncrementalRun(ps, news, rs).0[i] == ps[i] || IncrementalRun(ps, news, rs).0[i] in news)
    decreases |ps|
  {
    if |ps| > 0 {
      IncrementalOnlyReplacesControls(ps[..|ps| - 1], news, rs);
      var prev := IncrementalRun(ps[..|ps| - 1], news, rs);
      var r := IncrementalRun(ps, news, rs);
      assert forall i :: 0 <= i < |ps| - 1 ==> r.0[i] == prev.0[i] && ps[i] == ps[..|ps| - 1][i];
    }
  }

  /** A slot keeps its control id through the inner loop. */
  lemma {:induction false} SlotRunKeepsControlId(cur: Pod, news: seq<Option<Pod>>, rs: seq<Resource>, index: nat)
    requires IsControl(Some(cur))
    ensures FindProp(cur.props, PARAM_CONTROL_id).Some? ==>
              FindProp(SlotRun(cur, news, rs, index).0.props, PARAM_CONTROL_id) == FindProp(cur.props, PARAM_CONTROL_id)
    ensures FindProp(cur.props, PARAM_CONTROL_id).None? ==> SlotRun(cur, news, rs, index) == (cur, [])
    decreases |news|
  {
    if |news| > 0 {
      SlotRunKeepsControlId(cur, news[..|news| - 1], rs, index);
    }
  }

  /**
   * What a Control param with control id c ends up as after an incremental
   * update, read from the end of the new params: the last new param with
   * control id c, or the param itself when none has it.
   */
  function Replacement(cur: Pod, news: seq<Option<Pod>>): Pod
    requires cur.PObject?
    decreases |news|
  {
    if |news| == 0 then cur
    else if SameControl(cur, news[|news| - 1]) then news[|news| - 1].value
    else Replacement(cur, news[..|news| - 1])
  }

  /** Replacement is the last new param with the control id, or the param itself when none has it. */
  lemma {:induction false} ReplacementIsLastMatch(cur: Pod, news: seq<Option<Pod>>)
    requires cur.PObject?
    ensures (forall j :: 0 <= j < |news| ==> !SameControl(cur, news[j])) ==> Replacement(cur, news) == cur
    ensures forall k :: 0 <= k < |news| && SameControl(cur, news[k]) && (forall j :: k < j < |news| ==> !SameControl(cur, news[j])) ==>
              Replacement(cur, news) == news[k].value
    decreases |news|
  {
    if |news| > 0 {
      var n := |news| - 1;
      var init := news[..n];
      ReplacementIsLastMatch(cur, init);
      assert forall j :: 0 <= j < n ==> init[j] == news[j];
      if SameControl(cur, news[n]) {
        assert Replacement(cur, news) == news[n].value;
        forall k | 0 <= k < |news| && SameControl(cur, news[k]) && (forall j :: k < j < |news| ==> !SameControl(cur, news[j]))
          ensures Replacement(cur, news) == news[k].value
        {
          assert k == n;
        }
      } else {
        assert Replacement(cur, news) == Replacement(cur, init);
        forall k | 0 <= k < |news| && SameControl(cur, news[k]) && (forall j :: k < j < |news| ==> !SameControl(cur, news[j]))
          ensures Replacement(cur, news) == news[k].value
        {
          assert k < n && init[k] == news[k];
          assert forall j :: k < j < n ==> !SameControl(cur, init[j]);
        }
      }
    }
  }

  /** The announcements of a Control param's incremental update: one per new param with its control id, in order. */
  function ControlEvents(cur: Pod, news: seq<Option<Pod>>, rs: seq<Resource>, index: nat): seq<Sent>
    requires cur.PObject?
    decreases |news|
  {
    if |news| == 0 then []
    else
      var nw := news[|news| - 1];
      ControlEvents(cur, news[..|news| - 1], rs, index)
      + (if SameControl(cur, nw) then NotifyEvents(rs, nw, index, UINT32_MAX) else [])
  }

  /** Without a new param of its control id a Control param announces nothing; otherwise every announcement is a Control param at its index, sent as the last one. */
  lemma {:induction false} ControlEventsShape(cur: Pod, news: seq<Option<Pod>>, rs: seq<Resource>, index: nat)
    requires cur.PObject?
    ensures (forall j :: 0 <= j < |news| ==> !SameControl(cur, news[j])) ==> ControlEvents(cur, news, rs, index) == []
    ensures forall e :: e in ControlEvents(cur, news, rs, index) ==>
              e.ParamTo? && e.index == index && e.next == UINT32_MAX && e.id == PARAM_Control
    decreases |news|
  {
    if |news| > 0 {
      var init := news[..|news| - 1];
      ControlEventsShape(cur, init, rs, index);
      assert forall j :: 0 <= j < |init| ==> init[j] == news[j];
    }
  }

  /**
   * The inner loop leaves a Control param as its Replacement and sends its
   * ControlEvents: each new param is compared with the param's original
   * control id, which every replacement keeps.
   */
  lemma {:induction false} SlotRunIsLastMatch(cur: Pod, news: seq<Option<Pod>>, rs: seq<Resource>, index: nat)
    requires IsControl(Some(cur))
    ensures SlotRun(cur, news, rs, index) == (Replacement(cur, news), ControlEvents(cur, news, rs, index))
    decreases |news|
  {
    if |news| > 0 {
      var init := news[..|news| - 1];
      SlotRunIsLastMatch(cur, init, rs, index);
      SlotRunKeepsControlId(cur, init, rs, index);
      var prev := SlotRun(cur, init, rs, index);
      var nw := news[|news| - 1];
      assert SameControl(prev.0, nw) == SameControl(cur, nw);
      assert Replacement(cur, news) == if SameControl(cur, nw) then nw.value else Replacement(cur, init);
      assert ControlEvents(cur, news, rs, index)
          == ControlEvents(cur, init, rs, index) + (if SameControl(cur, nw) then NotifyEvents(rs, nw, index, UINT32_MAX) else []);
      if SameControl(cur, nw) {
        assert SlotRun(cur, news, rs, index) == (nw.value, prev.1 + NotifyEvents(rs, nw, index, UINT32_MAX));
        assert Replacement(cur, news) == nw.value;
        assert prev.1 == ControlEvents(cur, init, rs, index);
        assert SlotRun(cur, news, rs, index).1 == ControlEvents(cur, news, rs, index);
      } else {
        assert SlotRun(cur, news, rs, index) == prev;
        assert Replacement(cur, news) == Replacement(cur, init);
        assert SlotRun(cur, news, rs, index).1 == ControlEvents(cur, news, rs, index);
      }
    } else {
      assert SlotRun(cur, news, rs, index) == (cur, []);
      assert Replacement(cur, news) == cur;
      assert ControlEvents(cur, news, rs, index) == [];
    }
  }

  /** The announcements of an incremental update over the first |ps| params, param by param. */
  function IncrementalEvents(ps: seq<Option<Pod>>, news: seq<Option<Pod>>, rs: seq<Resource>): seq<Sent>
    decreases |ps|
  {
    if |ps| == 0 then []
    else
      var prev := IncrementalEvents(ps[..|ps| - 1], news, rs);
      var p := ps[|ps| - 1];
      prev + (if IsControl(p) then ControlEvents(p.value, news, rs, |ps| - 1) else [])
  }

  /** Every announcement of an incremental update is a Control param at the index of one of the params, sent as the last one. */
  lemma {:induction false} IncrementalEventsShape(ps: seq<Option<Pod>>, news: seq<Option<Pod>>, rs: seq<Resource>)
    ensures forall e :: e in IncrementalEvents(ps, news, rs) ==>
              e.ParamTo? && e.next == UINT32_MAX && e.id == PARAM_Control && e.index < |ps|
    decreases |ps|
  {
    if |ps| > 0 {
      IncrementalEventsShape(ps[..|ps| - 1], news, rs);
      var p := ps[|ps| - 1];
      if IsControl(p) {
        ControlEventsShape(p.value, news, rs, |ps| - 1);
      }
    }
  }

  /**
   * An incremental update leaves every Control param as its Replacement
   * (the last new param with its control id) and every other param as it
   * was, and sends the IncrementalEvents.
   */
  lemma {:induction false} IncrementalRunIsLastMatch(ps: seq<Option<Pod>>, news: seq<Option<Pod>>, rs: seq<Resource>)
    ensures forall i :: 0 <= i < |ps| ==>
              IncrementalRun(ps, news, rs).0[i] == if IsControl(ps[i]) then Some(Replacement(ps[i].value, news)) else ps[i]
    ensures IncrementalRun(ps, news, rs).1 == IncrementalEvents(ps, news, rs)
    decreases |ps|
  {
    if |ps| > 0 {
      var init := ps[..|ps| - 1];
      IncrementalRunIsLastMatch(init, news, rs);
      var p := ps[|ps| - 1];
      var prev := IncrementalRun(init, news, rs);
      var r := IncrementalRun(ps, news, rs);
      var pe := IncrementalEvents(init, news, rs);
      if IsControl(p) {
        SlotRunIsLastMatch(p.value, news, rs, |ps| - 1);
        var s := SlotRun(p.value, news, rs, |ps| - 1);
        assert r == (prev.0 + [Some(s.0)], prev.1 + s.1);
        assert IncrementalEvents(ps, news, rs) == pe + ControlEvents(p.value, news, rs, |ps| - 1);
      } else {
        assert r == (prev.0 + [p], prev.1);
        assert IncrementalEvents(ps, news, rs) == pe + [];
      }
      forall i | 0 <= i < |ps|
        ensures r.0[i] == if IsControl(ps[i]) then Some(Replacement(ps[i].value, news)) else ps[i]
      {
        if i < |ps| - 1 {
          assert r.0[i] == prev.0[i] && init[i] == ps[i];
        }
      }
    } else {
      assert IncrementalRun(ps, news, rs) == ([], []);
      assert IncrementalEvents(ps, news, rs) == [];
    }
  }

  /**
   * pw_properties_update with non-NULL values: an existing key gets the new
   * value in place, a new key is appended.
   */
  function SetProp(d: seq<DictItem>, it: DictItem): (r: seq<DictItem>)
    ensures |r| == |d| || |r| == |d| + 1
  {
    if |d| == 0 then [it]
    else if d[0].key == it.key then [it] + d[1..]
    else [d[0]] + SetProp(d[1..], it)
  }

  function UpdateProps(d: seq<DictItem>, items: seq<DictItem>): (r: seq<DictItem>)
    ensures |r| <= |d| + |items|
    decreases |items|
  {
    if |items| == 0 then d
    else SetProp(UpdateProps(d, items[..|items| - 1]), items[|items| - 1])
  }

  /** spa_dict_lookup: the value of the first item with the key. */
  function Lookup(d: seq<DictItem>, key: string): Option<string> {
    if |d| == 0 then None
    else if d[0].key == key then Some(d[0].value)
    else Lookup(d[1..], key)
  }

  /** The last value `items` gives a key, if any. */
  function LastValue(items: seq<DictItem>, key: string): Option<string>
    decreases |items|
  {
    if |items| == 0 then None
    else if items[|items| - 1].key == key then Some(items[|items| - 1].value)
    else LastValue(items[..|items| - 1], key)
  }

  lemma {:induction false} SetPropLookup(d: seq<DictItem>, it: DictItem, key: string)
    ensures Lookup(SetProp(d, it), key) == if key == it.key then Some(it.value) else Lookup(d, key)
    decreases |d|
  {
    if |d| > 0 && d[0].key != it.key {
      SetPropLookup(d[1..], it, key);
    }
  }

  /** After a props update each key reads the last value the update gave it, or its old value. */
  lemma {:induction false} UpdatePropsLookup(d: seq<DictItem>, items: seq<DictItem>, key: string)
    ensures Lookup(UpdateProps(d, items), key) ==
              if LastValue(items, key).Some? then LastValue(items, key) else Lookup(d, key)
    decreases |items|
  {
    if |items| > 0 {
      UpdatePropsLookup(d, items[..|items| - 1], key);
      SetPropLookup(UpdateProps(d, items[..|items| - 1]), items[|items| - 1], key);
    }
  }

  /** The info events of a broadcast, one per resource in list order. */
  function InfoEvents(rs: seq<Resource>, info: EndpointInfo): (evs: seq<Sent>)
    ensures |evs| == |rs|
    ensures forall k :: 0 <= k < |rs| ==> evs[k] == InfoTo(rs[k].id, info)
  {
    seq(|rs|, k requires 0 <= k < |rs| => InfoTo(rs[k].id, info))
  }

  class Endpoint {
    /** The params, in index order; None for a NULL entry. */
    var params: seq<Option<Pod>>
    /** info.id, the id of the endpoint's global. */
    var globalId: u32
    /** info.change_mask. */
    var changeMask: u32
    /** info.params. */
    var infoParams: seq<ParamInfo>
    /** The endpoint's properties, which info.props points at. */
    var props: seq<DictItem>
    /** The bound resources, in the order they were bound. */
    var resources: seq<Resource>
    /** Everything sent so far, oldest first. */
    var sent: seq<Sent>

    /**
     * Between calls the change mask is 0 and the counts fit their uint32
     * fields; no resource holds more than 32 subscriptions.
     */
    predicate Valid()
      reads this
    {
      changeMask == 0
      && |params| < 0x1_0000_0000 && |infoParams| < 0x1_0000_0000 && |props| < 0x1_0000_0000
      && forall r :: r in resources ==> |r.subscribeIds| <= MAX_SUBSCRIBE_IDS
    }

    /** The info as it is sent: the current fields with the endpoint's properties. */
    function Info(): EndpointInfo
      reads this
    {
      EndpointInfo(globalId, changeMask, infoParams, Some(props))
    }

    /** pw_endpoint_init: a copy of the properties, no params, nothing bound. */
    constructor(id: u32, properties: seq<DictItem>)
      requires |properties| < 0x1_0000_0000
      ensures Valid()
      ensures params == [] && globalId == id && infoParams == [] && props == properties
      ensures resources == [] && sent == []
    {
      params := [];
      globalId := id;
      changeMask := 0;
      infoParams := [];
      props := properties;
      resources := [];
      sent := [];
    }

    /**
     * endpoint_enum_params: report to `resource`, in index order from
     * `start`, each non-NULL param whose object id is `id` and that passes
     * the filter, with next = index + 1; stop after `num` of them unless
     * `num` is 0.
     */
    method EnumParams(resource: nat, seqNum: i32, id: u32, start: u32, num: u32, filter: Option<Pod>, f: (Pod, Pod) -> Option<Pod>)
      requires Valid()
      modifies this`sent
      ensures Valid()
      ensures sent == old(sent) + ParamEvents(resource, seqNum, id, Limit(Matches(params, id, start, filter, f), num))
    {
      var next: nat := start;
      var count: nat := 0;
      ghost var done: seq<(nat, Pod)> := [];
      ghost var all := Matches(params, id, start, filter, f);
      assert all == done + Matches(params, id, next, filter, f);
      while next < |params| && (num == 0 || count < num)
        invariant start <= next
        invariant all == done + Matches(params, id, next, filter, f)
        invariant count == |done| && (num == 0 || count <= num)
        invariant sent == old(sent) + ParamEvents(resource, seqNum, id, done)
        decreases |params| - next
      {
        var index := next;
        next := next + 1;
        MatchesStep(params, id, index, filter, f);
        var param := params[index];
        if param.Some? && IsObjectId(param.value, id) {
          var result := ApplyFilter(f, param.value, filter);
          if result.Some? {
            ghost var m := (index, result.value);
            ParamEventsSnoc(resource, seqNum, id, done, m);
            AppendAssoc(done, [m], Matches(params, id, next, filter, f));
            sent := sent + [ParamTo(resource, seqNum, id, index, next, result.value)];
            done := done + [m];
            count := count + 1;
          }
        }
      }
      if next >= |params| {
        MatchesFromEnd(params, id, next, filter, f);
      }
      LimitOfPrefix(all, done, Matches(params, id, next, filter, f), num);
    }

    /**
     * endpoint_subscribe_params: the resource at position k keeps the first
     * min(|ids|, 32) ids and gets, for each, a full enumeration with seq 1.
     */
    method SubscribeParams(k: nat, ids: seq<u32>, f: (Pod, Pod) -> Option<Pod>)
      requires Valid() && k < |resources|
      modifies this
      ensures Valid()
      ensures params == old(params) && globalId == old(globalId) && infoParams == old(infoParams) && props == old(props)
      ensures var kept := ids[..Min(|ids|, MAX_SUBSCRIBE_IDS)];
        resources == old(resources)[k := Resource(old(resources)[k].id, kept)]
        && sent == old(sent) + Replay(old(resources)[k].id, params, kept, f)
    {
      var n := Min(|ids|, MAX_SUBSCRIBE_IDS);
      var rid := resources[k].id;
      resources := resources[k := Resource(rid, ids[..n])];
      var i := 0;
      while i < n
        invariant 0 <= i <= n
        invariant Valid() && params == old(params) && globalId == old(globalId)
        invariant infoParams == old(infoParams) && props == old(props)
        invariant resources == old(resources)[k := Resource(rid, ids[..n])]
        invariant sent == old(sent) + Replay(rid, params, ids[..i], f)
      {
        ReplayIsUnlimited(params, ids[i], f);
        EnumParams(rid, 1, ids[i], 0, UINT32_MAX as u32, None, f);
        assert ids[..i + 1][..i] == ids[..i];
        i := i + 1;
      }
    }

    /** endpoint_set_param: forwarded unchanged to the owning client. */
    method SetParam(id: u32, flags: u32, param: Option<Pod>)
      requires Valid()
      modifies this
      ensures Valid()
      ensures params == old(params) && globalId == old(globalId) && infoParams == old(infoParams)
      ensures props == old(props) && resources == old(resources)
      ensures sent == old(sent) + [SetParamToOwner(id, flags, param)]
    {
      sent := sent + [SetParamToOwner(id, flags, param)];
    }

    /**
     * endpoint_bind: a new resource (none when allocation fails: -ENOMEM)
     * is appended with no subscriptions and sent the info with the PARAMS
     * and PROPS change bits; the change mask is 0 again afterwards.
     */
    method Bind(resourceId: nat, allocOk: bool) returns (res: int)
      requires Valid()
      modifies this
      ensures Valid()
      ensures params == old(params) && globalId == old(globalId) && infoParams == old(infoParams) && props == old(props)
      ensures !allocOk ==> res == -ENOMEM && resources == old(resources) && sent == old(sent)
      ensures allocOk ==> res == 0 && resources == old(resources) + [Resource(resourceId, [])]
                          && sent == old(sent) + [InfoTo(resourceId, EndpointInfo(globalId, 3, infoParams, Some(props)))]
    {
      if !allocOk {
        return -ENOMEM;
      }
      resources := resources + [Resource(resourceId, [])];
      changeMask := ((CHANGE_MASK_PARAMS | CHANGE_MASK_PROPS) as int);
      sent := sent + [InfoTo(resourceId, Info())];
      changeMask := 0;
      return 0;
    }

    /** endpoint_unbind: the resource at position k leaves the list. */
    method Unbind(k: nat)
      requires Valid() && k < |resources|
      modifies this
      ensures Valid()
      ensures params == old(params) && globalId == old(globalId) && infoParams == old(infoParams)
      ensures props == old(props) && sent == old(sent)
      ensures resources == old(resources)[..k] + old(resources)[k + 1..]
    {
      assert forall r :: r in resources[..k] + resources[k + 1..] ==> r in resources;
      resources := resources[..k] + resources[k + 1..];
    }

    /** endpoint_notify_subscribed for the param at `index`. */
    method NotifySubscribed(index: nat, next: nat)
      requires Valid() && index < |params|
      modifies this`sent
      ensures Valid()
      ensures sent == old(sent) + NotifyEvents(resources, params[index], index, next)
    {
      var param := params[index];
      if param.None? || !param.value.PObject? {
        return;
      }
      var id := param.value.objId;
      var ri := 0;
      while ri < |resources|
        invariant 0 <= ri <= |resources|
        invariant sent == old(sent) + BroadcastParam(resources[..ri], id, index, next, param.value)
      {
        NotifyResource(resources[ri], id, index, next, param.value);
        assert resources[..ri + 1][..ri] == resources[..ri];
        ri := ri + 1;
      }
      assert resources[..ri] == resources;
    }

    /** The inner loop of endpoint_notify_subscribed: one event per subscription entry of `r` equal to `id`. */
    method NotifyResource(r: Resource, id: u32, index: nat, next: nat, param: Pod)
      modifies this`sent
      ensures sent == old(sent) + SubscriberEvents(r, r.subscribeIds, id, index, next, param)
    {
      var i := 0;
      while i < |r.subscribeIds|
        invariant 0 <= i <= |r.subscribeIds|
        invariant sent == old(sent) + SubscriberEvents(r, r.subscribeIds[..i], id, index, next, param)
      {
        assert r.subscribeIds[..i + 1][..i] == r.subscribeIds[..i];
        if r.subscribeIds[i] == id {
          sent := sent + [ParamTo(r.id, 1, id, index, next, param)];
        }
        i := i + 1;
      }
      assert r.subscribeIds[..i] == r.subscribeIds;
    }

    /**
     * client_endpoint_update. UPDATE_PARAMS replaces all params (NULL
     * entries kept) and notifies each index i with next i + 1; otherwise
     * PARAMS_INCREMENTAL replaces Control params by new Control params with
     * the same control id. UPDATE_INFO then takes the info params (with the
     * info's PARAMS bit) and merges the props (with its PROPS bit), sends
     * the info to every resource with the info's change mask, and clears
     * the mask.
     */
    method ClientUpdate(mask: u32, news: seq<Option<Pod>>, info: EndpointInfo) returns (res: int)
      requires Valid() && |news| < 0x1_0000_0000 && ValidInfo(info)
      requires HasBit(mask, UPDATE_INFO) && HasBit(info.changeMask, CHANGE_MASK_PROPS) ==>
                 |props| + |PropItems(info)| < 0x1_0000_0000
      modifies this
      ensures Valid() && res == 0
      ensures globalId == old(globalId) && resources == old(resources)
      ensures HasBit(mask, UPDATE_PARAMS) ==> params == news
      ensures !HasBit(mask, UPDATE_PARAMS) && HasBit(mask, UPDATE_PARAMS_INCREMENTAL) ==>
                params == IncrementalRun(old(params), news, resources).0
      ensures !HasBit(mask, UPDATE_PARAMS) && !HasBit(mask, UPDATE_PARAMS_INCREMENTAL) ==> params == old(params)
      ensures infoParams == if HasBit(mask, UPDATE_INFO) && HasBit(info.changeMask, CHANGE_MASK_PARAMS) then info.params else old(infoParams)
      ensures props == if HasBit(mask, UPDATE_INFO) && HasBit(info.changeMask, CHANGE_MASK_PROPS)
                       then UpdateProps(old(props), PropItems(info)) else old(props)
      ensures sent == old(sent) + ParamsUpdateEvents(mask, old(params), news, resources)
                      + (if HasBit(mask, UPDATE_INFO) then InfoEvents(resources, EndpointInfo(globalId, info.changeMask, infoParams, Some(props))) else [])
    {
      if HasBit(mask, UPDATE_PARAMS) {
        UpdateAll(news);
      } else if HasBit(mask, UPDATE_PARAMS_INCREMENTAL) {
        UpdateIncremental(news);
      }
      if HasBit(mask, UPDATE_INFO) {
        UpdateInfo(info);
      }
      return 0;
    }

    /** The UPDATE_PARAMS branch. */
    method UpdateAll(news: seq<Option<Pod>>)
      requires Valid() && |news| < 0x1_0000_0000
      modifies this`params, this`sent
      ensures Valid()
      ensures params == news
      ensures sent == old(sent) + FullUpdateEvents(resources, news)
    {
      params := news;
      var i := 0;
      while i < |news|
        invariant 0 <= i <= |news|
        invariant Valid() && params == news
        invariant sent == old(sent) + FullUpdateEvents(resources, news[..i])
      {
        NotifySubscribed(i, i + 1);
        assert news[..i + 1][..i] == news[..i];
        i := i + 1;
      }
      assert news[..i] == news;
    }

    /** The PARAMS_INCREMENTAL branch; NULL entries count as not Control. */
    method UpdateIncremental(news: seq<Option<Pod>>)
      requires Valid()
      modifies this`params, this`sent
      ensures Valid()
      ensures params == IncrementalRun(old(params), news, resources).0
      ensures sent == old(sent) + IncrementalRun(old(params), news, resources).1
    {
      ghost var ps0 := params;
      var i := 0;
      while i < |params|
        invariant 0 <= i <= |params| == |ps0|
        invariant Valid()
        invariant params == IncrementalRun(ps0[..i], news, resources).0 + ps0[i..]
        invariant sent == old(sent) + IncrementalRun(ps0[..i], news, resources).1
      {
        IncrementalRunSnoc(ps0, news, resources, i);
        ghost var prev := IncrementalRun(ps0[..i], news, resources);
        SplitAt(prev.0, ps0, i);
        if IsControl(params[i]) {
          UpdateSlot(i, news);
          ghost var q := Some(SlotRun(ps0[i].value, news, resources, i).0);
          assert params == (prev.0 + [ps0[i]] + ps0[i + 1..])[i := q];
          ReplaceAt(prev.0, ps0[i], q, ps0[i + 1..]);
        }
        i := i + 1;
      }
      assert ps0[..i] == ps0;
      assert params == IncrementalRun(ps0, news, resources).0 + [];
    }

    /** The inner loop of the incremental branch, for the Control param at `index`. */
    method UpdateSlot(index: nat, news: seq<Option<Pod>>)
      requires Valid() && index < |params| && IsControl(params[index])
      modifies this`params, this`sent
      ensures Valid()
      ensures var s := SlotRun(old(params)[index].value, news, resources, index);
        params == old(params)[index := Some(s.0)] && sent == old(sent) + s.1
    {
      ghost var cur0 := params[index].value;
      ghost var run := SlotRun(cur0, [], resources, index);
      var j := 0;
      while j < |news|
        invariant 0 <= j <= |news|
        invariant Valid() && |params| == |old(params)|
        invariant run == SlotRun(cur0, news[..j], resources, index)
        invariant params == old(params)[index := Some(run.0)]
        invariant sent == old(sent) + run.1
      {
        ghost var s' := SlotRun(cur0, news[..j + 1], resources, index);
        SlotRunSnoc(cur0, news, j, resources, index);
        var cur := params[index].value;
        var nw := news[j];
        if IsControl(nw) {
          var pold := FindProp(cur.props, PARAM_CONTROL_id);
          var pnew := FindProp(nw.value.props, PARAM_CONTROL_id);
          if pold.Some? && pnew.Some? && pold == pnew {
            assert SameControl(run.0, nw);
            ghost var evs := NotifyEvents(resources, nw, index, UINT32_MAX);
            assert s' == (nw.value, run.1 + evs);
            params := params[index := nw];
            NotifySubscribed(index, UINT32_MAX);
            AppendAssoc(old(sent), run.1, evs);
          }
        }
        run := s';
        j := j + 1;
      }
      assert news[..j] == news;
    }

    /** The UPDATE_INFO branch. */
    method UpdateInfo(info: EndpointInfo)
      requires Valid() && ValidInfo(info)
      requires HasBit(info.changeMask, CHANGE_MASK_PROPS) ==> |props| + |PropItems(info)| < 0x1_0000_0000
      modifies this`infoParams, this`props, this`changeMask, this`sent
      ensures Valid()
      ensures infoParams == if HasBit(info.changeMask, CHANGE_MASK_PARAMS) then info.params else old(infoParams)
      ensures props == if HasBit(info.changeMask, CHANGE_MASK_PROPS) then UpdateProps(old(props), PropItems(info)) else old(props)
      ensures sent == old(sent) + InfoEvents(resources, EndpointInfo(globalId, info.changeMask, infoParams, Some(props)))
    {
      if HasBit(info.changeMask, CHANGE_MASK_PARAMS) {
        infoParams := info.params;
      }
      if HasBit(info.changeMask, CHANGE_MASK_PROPS) {
        props := UpdateProps(props, PropItems(info));
      }
      changeMask := info.changeMask;
      SendInfo(Info());
      changeMask := 0;
      assert |props| < 0x1_0000_0000;
    }

    /** The broadcast of pw_endpoint_info to every bound resource, in list order. */
    method SendInfo(info: EndpointInfo)
      modifies this`sent
      ensures sent == old(sent) + InfoEvents(resources, info)
    {
      var i := 0;
      while i < |resources|
        invariant 0 <= i <= |resources|
        invariant sent == old(sent) + InfoEvents(resources[..i], info)
      {
        assert InfoEvents(resources[..i + 1], info) == InfoEvents(resources[..i], info) + [InfoTo(resources[i].id, info)];
        sent := sent + [InfoTo(resources[i].id, info)];
        i := i + 1;
      }
      assert resources[..i] == resources;
    }
  }

  /** The full enumerations a subscription replays, one per kept id in order, all with seq 1. */
  function Replay(rid: nat, params: seq<Option<Pod>>, ids: seq<u32>, f: (Pod, Pod) -> Option<Pod>): seq<Sent>
    decreases |ids|
  {
    if |ids| == 0 then []
    else Replay(rid, params, ids[..|ids| - 1], f) + ParamEvents(rid, 1, ids[|ids| - 1], Matches(params, ids[|ids| - 1], 0, None, f))
  }

  /** What the params part of an update sends. */
  function ParamsUpdateEvents(mask: u32, ps: seq<Option<Pod>>, news: seq<Option<Pod>>, rs: seq<Resource>): seq<Sent> {
    if HasBit(mask, UPDATE_PARAMS) then FullUpdateEvents(rs, news)
    else if HasBit(mask, UPDATE_PARAMS_INCREMENTAL) then IncrementalRun(ps, news, rs).1
    else []
  }

  /**
   * The inner loop of the incremental update as written: every new param
   * is asked whether it is a Control param, a NULL one included; None
   * stands for the NULL dereference that follows.
   */
  function SlotRunAsWritten(cur: Pod, news: seq<Option<Pod>>, rs: seq<Resource>, index: nat): (r: Option<(Pod, seq<Sent>)>)
    requires IsControl(Some(cur))
    ensures r.None? <==> None in news
    ensures r.Some? ==> r.value == SlotRun(cur, news, rs, index)
    decreases |news|
  {
    if |news| == 0 then Some((cur, []))
    else
      var prev := SlotRunAsWritten(cur, news[..|news| - 1], rs, index);
      var nw := news[|news| - 1];
      if prev.None? || nw.None? then None
      else if prev.value.0.PObject? && SameControl(prev.value.0, nw) then
        Some((nw.value, prev.value.1 + NotifyEvents(rs, nw, index, UINT32_MAX)))
      else prev
  }

  /**
   * The incremental update as written: every current param is asked whether
   * it is a Control param, a NULL one included (a full update keeps NULL
   * entries); None stands for the NULL dereference.
   */
  function IncrementalAsWritten(ps: seq<Option<Pod>>, news: seq<Option<Pod>>, rs: seq<Resource>): (r: Option<(seq<Option<Pod>>, seq<Sent>)>)
    ensures r.None? <==> None in ps || (None in news && exists i :: 0 <= i < |ps| && IsControl(ps[i]))
    ensures r.Some? ==> r.value == IncrementalRun(ps, news, rs)
    decreases |ps|
  {
    if |ps| == 0 then Some(([], []))
    else
      var prev := IncrementalAsWritten(ps[..|ps| - 1], news, rs);
      var p := ps[|ps| - 1];
      if prev.None? || p.None? then None
      else if IsControl(p) then
        var s := SlotRunAsWritten(p.value, news, rs, |ps| - 1);
        if s.None? then None else Some((prev.value.0 + [Some(s.value.0)], prev.value.1 + s.value.1))
      else Some((prev.value.0 + [p], prev.value.1))
  }

  /** A NULL param left by a full update makes the next incremental update fail as written. */
  lemma IncrementalAsWrittenDereferencesNull()
    ensures IncrementalAsWritten([None], [], []) == None
    ensures IncrementalRun([None], [], []) == ([None], [])
  {
    var ps: seq<Option<Pod>> := [None];
    assert ps[..0] == [];
    assert IncrementalRun(ps, [], []) == ([] + [None], []);
    assert [] + [None] == ps;
  }

  /** A NULL new param next to a Control param fails as written. */
  lemma IncrementalAsWrittenDereferencesNullUpdate(cur: Pod)
    requires IsControl(Some(cur))
    ensures IncrementalAsWritten([Some(cur)], [None], []) == None
    ensures IncrementalRun([Some(cur)], [None], []) == ([Some(cur)], [])
  {
    var ps: seq<Option<Pod>> := [Some(cur)];
    var news: seq<Option<Pod>> := [None];
    assert ps[..0] == [] && news[..0] == [];
    assert !SameControl(cur, None);
    assert SlotRun(cur, news, [], 0) == (cur, []);
    assert IncrementalRun(ps, news, []) == ([] + [Some(cur)], [] + []);
    assert [] + [Some(cur)] == ps;
    var quiet: seq<Sent> := [];
    assert quiet + quiet == quiet;
  }

  lemma {:induction false} SlotRunAgrees(cur: Pod, news: seq<Option<Pod>>, rs: seq<Resource>, index: nat)
    requires IsControl(Some(cur)) && None !in news
    ensures SlotRunAsWritten(cur, news, rs, index) == Some(SlotRun(cur, news, rs, index))
    decreases |news|
  {
    if |news| > 0 {
      assert None !in news[..|news| - 1] by {
        assert forall x :: x in news[..|news| - 1] ==> x in news;
      }
      SlotRunAgrees(cur, news[..|news| - 1], rs, index);
    }
  }

  /** Without NULL params the corrected update is the update as written. */
  lemma {:induction false} IncrementalAgreesWithoutNull(ps: seq<Option<Pod>>, news: seq<Option<Pod>>, rs: seq<Resource>)
    requires None !in ps && None !in news
    ensures IncrementalAsWritten(ps, news, rs) == Some(IncrementalRun(ps, news, rs))
    decreases |ps|
  {
    if |ps| > 0 {
      assert None !in ps[..|ps| - 1] by {
        assert forall x :: x in ps[..|ps| - 1] ==> x in ps;
      }
      IncrementalAgreesWithoutNull(ps[..|ps| - 1], news, rs);
      if IsControl(ps[|ps| - 1]) {
        SlotRunAgrees(ps[|ps| - 1].value, news, rs, |ps| - 1);
      }
    }
  }
}
