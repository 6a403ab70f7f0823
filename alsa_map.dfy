/**
 * The pure half of the ALSA driver helpers: the SPA-to-ALSA sample format
 * table and the channel-map sanitiser that repairs a map reported by the
 * driver (invalid or duplicated positions are replaced from the default
 * layout for the channel count).
 *
 * Channel positions are the values of ALSA's `enum snd_pcm_chmap_position`
 * (UNKNOWN = 0, NA = 1, MONO = 2, FL = 3, ... BRC = LAST = 36), in the order
 * of the chmap table at spa/plugins/alsa/alsa-utils.c:109-146. A 64-bit mask
 * `1 << pos` is modelled as the set of positions whose bit is set.
 */
module AlsaMap {
  import opened Spa

  // ---------------------------------------------------------------------
  // Sample formats
  // ---------------------------------------------------------------------

  /** The SPA audio formats of the format table, and any other SPA format. */
  datatype SpaAudioFormat =
    | SpaUnknown | SpaF32LE | SpaF32BE | SpaS32LE | SpaS32BE | SpaS24_32LE | SpaS24_32BE
    | SpaS16LE | SpaS16BE | SpaS24LE | SpaS24BE | SpaS8 | SpaU8 | SpaU16LE | SpaU16BE
    | SpaU24_32LE | SpaU24_32BE | SpaU24LE | SpaU24BE | SpaU32LE | SpaU32BE
    | SpaF64LE | SpaF64BE
    | SpaOtherFormat(code: nat)

  /** The ALSA sample formats (snd_pcm_format_t) named by the table. */
  datatype PcmFormat =
    | PcmUnknown | PcmFloatLE | PcmFloatBE | PcmS32LE | PcmS32BE | PcmS24LE | PcmS24BE
    | PcmS16LE | PcmS16BE | PcmS24_3LE | PcmS24_3BE | PcmS8 | PcmU8 | PcmU16LE | PcmU16BE
    | PcmU24LE | PcmU24BE | PcmU24_3LE | PcmU24_3BE | PcmU32LE | PcmU32BE
    | PcmFloat64LE | PcmFloat64BE

  /** One row of format_info (the planar-format column is only used by format enumeration). */
  datatype FormatRow = FormatRow(spa: SpaAudioFormat, pcm: PcmFormat)

  /** Number of rows of format_info. */
  const FORMAT_ROWS: nat := 23

  /**
   * Row k of format_info: the UNKNOWN row first, then rows pairing a known
   * SPA format with a known ALSA format.
   */
  function FormatInfo(k: nat): (r: FormatRow)
    requires k < FORMAT_ROWS
    ensures k == 0 <==> r.pcm == PcmUnknown
    ensures k == 0 <==> r.spa == SpaUnknown
    ensures !r.spa.SpaOtherFormat?
  {
    match k
    case 0 => FormatRow(SpaUnknown, PcmUnknown)
    case 1 => FormatRow(SpaF32LE, PcmFloatLE)
    case 2 => FormatRow(SpaF32BE, PcmFloatBE)
    case 3 => FormatRow(SpaS32LE, PcmS32LE)
    case 4 => FormatRow(SpaS32BE, PcmS32BE)
    case 5 => FormatRow(SpaS24_32LE, PcmS24LE)
    case 6 => FormatRow(SpaS24_32BE, PcmS24BE)
    case 7 => FormatRow(SpaS16LE, PcmS16LE)
    case 8 => FormatRow(SpaS16BE, PcmS16BE)
    case 9 => FormatRow(SpaS24LE, PcmS24_3LE)
    case 10 => FormatRow(SpaS24BE, PcmS24_3BE)
    case 11 => FormatRow(SpaS8, PcmS8)
    case 12 => FormatRow(SpaU8, PcmU8)
    case 13 => FormatRow(SpaU16LE, PcmU16LE)
    case 14 => FormatRow(SpaU16BE, PcmU16BE)
    case 15 => FormatRow(SpaU24_32LE, PcmU24LE)
    case 16 => FormatRow(SpaU24_32BE, PcmU24BE)
    case 17 => FormatRow(SpaU24LE, PcmU24_3LE)
    case 18 => FormatRow(SpaU24BE, PcmU24_3BE)
    case 19 => FormatRow(SpaU32LE, PcmU32LE)
    case 20 => FormatRow(SpaU32BE, PcmU32BE)
    case 21 => FormatRow(SpaF64LE, PcmFloat64LE)
    case _ => FormatRow(SpaF64BE, PcmFloat64BE)
  }

  /** The row of format_info that names a table format. */
  function RowOf(f: SpaAudioFormat): (k: nat)
    requires !f.SpaOtherFormat?
    ensures k < FORMAT_ROWS && FormatInfo(k).spa == f
  {
    match f
    case SpaUnknown => 0
    case SpaF32LE => 1
    case SpaF32BE => 2
    case SpaS32LE => 3
    case SpaS32BE => 4
    case SpaS24_32LE => 5
    case SpaS24_32BE => 6
    case SpaS16LE => 7
    case SpaS16BE => 8
    case SpaS24LE => 9
    case SpaS24BE => 10
    case SpaS8 => 11
    case SpaU8 => 12
    case SpaU16LE => 13
    case SpaU16BE => 14
    case SpaU24_32LE => 15
    case SpaU24_32BE => 16
    case SpaU24LE => 17
    case SpaU24BE => 18
    case SpaU32LE => 19
    case SpaU32BE => 20
    case SpaF64LE => 21
    case SpaF64BE => 22
  }

  /**
   * The table search of spa_format_to_alsa from row i on: the ALSA format of
   * the first row whose SPA format matches, or UNKNOWN when none does.
   */
  function LookupFrom(f: SpaAudioFormat, i: nat): (r: PcmFormat)
    requires i <= FORMAT_ROWS
    ensures f.SpaOtherFormat? || RowOf(f) < i ==> r == PcmUnknown
    ensures !f.SpaOtherFormat? && i <= RowOf(f) ==> r == FormatInfo(RowOf(f)).pcm
    decreases FORMAT_ROWS - i
  {
    if i == FORMAT_ROWS then PcmUnknown
    else if FormatInfo(i).spa == f then
      RowOfFormatInfo(i);
      FormatInfo(i).pcm
    else LookupFrom(f, i + 1)
  }

  /** No SPA format has two rows: a row's format leads back to that row. */
  lemma RowOfFormatInfo(k: nat)
    requires k < FORMAT_ROWS
    ensures RowOf(FormatInfo(k).spa) == k
  {
  }

  /** spa_format_to_alsa: the ALSA format of a table row for f, or UNKNOWN when no row has f. */
  function FormatToAlsa(f: SpaAudioFormat): (r: PcmFormat)
    ensures (forall k :: 0 <= k < FORMAT_ROWS ==> FormatInfo(k).spa != f) ==> r == PcmUnknown
    ensures (exists k :: 0 <= k < FORMAT_ROWS && FormatInfo(k).spa == f) ==>
              exists k :: 0 <= k < FORMAT_ROWS && FormatInfo(k).spa == f && r == FormatInfo(k).pcm
    ensures !f.SpaOtherFormat? ==> r == FormatInfo(RowOf(f)).pcm
  {
    LookupFrom(f, 0)
  }

  /** Only SPA's own UNKNOWN and formats outside the table map to ALSA's UNKNOWN. */
  lemma FormatToAlsaUnknown(f: SpaAudioFormat)
    ensures FormatToAlsa(f) == PcmUnknown <==> f == SpaUnknown || f.SpaOtherFormat?
  {
    var r := LookupFrom(f, 0);
    if f.SpaOtherFormat? {
      assert forall k :: 0 <= k < FORMAT_ROWS ==> !FormatInfo(k).spa.SpaOtherFormat?;
    } else if f == SpaUnknown {
      assert FormatInfo(0).spa == f;
    } else {
      assert FormatInfo(RowOf(f)).spa == f;
      var k :| 0 <= k < FORMAT_ROWS && FormatInfo(k).spa == f && r == FormatInfo(k).pcm;
      assert k != 0;
    }
  }

  /** The sample-format step of spa_alsa_set_format: an unknown format is refused. */
  datatype FormatChoice = Chosen(pcm: PcmFormat) | Refused(err: int)

  function SelectFormat(f: SpaAudioFormat): (r: FormatChoice)
    ensures r.Refused? <==> f == SpaUnknown || f.SpaOtherFormat?
    ensures r.Refused? ==> r.err == -EINVAL
    ensures r.Chosen? ==> r.pcm != PcmUnknown && r.pcm == FormatToAlsa(f)
  {
    FormatToAlsaUnknown(f);
    var pcm := FormatToAlsa(f);
    if pcm == PcmUnknown then Refused(-EINVAL) else Chosen(pcm)
  }

  // ---------------------------------------------------------------------
  // Channel maps
  // ---------------------------------------------------------------------

  const CHMAP_UNKNOWN: int := 0
  const CHMAP_MONO: int := 2
  const CHMAP_FL: int := 3
  const CHMAP_FR: int := 4
  const CHMAP_RL: int := 5
  const CHMAP_RR: int := 6
  const CHMAP_FC: int := 7
  const CHMAP_LFE: int := 8
  const CHMAP_SL: int := 9
  const CHMAP_SR: int := 10
  const CHMAP_LAST: int := 36
  /** Width of the position masks (uint64_t). */
  const MASK_BITS: int := 64

  /** default_layouts[channels].mask, as a set of positions. */
  function DefaultLayout(channels: nat): (m: set<int>)
    requires channels <= 8
    ensures |m| == channels
    ensures forall q :: q in m ==> CHMAP_MONO <= q <= CHMAP_SR
  {
    match channels
    case 0 => {}
    case 1 => {CHMAP_MONO}
    case 2 => {CHMAP_FL, CHMAP_FR}
    case 3 => {CHMAP_FL, CHMAP_FR, CHMAP_LFE}
    case 4 => {CHMAP_FL, CHMAP_FR, CHMAP_RL, CHMAP_RR}
    case 5 => {CHMAP_FL, CHMAP_FR, CHMAP_RL, CHMAP_RR, CHMAP_FC}
    case 6 => {CHMAP_FL, CHMAP_FR, CHMAP_RL, CHMAP_RR, CHMAP_FC, CHMAP_LFE}
    case 7 => {CHMAP_FL, CHMAP_FR, CHMAP_RL, CHMAP_RR, CHMAP_SL, CHMAP_SR, CHMAP_FC}
    case _ => {CHMAP_FL, CHMAP_FR, CHMAP_RL, CHMAP_RR, CHMAP_SL, CHMAP_SR, CHMAP_FC, CHMAP_LFE}
  }

  /** A position outside [0, LAST] reads as UNKNOWN. */
  function Normalise(v: int): (r: int)
    ensures 0 <= r <= CHMAP_LAST
    ensures r == v || r == CHMAP_UNKNOWN
  {
    if v < 0 || v > CHMAP_LAST then CHMAP_UNKNOWN else v
  }

  function NormaliseAll(p: seq<int>): (q: seq<int>)
    ensures |q| == |p| && forall k :: 0 <= k < |p| ==> q[k] == Normalise(p[k])
  {
    seq(|p|, k requires 0 <= k < |p| => Normalise(p[k]))
  }

  /** A map the sanitiser leaves alone: every position known and in range, none repeated. */
  predicate ValidMap(p: seq<int>) {
    (forall k :: 0 <= k < |p| ==> CHMAP_UNKNOWN < p[k] <= CHMAP_LAST) && NoDup(p)
  }

  /** State of the first pass: the positions, the seen-position mask and the duplicate mask. */
  datatype Scan = Scan(pos: seq<int>, mask: set<int>, dup: set<int>)

  /** Positions at index <= i equal to v become UNKNOWN (the inner duplicate loop). */
  function MarkUnknown(p: seq<int>, v: int, i: nat): (r: seq<int>)
    ensures |r| == |p|
  {
    seq(|p|, j requires 0 <= j < |p| => if j <= i && p[j] == v then CHMAP_UNKNOWN else p[j])
  }

  /** One iteration of the first pass of sanitize_map, on channel i. */
  function ScanStep(sc: Scan, i: nat): (r: Scan)
    requires i < |sc.pos|
    ensures |r.pos| == |sc.pos|
    ensures sc.mask <= r.mask && sc.dup <= r.dup && Normalise(sc.pos[i]) in r.mask
    ensures Normalise(sc.pos[i]) in sc.mask ==> Normalise(sc.pos[i]) in r.dup && CHMAP_UNKNOWN in r.mask && r.pos[i] == CHMAP_UNKNOWN
    ensures Normalise(sc.pos[i]) !in sc.mask ==> r.dup == sc.dup && r.pos[i] == Normalise(sc.pos[i])
    ensures forall k :: i < k < |sc.pos| ==> r.pos[k] == sc.pos[k]
  {
    var v := Normalise(sc.pos[i]);
    var p1 := sc.pos[i := v];
    if v in sc.mask then Scan(MarkUnknown(p1, v, i), sc.mask + {CHMAP_UNKNOWN}, sc.dup + {v})
    else Scan(p1, sc.mask + {v}, sc.dup)
  }

  /** The first pass over the first n channels; ScanClosedForm states what it computes. */
  function ScanPrefix(p: seq<int>, n: nat): (r: Scan)
    requires n <= |p|
    ensures |r.pos| == |p| && r.dup <= r.mask
    ensures forall k :: n <= k < |p| ==> r.pos[k] == p[k]
  {
    if n == 0 then Scan(p, {}, {}) else ScanStep(ScanPrefix(p, n - 1), n - 1)
  }

  /** The members of m in [k, 64), in ascending order (successive set bits of a mask). */
  function AscendingFrom(m: set<int>, k: int): (r: seq<int>)
    ensures forall j :: 0 <= j < |r| ==> r[j] in m && k <= r[j] < MASK_BITS
    ensures forall i, j :: 0 <= i < j < |r| ==> r[i] < r[j]
    decreases MASK_BITS - k
  {
    if k >= MASK_BITS then []
    else if k in m then [k] + AscendingFrom(m, k + 1)
    else AscendingFrom(m, k + 1)
  }

  /**
   * The second pass: each UNKNOWN slot, in channel order, takes the next
   * entry of `avail`, or 0 once `avail` is exhausted (slot by slot in
   * FillUnknownAt).
   */
  function FillUnknown(p: seq<int>, avail: seq<int>): (r: seq<int>)
    ensures |r| == |p|
  {
    if p == [] then []
    else if p[0] == CHMAP_UNKNOWN then
      [if avail == [] then 0 else avail[0]] + FillUnknown(p[1..], if avail == [] then [] else avail[1..])
    else [p[0]] + FillUnknown(p[1..], avail)
  }

  /**
   * sanitize_map on a map of at most 8 channels: if the first pass left no
   * UNKNOWN bit the map is returned as it stands; otherwise the UNKNOWN slots
   * are filled from the default-layout positions that no surviving channel uses.
   */
  function Sanitized(p: seq<int>): (r: seq<int>)
    requires |p| <= 8
    ensures |r| == |p|
    ensures forall k :: 0 <= k < |p| && ScanPrefix(p, |p|).pos[k] != CHMAP_UNKNOWN ==> r[k] == ScanPrefix(p, |p|).pos[k]
  {
    var sc := ScanPrefix(p, |p|);
    if CHMAP_UNKNOWN !in sc.mask then sc.pos
    else
      var avail := AscendingFrom(DefaultLayout(|p|) - (sc.mask - sc.dup), 1);
      FillUnknownAt(sc.pos, avail);
      FillUnknown(sc.pos, avail)
  }

  // ---- the first pass in closed form ----

  /**
   * After the first n channels of q (the normalised map), a channel keeps its
   * position exactly when that position is known and occurs once among them.
   */
  ghost predicate KeptPositions(q: seq<int>, n: nat, pos: seq<int>)
    requires n <= |q| == |pos|
  {
    forall k :: 0 <= k < n ==>
      pos[k] == (if q[k] != CHMAP_UNKNOWN && multiset(q[..n])[q[k]] == 1 then q[k] else CHMAP_UNKNOWN)
  }

  /** The mask holds every known position seen, the duplicate mask those seen twice or more. */
  ghost predicate SeenMasks(q: seq<int>, n: nat, mask: set<int>, dup: set<int>)
    requires n <= |q|
  {
    (forall v :: v != CHMAP_UNKNOWN ==> (v in mask <==> multiset(q[..n])[v] >= 1))
    && (forall v :: v != CHMAP_UNKNOWN ==> (v in dup <==> multiset(q[..n])[v] >= 2))
  }

  /** Some position occurs twice among the first n channels. */
  ghost predicate HasRepeat(q: seq<int>, n: nat)
    requires n <= |q|
  {
    exists v :: multiset(q[..n])[v] >= 2
  }

  /** The UNKNOWN bit is set once an UNKNOWN position or any duplicate was met. */
  ghost predicate UnknownBit(q: seq<int>, n: nat, mask: set<int>)
    requires n <= |q|
  {
    CHMAP_UNKNOWN in mask <==> multiset(q[..n])[CHMAP_UNKNOWN] >= 1 || HasRepeat(q, n)
  }

  /** q is the map p with every position normalised. */
  ghost predicate Normalised(p: seq<int>, q: seq<int>) {
    |q| == |p| && forall k :: 0 <= k < |p| ==> q[k] == Normalise(p[k])
  }

  /** What the first pass has achieved after n channels of p, whose normalised form is q. */
  ghost predicate ScanInvariant(p: seq<int>, q: seq<int>, n: nat, sc: Scan)
    requires n <= |p| == |q|
  {
    |sc.pos| == |p|
    && KeptPositions(q, n, sc.pos)
    && (forall k :: n <= k < |p| ==> sc.pos[k] == p[k])
    && SeenMasks(q, n, sc.mask, sc.dup)
    && UnknownBit(q, n, sc.mask)
  }

  /** Counting helper: the multiset of a prefix grows by one element. */
  lemma CountStep(q: seq<int>, i: nat)
    requires i < |q|
    ensures multiset(q[..i + 1]) == multiset(q[..i]) + multiset{q[i]}
  {
    assert q[..i + 1] == q[..i] + [q[i]];
  }

  lemma KeptStep(p: seq<int>, q: seq<int>, i: nat, sc: Scan)
    requires i < |p| && Normalised(p, q) && ScanInvariant(p, q, i, sc)
    ensures KeptPositions(q, i + 1, ScanStep(sc, i).pos)
  {
    var v := q[i];
    CountStep(q, i);
    var before := multiset(q[..i]);
    var seen := multiset(q[..i + 1]);
    var r := ScanStep(sc, i);
    forall k | 0 <= k < i + 1
      ensures r.pos[k] == (if q[k] != CHMAP_UNKNOWN && seen[q[k]] == 1 then q[k] else CHMAP_UNKNOWN)
    {
      if k < i && q[k] != v {
        assert seen[q[k]] == before[q[k]];
      } else if k < i {
        if v in sc.mask && v != CHMAP_UNKNOWN {
          assert seen[v] >= 2;
        }
      } else {
        if v != CHMAP_UNKNOWN && v in sc.mask {
          assert seen[v] >= 2;
        } else if v != CHMAP_UNKNOWN {
          assert before[v] == 0;
        }
      }
    }
  }

  lemma MasksStep(p: seq<int>, q: seq<int>, i: nat, sc: Scan)
    requires i < |p| && Normalised(p, q) && ScanInvariant(p, q, i, sc)
    ensures SeenMasks(q, i + 1, ScanStep(sc, i).mask, ScanStep(sc, i).dup)
  {
    CountStep(q, i);
  }

  lemma UnknownBitStep(p: seq<int>, q: seq<int>, i: nat, sc: Scan)
    requires i < |p| && Normalised(p, q) && ScanInvariant(p, q, i, sc)
    ensures UnknownBit(q, i + 1, ScanStep(sc, i).mask)
  {
    var v := q[i];
    CountStep(q, i);
    var before := multiset(q[..i]);
    var seen := multiset(q[..i + 1]);
    if HasRepeat(q, i) {
      var w :| before[w] >= 2;
      assert seen[w] >= 2;
    }
    if v in sc.mask {
      assert seen[v] >= 2 || (v == CHMAP_UNKNOWN && CHMAP_UNKNOWN in sc.mask);
      assert HasRepeat(q, i + 1) || seen[CHMAP_UNKNOWN] >= 1;
    } else if HasRepeat(q, i + 1) {
      var w :| seen[w] >= 2;
      assert before[w] >= 2;
    }
  }

  /** One step of the first pass keeps its invariant. */
  lemma ScanInvariantStep(p: seq<int>, q: seq<int>, n: nat, sc: Scan)
    requires 0 < n <= |p| && Normalised(p, q) && ScanInvariant(p, q, n - 1, sc)
    ensures ScanInvariant(p, q, n, ScanStep(sc, n - 1))
  {
    var i := n - 1;
    KeptStep(p, q, i, sc);
    MasksStep(p, q, i, sc);
    UnknownBitStep(p, q, i, sc);
    assert i + 1 == n;
  }

  /** The first pass over n channels, in closed form. */
  lemma {:induction false} ScanClosedForm(p: seq<int>, q: seq<int>, n: nat)
    requires n <= |p| && Normalised(p, q)
    ensures ScanInvariant(p, q, n, ScanPrefix(p, n))
    decreases n
  {
    if n == 0 {
      ScanInvariantStart(p, q);
      assert ScanPrefix(p, 0) == Scan(p, {}, {});
    } else {
      ScanClosedForm(p, q, n - 1);
      ScanPrefixStep(p, q, n);
    }
  }

  /** The pass over n positions is one more step after the pass over n - 1, so it keeps the invariant. */
  lemma ScanPrefixStep(p: seq<int>, q: seq<int>, n: nat)
    requires 0 < n <= |p| && Normalised(p, q)
    requires ScanInvariant(p, q, n - 1, ScanPrefix(p, n - 1))
    ensures ScanInvariant(p, q, n, ScanPrefix(p, n))
  {
    var sc := ScanPrefix(p, n - 1);
    ScanInvariantStep(p, q, n, sc);
    assert ScanStep(sc, n - 1) == ScanPrefix(p, n);
  }

  /** Before the first channel nothing has been seen. */
  lemma ScanInvariantStart(p: seq<int>, q: seq<int>)
    requires Normalised(p, q)
    ensures ScanInvariant(p, q, 0, Scan(p, {}, {}))
  {
    assert q[..0] == [];
  }

  // ---- the second pass ----

  lemma {:induction false} AscendingEmpty(m: set<int>, k: int)
    requires forall q :: q in m ==> q < k
    ensures AscendingFrom(m, k) == []
    decreases MASK_BITS - k
  {
    if k < MASK_BITS {
      AscendingEmpty(m, k + 1);
    }
  }

  /** Number of UNKNOWN slots among the first k channels. */
  function UnknownsBefore(p: seq<int>, k: nat): nat
    requires k <= |p|
  {
    multiset(p[..k])[CHMAP_UNKNOWN]
  }

  /**
   * The second pass in closed form: a known slot is untouched, and the
   * UNKNOWN slot that has c UNKNOWN slots before it takes avail[c], or 0
   * when avail has no such entry.
   */
  lemma FillUnknownAt(p: seq<int>, avail: seq<int>)
    ensures var r := FillUnknown(p, avail);
      forall k :: 0 <= k < |p| ==>
        r[k] == if p[k] != CHMAP_UNKNOWN then p[k]
                else if UnknownsBefore(p, k) < |avail| then avail[UnknownsBefore(p, k)] else 0
  {
    forall k | 0 <= k < |p|
      ensures FillUnknown(p, avail)[k] == if p[k] != CHMAP_UNKNOWN then p[k]
                else if UnknownsBefore(p, k) < |avail| then avail[UnknownsBefore(p, k)] else 0
    {
      FillUnknownAtIndex(p, avail, k);
    }
  }

  lemma {:induction false} FillUnknownAtIndex(p: seq<int>, avail: seq<int>, k: nat)
    requires k < |p|
    ensures FillUnknown(p, avail)[k] == if p[k] != CHMAP_UNKNOWN then p[k]
              else if UnknownsBefore(p, k) < |avail| then avail[UnknownsBefore(p, k)] else 0
    decreases k
  {
    var rest := if p[0] == CHMAP_UNKNOWN && avail != [] then avail[1..] else if p[0] == CHMAP_UNKNOWN then [] else avail;
    var head := if p[0] != CHMAP_UNKNOWN then p[0] else if avail == [] then 0 else avail[0];
    assert FillUnknown(p, avail) == [head] + FillUnknown(p[1..], rest);
    if k == 0 {
      assert p[..0] == [];
    } else {
      FillUnknownAtIndex(p[1..], rest, k - 1);
      assert p[1..][k - 1] == p[k];
      UnknownsBeforeTail(p, k);
      if p[0] == CHMAP_UNKNOWN && avail != [] {
        assert UnknownsBefore(p, k) == UnknownsBefore(p[1..], k - 1) + 1;
      } else if p[0] == CHMAP_UNKNOWN {
        assert rest == [];
      } else {
        assert UnknownsBefore(p, k) == UnknownsBefore(p[1..], k - 1);
      }
    }
  }

  /** Dropping the first channel drops its UNKNOWN, if it was one, from the count. */
  lemma UnknownsBeforeTail(p: seq<int>, k: nat)
    requires 0 < k <= |p|
    ensures UnknownsBefore(p, k) == UnknownsBefore(p[1..], k - 1) + (if p[0] == CHMAP_UNKNOWN then 1 else 0)
  {
    assert p[..k] == [p[0]] + p[1..][..k - 1];
  }

  /** Marks UNKNOWN every channel up to i that holds the position of channel i. */
  method MarkDuplicates(pos: array<int>, i: nat)
    requires i < pos.Length
    modifies pos
    ensures pos[..] == MarkUnknown(old(pos[..]), old(pos[i]), i)
  {
    ghost var p := pos[..];
    ghost var v := pos[i];
    var j := 0;
    while j <= i
      invariant 0 <= j <= i + 1
      invariant j <= i ==> pos[i] == v
      invariant forall k :: 0 <= k < pos.Length ==>
        pos[k] == (if k < j && p[k] == v then CHMAP_UNKNOWN else p[k])
    {
      if pos[j] == pos[i] {
        pos[j] := CHMAP_UNKNOWN;
      }
      j := j + 1;
    }
  }

  /** `mask` holds the positions of `avail` from `cur` on. */
  predicate MaskFrom(mask: set<int>, avail: set<int>, cur: int) {
    mask == set q | q in avail && q >= cur
  }

  /** The second pass on the channels from i on, one channel at a time. */
  lemma FillUnknownCons(p: seq<int>, i: nat, avail: seq<int>)
    requires i < |p|
    ensures FillUnknown(p[i..], avail) ==
      if p[i] == CHMAP_UNKNOWN then
        [if avail == [] then 0 else avail[0]] + FillUnknown(p[i + 1..], if avail == [] then [] else avail[1..])
      else [p[i]] + FillUnknown(p[i + 1..], avail)
  {
    assert p[i..][1..] == p[i + 1..];
  }

  /**
   * The do-while of the second loop: shift the mask at least once, then
   * until its bit 0 is set or it is empty. `mask` holds the positions of
   * `avail` from `cur` on (its bit 0 stands for position `cur`).
   */
  method ShiftToNext(avail: set<int>, mask0: set<int>, cur0: int) returns (mask: set<int>, cur: int)
    requires forall q :: q in avail ==> 0 < q < MASK_BITS
    requires cur0 >= 0 && MaskFrom(mask0, avail, cur0)
    ensures cur > cur0 && MaskFrom(mask, avail, cur)
    ensures mask != {} ==> cur in avail && AscendingFrom(avail, cur0 + 1) == [cur] + AscendingFrom(avail, cur + 1)
    ensures mask == {} ==> AscendingFrom(avail, cur0 + 1) == [] && AscendingFrom(avail, cur + 1) == []
  {
    mask := mask0 - {cur0};
    cur := cur0 + 1;
    while mask != {} && cur !in mask
      invariant cur > cur0
      invariant mask == set q | q in avail && q >= cur
      invariant AscendingFrom(avail, cur0 + 1) == AscendingFrom(avail, cur)
      decreases MASK_BITS - cur
    {
      var q :| q in mask;
      assert cur < q < MASK_BITS;
      mask := mask - {cur};
      cur := cur + 1;
    }
    if mask == {} {
      assert forall q :: q in avail ==> q < cur by {
        forall q | q in avail
          ensures q < cur
        {
          assert q >= cur ==> q in mask;
        }
      }
      AscendingEmpty(avail, cur);
      AscendingEmpty(avail, cur + 1);
    }
  }

  /** One iteration of the second loop, on channel i. */
  method FillSlot(pos: array<int>, i: nat, avail: set<int>, mask0: set<int>, cur0: int)
    returns (mask: set<int>, cur: int)
    requires forall q :: q in avail ==> 0 < q < MASK_BITS
    requires i < pos.Length && cur0 >= 0 && MaskFrom(mask0, avail, cur0)
    modifies pos
    ensures cur >= 0 && MaskFrom(mask, avail, cur)
    ensures pos[..] == old(pos[..])[i := pos[i]]
    ensures FillUnknown(old(pos[..])[i..], AscendingFrom(avail, cur0 + 1)) ==
      [pos[i]] + FillUnknown(old(pos[..])[i + 1..], AscendingFrom(avail, cur + 1))
  {
    FillUnknownCons(pos[..], i, AscendingFrom(avail, cur0 + 1));
    mask, cur := mask0, cur0;
    if pos[i] == CHMAP_UNKNOWN {
      mask, cur := ShiftToNext(avail, mask, cur);
      pos[i] := if mask != {} then cur else 0;
    }
  }

  /** Channels before i are filled, the others untouched, with `cur` the mask position reached. */
  ghost predicate FillProgress(p: seq<int>, now: seq<int>, i: nat, avail: set<int>, cur: int)
    requires i <= |p| == |now|
  {
    now[i..] == p[i..]
    && FillUnknown(p, AscendingFrom(avail, 1)) == now[..i] + FillUnknown(p[i..], AscendingFrom(avail, cur + 1))
  }

  lemma FillProgressStep(p: seq<int>, before: seq<int>, after: seq<int>, i: nat, avail: set<int>, c0: int, c1: int)
    requires i < |p| == |before| == |after|
    requires FillProgress(p, before, i, avail, c0)
    requires after == before[i := after[i]]
    requires FillUnknown(before[i..], AscendingFrom(avail, c0 + 1)) ==
      [after[i]] + FillUnknown(before[i + 1..], AscendingFrom(avail, c1 + 1))
    ensures FillProgress(p, after, i + 1, avail, c1)
  {
    var head := before[..i];
    var f0 := FillUnknown(before[i + 1..], AscendingFrom(avail, c1 + 1));
    assert before[i..] == p[i..];
    assert before[i + 1..] == p[i + 1..];
    assert after[i + 1..] == before[i + 1..];
    assert after[..i + 1] == head + [after[i]];
    assert FillUnknown(p, AscendingFrom(avail, 1)) == head + ([after[i]] + f0);
    AppendAssoc(head, [after[i]], f0);
  }

  /**
   * The second loop of sanitize_map: each UNKNOWN slot takes the next set
   * bit of the mask of unused default positions, or 0 once it is empty.
   */
  method FillUnknownSlots(pos: array<int>, avail: set<int>)
    requires forall q :: q in avail ==> 0 < q < MASK_BITS
    modifies pos
    ensures pos[..] == FillUnknown(old(pos[..]), AscendingFrom(avail, 1))
  {
    ghost var p := pos[..];
    var mask := avail;
    var cur := 0;
    var i := 0;
    while i < pos.Length
      invariant 0 <= i <= pos.Length && cur >= 0
      invariant MaskFrom(mask, avail, cur)
      invariant FillProgress(p, pos[..], i, avail, cur)
    {
      ghost var before := pos[..];
      ghost var c0 := cur;
      mask, cur := FillSlot(pos, i, avail, mask, cur);
      FillProgressStep(p, before, pos[..], i, avail, c0, cur);
      i := i + 1;
    }
    assert pos[..] == pos[..i];
  }

  /** sanitize_map, in place on the channel positions of a map of at most 8 channels. */
  method SanitizeMap(pos: array<int>)
    requires pos.Length <= 8
    modifies pos
    ensures pos[..] == Sanitized(old(pos[..]))
  {
    ghost var p := pos[..];
    var mask: set<int> := {};
    var dup: set<int> := {};
    var i := 0;
    while i < pos.Length
      invariant 0 <= i <= pos.Length
      invariant ScanPrefix(p, i) == Scan(pos[..], mask, dup)
    {
      if pos[i] < 0 || pos[i] > CHMAP_LAST {
        pos[i] := CHMAP_UNKNOWN;
      }
      var bit := pos[i];
      if bit in mask {
        MarkDuplicates(pos, i);
        dup := dup + {bit};
        bit := CHMAP_UNKNOWN;
      }
      mask := mask + {bit};
      i := i + 1;
    }
    if CHMAP_UNKNOWN !in mask {
      return;
    }
    FillUnknownSlots(pos, DefaultLayout(pos.Length) - (mask - dup));
  }

  // ---- what sanitize_map achieves ----

  lemma CountTwo(s: seq<int>, i: nat, j: nat)
    requires i < j < |s|
    ensures s[i] == s[j] ==> multiset(s)[s[i]] >= 2
  {
    assert s == s[..j] + s[j..];
    assert s[..j][i] == s[i];
    assert s[j..][0] == s[j];
  }

  lemma {:induction false} NoDupCount(s: seq<int>, v: int)
    requires NoDup(s)
    ensures multiset(s)[v] <= 1
  {
    if s != [] {
      assert s == [s[0]] + s[1..];
      assert NoDup(s[1..]) by {
        forall a, b | 0 <= a < b < |s[1..]|
          ensures s[1..][a] != s[1..][b]
        {
          assert s[1..][a] == s[a + 1] && s[1..][b] == s[b + 1];
        }
      }
      NoDupCount(s[1..], v);
      assert s[0] !in s[1..] by {
        forall a | 0 <= a < |s[1..]|
          ensures s[1..][a] != s[0]
        {
          assert s[1..][a] == s[a + 1];
        }
      }
    }
  }

  lemma UnknownsBeforeGrows(p: seq<int>, i: nat, j: nat)
    requires i < j <= |p| && p[i] == CHMAP_UNKNOWN
    ensures UnknownsBefore(p, i) < UnknownsBefore(p, j)
  {
    assert p[..j] == p[..i] + p[i..j];
    assert p[i..j][0] == p[i];
  }

  /** A valid map leaves the UNKNOWN bit clear, so sanitize_map returns it unchanged. */
  lemma SanitizeKeepsValidMap(p: seq<int>)
    requires |p| <= 8 && ValidMap(p)
    ensures CHMAP_UNKNOWN !in ScanPrefix(p, |p|).mask
    ensures Sanitized(p) == p
  {
    var n := |p|;
    var q := NormaliseAll(p);
    var sc := ScanPrefix(p, n);
    ScanClosedForm(p, q, n);
    assert q[..n] == q;
    assert q == p;
    forall v
      ensures multiset(p)[v] <= 1
    {
      NoDupCount(p, v);
    }
    assert multiset(p)[CHMAP_UNKNOWN] == 0;
    assert !HasRepeat(q, n);
    assert sc.pos == p;
  }

  /** The UNKNOWN bit of the whole first pass, in closed form. */
  lemma ScanUnknownBit(p: seq<int>, q: seq<int>)
    requires Normalised(p, q)
    ensures UnknownBit(q, |p|, ScanPrefix(p, |p|).mask)
  {
    ScanClosedForm(p, q, |p|);
  }

  /** An unknown or out-of-range position, or a repeated one, sets the UNKNOWN bit of the first pass. */
  lemma InvalidMapSetsUnknown(p: seq<int>)
    requires !ValidMap(p)
    ensures CHMAP_UNKNOWN in ScanPrefix(p, |p|).mask
  {
    var n := |p|;
    var q := NormaliseAll(p);
    assert q[..n] == q;
    if exists k :: 0 <= k < n && !(CHMAP_UNKNOWN < p[k] <= CHMAP_LAST) {
      var k :| 0 <= k < n && !(CHMAP_UNKNOWN < p[k] <= CHMAP_LAST);
      assert q[k] == CHMAP_UNKNOWN;
      assert multiset(q[..n])[CHMAP_UNKNOWN] >= 1;
    } else {
      assert !NoDup(p);
      var i, j :| 0 <= i < j < n && p[i] == p[j];
      CountTwo(q, i, j);
      assert multiset(q[..n])[q[i]] >= 2;
      assert HasRepeat(q, n);
    }
    ScanUnknownBit(p, q);
  }

  /** Any other map sets the UNKNOWN bit, so sanitize_map goes on to repair it. */
  lemma SanitizeRepairsInvalidMap(p: seq<int>)
    requires |p| <= 8 && !ValidMap(p)
    ensures CHMAP_UNKNOWN in ScanPrefix(p, |p|).mask
    ensures Sanitized(p) ==
      FillUnknown(ScanPrefix(p, |p|).pos,
                  AscendingFrom(DefaultLayout(|p|) - (ScanPrefix(p, |p|).mask - ScanPrefix(p, |p|).dup), 1))
  {
    InvalidMapSetsUnknown(p);
  }

  /**
   * The channels sanitize_map keeps: a channel whose position is known, in
   * range and not repeated in the map keeps it.
   */
  lemma SanitizeKeepsUniquePositions(p: seq<int>, k: nat)
    requires |p| <= 8 && k < |p|
    requires CHMAP_UNKNOWN < p[k] <= CHMAP_LAST && multiset(p)[p[k]] == 1
    ensures Sanitized(p)[k] == p[k]
  {
    var n := |p|;
    var q := NormaliseAll(p);
    var sc := ScanPrefix(p, n);
    ScanClosedForm(p, q, n);
    assert q[..n] == q;
    assert multiset(q)[p[k]] == 1 by {
      forall a | 0 <= a < n
        ensures q[a] == p[k] <==> p[a] == p[k]
      {
      }
      assert forall a :: 0 <= a < n ==> (q[a] == p[k] <==> p[a] == p[k]);
      MultisetCountAgree(p, q, p[k]);
    }
    assert sc.pos[k] == p[k];
    if CHMAP_UNKNOWN in sc.mask {
      FillUnknownAt(sc.pos, AscendingFrom(DefaultLayout(n) - (sc.mask - sc.dup), 1));
    }
  }

  lemma {:induction false} MultisetCountAgree(s: seq<int>, t: seq<int>, v: int)
    requires |s| == |t|
    requires forall a :: 0 <= a < |s| ==> (t[a] == v <==> s[a] == v)
    ensures multiset(s)[v] == multiset(t)[v]
  {
    if s != [] {
      assert s == [s[0]] + s[1..] && t == [t[0]] + t[1..];
      MultisetCountAgree(s[1..], t[1..], v);
    }
  }

  /**
   * After sanitize_map no known position appears twice: two channels share a
   * position only when both are 0.
   */
  lemma SanitizedHasNoRepeats(p: seq<int>)
    requires |p| <= 8
    ensures var r := Sanitized(p);
      forall i, j :: 0 <= i < j < |r| && r[i] == r[j] ==> r[i] == 0
  {
    var n := |p|;
    var q := NormaliseAll(p);
    var sc := ScanPrefix(p, n);
    var r := Sanitized(p);
    ScanClosedForm(p, q, n);
    assert q[..n] == q;
    if ValidMap(p) {
      SanitizeKeepsValidMap(p);
    } else {
      SanitizeRepairsInvalidMap(p);
      var keep := sc.mask - sc.dup;
      var avail := DefaultLayout(n) - keep;
      var l := AscendingFrom(avail, 1);
      FillUnknownAt(sc.pos, l);
      forall i, j | 0 <= i < j < n && r[i] != 0
        ensures r[i] != r[j]
      {
        CountTwo(q, i, j);
        if sc.pos[i] == CHMAP_UNKNOWN && sc.pos[j] == CHMAP_UNKNOWN {
          UnknownsBeforeGrows(sc.pos, i, j);
        } else if sc.pos[i] != CHMAP_UNKNOWN && sc.pos[j] == CHMAP_UNKNOWN {
          assert sc.pos[i] in keep;
        } else if sc.pos[i] == CHMAP_UNKNOWN && sc.pos[j] != CHMAP_UNKNOWN {
          assert sc.pos[j] in keep;
        }
      }
    }
  }
}
