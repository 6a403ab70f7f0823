/**
 * Types shared by the SPA plugins and the session modules: optional values,
 * port directions, the invalid id, errno values and the buffer descriptors
 * (spa_buffer / spa_data / spa_chunk / spa_meta_header) that nodes exchange.
 */
module Spa {

  datatype Option<T> = None | Some(value: T)

  datatype Direction = Input | Output

  /** SPA_ID_INVALID, the "no buffer" value of an I/O slot. */
  const ID_INVALID: nat := 0xFFFF_FFFF
  const UINT32_MAX: nat := 0xFFFF_FFFF

  // Linux errno values used by the plugins (returned negated).
  const ENOENT: int := 2
  const ESRCH: int := 3
  const EIO: int := 5
  const ENOMEM: int := 12
  const EBUSY: int := 16
  const EAGAIN: int := 11
  const EINVAL: int := 22
  const EPIPE: int := 32
  const ESTRPIPE: int := 86
  const ENOTSUP: int := 95

  /** The memory kind of a data plane (spa_data.type). */
  datatype DataType = MemPtr | MemFd | DmaBuf | OtherData

  /** spa_chunk: the valid region of a data plane. */
  datatype Chunk = Chunk(offset: nat, size: nat, stride: int)

  /**
   * spa_data: one data plane. `mapped` is false when the plane's data pointer
   * is NULL; `mem` is the plane's contents in the unit the node works in.
   */
  datatype SpaData = SpaData(kind: DataType, mapped: bool, maxsize: nat, chunk: Chunk, mem: seq<int>)

  /** spa_meta_header, the optional per-buffer header metadata. */
  datatype Header = Header(flags: nat, seqNum: nat, pts: int, dtsOffset: int)

  /** spa_buffer with its first data plane (the only one the plugins touch). */
  datatype SpaBuffer = SpaBuffer(id: nat, data: SpaData, header: Option<Header>)

  datatype MediaType = Audio | OtherMediaType
  datatype MediaSubtype = Raw | OtherMediaSubtype
  /** spa_audio_info_raw, reduced to the fields the nodes read. */
  datatype RawInfo = RawInfo(format: nat, rate: nat, channels: nat)
  /** A format given to set_format; `raw` is None when the raw-audio fields do not parse. */
  datatype Format = Format(mediaType: MediaType, mediaSubtype: MediaSubtype, raw: Option<RawInfo>)

  // SPA_STATUS_* values of an spa_io_buffers slot.
  const STATUS_OK: int := 0
  const STATUS_NEED_BUFFER: int := 1
  const STATUS_HAVE_BUFFER: int := 2

  /** spa_io_buffers: the {status, buffer_id} slot a node shares with its peer. */
  datatype IoBuffers = IoBuffers(status: int, bufferId: nat)

  function Min(a: nat, b: nat): nat { if a <= b then a else b }

  /** Element k of s, or 0 past its end. */
  function At(s: seq<int>, k: nat): int { if k < |s| then s[k] else 0 }

  /** The `count` elements of s starting at `start`, zero past its end. */
  function Window(s: seq<int>, start: nat, count: nat): (w: seq<int>)
    ensures |w| == count
  {
    seq(count, k requires 0 <= k < count => At(s, start + k))
  }

  /** 0, 1, ..., n - 1. */
  function Indices(n: nat): (s: seq<nat>)
    ensures |s| == n && forall k :: 0 <= k < n ==> s[k] == k
  {
    seq(n, k requires 0 <= k < n => k)
  }

  function Max(a: int, b: int): int { if a >= b then a else b }

  predicate NoDup<T(==)>(s: seq<T>) {
    forall i, j :: 0 <= i < j < |s| ==> s[i] != s[j]
  }

  /** Concatenation regroups freely; stated once for every module that splits a sequence. */
  lemma AppendAssoc<T>(a: seq<T>, b: seq<T>, c: seq<T>)
    ensures a + (b + c) == (a + b) + c
  {
  }
}
