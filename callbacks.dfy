/** The fifteen callback kinds of Easy, the per-kind slot that holds a client handler with its user
    data, and the static trampolines libcurl calls: each one looks at the slot of the record the
    opaque pointer designates and either forwards to the handler or returns its kind's sentinel.
    Also the lambdas the simplified registrations (onRead_, onWrite_, onHeader_, onProgress_) and
    the stream operators install, as rules for what they return. */
module Callbacks {
  import opened Curl
  import opened Outcomes
  import opened Pointers

  datatype Kind =
    | Read | Write | Header | Ioctl | Seek | FnMatch | Progress | XferInfo
    | ChunkBegin | ChunkEnd | SockOpt | OpenSocket | CloseSocket | SslContext | Debug

  /** A std::function value stored in a slot. Empty is the default-constructed function, the one
      `if( ev.handler )` finds false. */
  datatype Handler =
    | Empty
      /** a callable supplied by the client through onX */
    | Client(id: nat)
      /** the lambdas onRead_, onWrite_/onHeader_ and onProgress_ wrap around a client's
          simplified callable */
    | ReadAdapter(f: nat)
    | WriteAdapter(f: nat)
    | ProgressAdapter(f: nat)
      /** the lambdas `operator <<` (istream) and `operator >>` (ostream) install */
    | StreamReader(stream: nat)
    | StreamWriter(stream: nat)

  /** Event<H>: a handler and the user data passed back to it; default-constructed it is empty
      with a null data pointer. */
  datatype Slot = Slot(handler: Handler, data: Ptr)

  const EmptySlot: Slot := Slot(Empty, Null)

  /** What a trampoline returns when the opaque pointer is null or no handler is stored. */
  function Sentinel(k: Kind): int {
    match k
    case Read => READFUNC_ABORT
    case Write => 0
    case Header => 0
    case FnMatch => FNMATCHFUNC_FAIL
    case Seek => 1
    case Ioctl => IOE_UNKNOWNCMD
    case Progress => 1
    case XferInfo => 1
    case ChunkBegin => CHUNK_BGN_FUNC_FAIL
    case ChunkEnd => CHUNK_END_FUNC_FAIL
    case OpenSocket => SOCKET_BAD
    case CloseSocket => 1
    case SockOpt => 1
    case SslContext => ABORTED_BY_CALLBACK
    case Debug => 0
  }

  /** The call a trampoline makes: the stored handler, the slot's user data, and, for the kinds
      whose handler signature has a CURL* parameter (ioctl, sslContext, debug), the handle it is
      given. */
  datatype Call = Call(handler: Handler, data: Ptr, handle: Ptr)

  /** What the trampoline returns: whatever the handler returned, or a fixed value. */
  datatype Ret = Forwarded | Fixed(code: int)

  datatype Dispatch = Dispatch(call: Option<Call>, ret: Ret)

  /** The trampoline of kind k. `record` is None when libcurl passed a null opaque pointer, and
      otherwise the slot of kind k in the record it designates; `curl` is the CURL* libcurl
      passes to the kinds that receive one. */
  function Trampoline(k: Kind, record: Option<Slot>, curl: Ptr): (d: Dispatch)
    ensures d.call.Some? <==> record.Some? && record.value.handler != Empty
    ensures d.call.Some? ==>
              d.call.value.handler == record.value.handler && d.call.value.data == record.value.data
    ensures k != Debug ==> d.ret == (if d.call.Some? then Forwarded else Fixed(Sentinel(k)))
    ensures k == Debug ==> d.ret == Fixed(0)
    ensures d.call.Some? && (k == Ioctl || k == SslContext) ==> d.call.value.handle == curl
    ensures d.call.Some? && k == Debug ==> d.call.value.handle == Null
  {
    match record
    case Some(ev) =>
      if ev.handler == Empty then
        Dispatch(None, Fixed(Sentinel(k)))
      else
        (match k
         case Ioctl => Dispatch(Some(Call(ev.handler, ev.data, curl)), Forwarded)
         case SslContext => Dispatch(Some(Call(ev.handler, ev.data, curl)), Forwarded)
         // the debug trampoline hands the handler nullptr instead of its CURL* and ignores the result
         case Debug => Dispatch(Some(Call(ev.handler, ev.data, Null)), Fixed(0))
         case _ => Dispatch(Some(Call(ev.handler, ev.data, Null)), Forwarded))
    case None => Dispatch(None, Fixed(Sentinel(k)))
  }

  /** The value the trampoline hands back to libcurl, given what the handler returned. */
  function ReturnValue(d: Dispatch, handlerResult: int): int {
    match d.ret
    case Forwarded => handlerResult
    case Fixed(c) => c
  }

  /** What libcurl receives from the trampoline of kind k: the handler's own result when the
      record holds a handler, the kind's sentinel when it holds none; the debug trampoline gives
      0 whatever its handler returned. */
  lemma TrampolineReturns(k: Kind, record: Option<Slot>, curl: Ptr, handlerResult: int)
    ensures k != Debug ==>
      ReturnValue(Trampoline(k, record, curl), handlerResult) ==
        (if record.Some? && record.value.handler != Empty then handlerResult else Sentinel(k))
    ensures k == Debug ==> ReturnValue(Trampoline(k, record, curl), handlerResult) == 0
  {
  }

  // -- how libcurl reads a callback's return value

  /** The product `size * n` as a size_t. */
  function Bytes(size: nat, n: nat): nat {
    (size * n) % SIZE_MODULUS
  }

  /** A write or header callback must return the number of bytes it was given; anything else
      makes libcurl stop the transfer with a write error. */
  predicate WriteAccepted(ret: int, given: nat) {
    ret == given
  }

  /** A read callback that returns READFUNC_ABORT stops the transfer. */
  predicate ReadAborted(ret: int) {
    ret == READFUNC_ABORT
  }

  /** A progress or xferinfo callback that returns non-zero stops the transfer. */
  predicate ProgressAborted(ret: int) {
    ret != 0
  }

  // -- the lambdas the simplified registrations install

  /** onRead_'s wrapper: the full buffer if the simplified handler says true, else abort. */
  function ReadAdapterReturn(ok: bool, size: nat, n: nat): (r: int)
    ensures Bytes(size, n) < READFUNC_ABORT ==> (ReadAborted(r) <==> !ok)
    ensures ok ==> r == Bytes(size, n)
  {
    if ok then Bytes(size, n) else READFUNC_ABORT
  }

  /** onWrite_'s and onHeader_'s wrapper: the full buffer if the simplified handler says true,
      else zero bytes. */
  function WriteAdapterReturn(ok: bool, size: nat, n: nat): (r: int)
    ensures WriteAccepted(r, Bytes(size, n)) <==> ok || Bytes(size, n) == 0
    ensures 0 <= r
  {
    if ok then Bytes(size, n) else 0
  }

  /** onProgress_'s wrapper: `!f(...)`, so true continues the transfer and false stops it. */
  function ProgressAdapterReturn(ok: bool): (r: int)
    ensures ProgressAborted(r) <==> !ok
    ensures r == 0 || r == 1
  {
    if ok then 0 else 1
  }

  /** The writer `operator >>` installs: the full buffer while the stream is good, else zero. */
  function StreamWriterReturn(good: bool, size: nat, n: nat): (r: int)
    ensures WriteAccepted(r, Bytes(size, n)) <==> good || Bytes(size, n) == 0
  {
    if good then Bytes(size, n) else 0
  }

  /** The reader `operator <<` installs returns how many bytes the stream delivered, which is at
      most what libcurl asked for; it cannot abort while that buffer is shorter than
      READFUNC_ABORT. */
  function StreamReaderReturn(gcount: nat, size: nat, n: nat): (r: int)
    requires gcount <= Bytes(size, n)
    ensures r == gcount
    ensures 0 <= r <= Bytes(size, n)
    ensures Bytes(size, n) < READFUNC_ABORT ==> !ReadAborted(r)
  {
    gcount
  }
}
