/** Easy's private state record (Easy::Pimpl) and what each operation of Easy does to it, as
    functions from the record before to the record after and the way the operation ends. The
    class Easy (easy.dfy) carries out the same operations in place and is proved against these.

    libcurl is an oracle here: `lib(key, value)` is the status curl_easy_setopt returns for a call,
    and the other native calls receive their status as a parameter. */
module EasyState {
  import opened Curl
  import opened Outcomes
  import opened Pointers
  import opened Callbacks
  import opened OptionTypes

  /** A native CURL session and its option table as the binding has written it: each key maps to
      the last value handed to curl_easy_setopt for it, and a key that is absent holds libcurl's
      default. */
  datatype Handle = Handle(id: nat, opts: map<int, Arg>)

  /** Easy::Pimpl. `addr` is the record's own address: the trampolines receive it back from
      libcurl as their opaque pointer. */
  datatype State = State(
    addr: nat,
    curl: Option<Handle>,
    err: int,
    throwExceptions: bool,
    userData: Ptr,
    slots: map<Kind, Slot>)

  /** The slot of kind k; a kind the map does not hold still has its default-constructed slot. */
  function SlotOf(s: State, k: Kind): Slot {
    if k in s.slots then s.slots[k] else EmptySlot
  }

  /** Pimpl(): no handle, no error, exceptions on, no user data and every slot empty. */
  function NewState(addr: nat): (s: State)
    ensures s.curl.None? && s.err == OK && s.throwExceptions && s.userData == Null
    ensures forall k :: SlotOf(s, k) == EmptySlot
  {
    State(addr, None, OK, true, Null, map[])
  }

  /** A record after an operation, and how the operation ended. */
  datatype Step<+T> = Step(s: State, out: Outcome<T>)

  type SetOracle = (int, Arg) -> int

  /** Easy::handleError: the code becomes the last error; the operation reports success as a
      boolean, or raises when the code is a failure and exception mode is on. */
  function HandleErrorStep(s: State, code: int): (r: Step<bool>)
    ensures r.s == s.(err := code)
    ensures r.out.Raised? <==> code != OK && s.throwExceptions
    ensures r.out.Raised? ==> r.out.failure == CurlError(code)
    ensures r.out.Returned? ==> (r.out.value <==> code == OK)
  {
    var s' := s.(err := code);
    if s'.err != OK && s'.throwExceptions then
      Step(s', Raised(CurlError(s'.err)))
    else
      Step(s', Returned(s'.err == OK))
  }

  /** The status curl_easy_setopt returns: BAD_FUNCTION_ARGUMENT for a null handle, libcurl's
      answer otherwise. */
  function SetoptStatus(curl: Option<Handle>, key: int, a: Arg, lib: SetOracle): int {
    if curl.None? then BAD_FUNCTION_ARGUMENT else lib(key, a)
  }

  /** What curl_easy_setopt leaves in the handle's table: the value when libcurl accepted it (status
      `code`), the table as it was when libcurl refused it. Without a handle there is no table. */
  function Recorded(curl: Option<Handle>, key: int, a: Arg, code: int): Option<Handle> {
    match curl
    case None => None
    case Some(h) => Some(if code == OK then h.(opts := h.opts[key := a]) else h)
  }

  /** Easy::set<ValueType>: check the value's category against the key's; on a mismatch record
      BAD_FUNCTION_ARGUMENT without calling libcurl, otherwise call the native setter, which keeps
      the value only when it accepts it, and record its status; then report through handleError. The check is the corrected one, which also
      lets a curl_off_t value through for an OFF_T key where curl_off_t is long (see
      OptionTypes.OffValueRefusedWhenLong for the check as written). */
  function SetStep(s: State, key: int, a: Arg, lib: SetOracle, offIsLong: bool): (r: Step<bool>)
    ensures !AdmitsCorrected(key, CategoryOf(a, offIsLong), offIsLong) ==> r.s.curl == s.curl && r.s.err == BAD_FUNCTION_ARGUMENT
    ensures AdmitsCorrected(key, CategoryOf(a, offIsLong), offIsLong) ==>
              r.s.err == if s.curl.Some? then lib(key, a) else BAD_FUNCTION_ARGUMENT
    ensures AdmitsCorrected(key, CategoryOf(a, offIsLong), offIsLong) && s.curl.Some? ==>
              r.s.curl.Some? && r.s.curl.value.id == s.curl.value.id
              && r.s.curl.value.opts == if lib(key, a) == OK then s.curl.value.opts[key := a] else s.curl.value.opts
    ensures s.curl.None? ==> r.s.curl.None?
    ensures r.s == s.(curl := r.s.curl, err := r.s.err)
    ensures r.out.Raised? <==> r.s.err != OK && s.throwExceptions
    ensures r.out.Raised? ==> r.out.failure == CurlError(r.s.err)
    ensures r.out.Returned? ==> (r.out.value <==> r.s.err == OK)
  {
    if !AdmitsCorrected(key, CategoryOf(a, offIsLong), offIsLong) then
      HandleErrorStep(s, BAD_FUNCTION_ARGUMENT)
    else
      var code := SetoptStatus(s.curl, key, a, lib);
      HandleErrorStep(s.(curl := Recorded(s.curl, key, a, code)), code)
  }

  /** set after a step that may have raised; the sequence keeps the first exception. */
  function ThenSet(st: Step<()>, key: int, a: Arg, lib: SetOracle, offIsLong: bool): (r: Step<()>)
    ensures st.out.Raised? ==> r == st
    ensures st.out.Returned? ==> r.s == SetStep(st.s, key, a, lib, offIsLong).s
    ensures st.out.Returned? ==> (r.out.Raised? <==> SetStep(st.s, key, a, lib, offIsLong).out.Raised?)
    ensures r.out.Raised? && st.out.Returned? ==> r.out.failure == CurlError(r.s.err)
  {
    if st.out.Raised? then st
    else
      var x := SetStep(st.s, key, a, lib, offIsLong);
      Step(x.s, if x.out.Raised? then Raised(x.out.failure) else Returned(()))
  }

  /** One curl_easy_setopt call a registration makes. */
  datatype Setting = Setting(key: int, value: Arg)

  /** The FUNCTION option of each callback kind. */
  function FunctionOption(k: Kind): int {
    match k
    case Read => OPT_READFUNCTION
    case Write => OPT_WRITEFUNCTION
    case Header => OPT_HEADERFUNCTION
    case Ioctl => OPT_IOCTLFUNCTION
    case Seek => OPT_SEEKFUNCTION
    case FnMatch => OPT_FNMATCH_FUNCTION
    case Progress => OPT_PROGRESSFUNCTION
    case XferInfo => OPT_XFERINFOFUNCTION
    case ChunkBegin => OPT_CHUNK_BGN_FUNCTION
    case ChunkEnd => OPT_CHUNK_END_FUNCTION
    case SockOpt => OPT_SOCKOPTFUNCTION
    case OpenSocket => OPT_OPENSOCKETFUNCTION
    case CloseSocket => OPT_CLOSESOCKETFUNCTION
    case SslContext => OPT_SSL_CTX_FUNCTION
    case Debug => OPT_DEBUGFUNCTION
  }

  /** The DATA option of each callback kind. The two chunk kinds share CURLOPT_CHUNK_DATA, and
      xferInfo's CURLOPT_XFERINFODATA is curl.h's alias of CURLOPT_PROGRESSDATA. */
  function DataOption(k: Kind): int {
    match k
    case Read => OPT_READDATA
    case Write => OPT_WRITEDATA
    case Header => OPT_HEADERDATA
    case Ioctl => OPT_IOCTLDATA
    case Seek => OPT_SEEKDATA
    case FnMatch => OPT_FNMATCH_DATA
    case Progress => OPT_PROGRESSDATA
    case XferInfo => OPT_PROGRESSDATA
    case ChunkBegin => OPT_CHUNK_DATA
    case ChunkEnd => OPT_CHUNK_DATA
    case SockOpt => OPT_SOCKOPTDATA
    case OpenSocket => OPT_OPENSOCKETDATA
    case CloseSocket => OPT_CLOSESOCKETDATA
    case SslContext => OPT_SSL_CTX_DATA
    case Debug => OPT_DEBUGDATA
  }

  /** The FUNCTION option of every kind is a FUNCTIONPOINT key and its DATA option an
      OBJECTPOINT key, so the values a registration passes always pass set's check. */
  lemma RegistrationKeysAdmitted(k: Kind, offIsLong: bool, f: Callee, p: Ptr)
    ensures Admits(FunctionOption(k), CategoryOf(FunctionArg(f), offIsLong))
    ensures Admits(DataOption(k), CategoryOf(PointerArg(p), offIsLong))
    ensures FunctionOption(k) != DataOption(k)
  {
    AdmitsExactly(FunctionOption(k), FunPtr);
    AdmitsExactly(DataOption(k), ObjPtr);
  }

  /** The setopt calls onX makes, in order: the FUNCTION option (the trampoline, or a null
      function pointer when the handler is empty), the DATA option (the record, or a null void*),
      and for progress and xferInfo NOPROGRESS = (handler is empty), for debug
      VERBOSE = (handler is set). */
  function RegistrationCalls(k: Kind, install: bool, addr: nat): (calls: seq<Setting>)
    ensures |calls| == (if k == Progress || k == XferInfo || k == Debug then 3 else 2)
  {
    var function_ := Setting(FunctionOption(k), FunctionArg(if install then TrampolineOf(k) else NoFunction));
    var data := Setting(DataOption(k), PointerArg(if install then Record(addr) else Null));
    match k
    case Progress => [function_, data, Setting(OPT_NOPROGRESS, FromBool(!install))]
    case XferInfo => [function_, data, Setting(OPT_NOPROGRESS, FromBool(!install))]
    case Debug => [function_, data, Setting(OPT_VERBOSE, FromBool(install))]
    case _ => [function_, data]
  }

  predicate AllAdmitted(calls: seq<Setting>, offIsLong: bool) {
    forall i :: 0 <= i < |calls| ==> Admits(calls[i].key, CategoryOf(calls[i].value, offIsLong))
  }

  /** Every call a registration makes passes set's check. */
  lemma RegistrationCallsAdmitted(k: Kind, install: bool, addr: nat, offIsLong: bool)
    ensures AllAdmitted(RegistrationCalls(k, install, addr), offIsLong)
  {
    var calls := RegistrationCalls(k, install, addr);
    RegistrationKeysAdmitted(k, offIsLong, calls[0].value.f, calls[1].value.p);
    AdmitsExactly(OPT_NOPROGRESS, Long);
    AdmitsExactly(OPT_VERBOSE, Long);
  }

  /** The calls, made one after another through set; a call that raises ends the sequence. */
  function SetAll(s: State, calls: seq<Setting>, lib: SetOracle, offIsLong: bool): Step<()>
    decreases |calls|
  {
    if calls == [] then
      Step(s, Returned(()))
    else
      var st := SetStep(s, calls[0].key, calls[0].value, lib, offIsLong);
      if st.out.Raised? then Step(st.s, Raised(st.out.failure)) else SetAll(st.s, calls[1..], lib, offIsLong)
  }

  /** The first call of a sequence, and the sequence that follows it. */
  lemma SetAllFirst(s: State, calls: seq<Setting>, lib: SetOracle, offIsLong: bool)
    requires calls != []
    ensures var st := SetStep(s, calls[0].key, calls[0].value, lib, offIsLong);
      SetAll(s, calls, lib, offIsLong) == if st.out.Raised? then Step(st.s, Raised(st.out.failure)) else SetAll(st.s, calls[1..], lib, offIsLong)
  {
  }

  /** The option table after the calls, in order: each value libcurl accepts replaces the entry
      of its key, a refused one leaves the table alone. */
  function Applied(opts: map<int, Arg>, calls: seq<Setting>, lib: SetOracle): map<int, Arg>
    decreases |calls|
  {
    if calls == [] then opts
    else
      var c := calls[0];
      Applied(if lib(c.key, c.value) == OK then opts[c.key := c.value] else opts, calls[1..], lib)
  }

  /** libcurl accepts every one of the calls. */
  predicate Accepts(lib: SetOracle, calls: seq<Setting>) {
    forall i :: 0 <= i < |calls| ==> lib(calls[i].key, calls[i].value) == OK
  }

  /** The entry of a key in a table, None when it holds libcurl's default. */
  function Entry(opts: map<int, Arg>, key: int): Option<Arg> {
    if key in opts then Some(opts[key]) else None
  }

  /** A key none of the calls names keeps its entry. */
  lemma {:induction false} AppliedElsewhere(opts: map<int, Arg>, calls: seq<Setting>, lib: SetOracle, key: int)
    requires forall i :: 0 <= i < |calls| ==> calls[i].key != key
    ensures Entry(Applied(opts, calls, lib), key) == Entry(opts, key)
    decreases |calls|
  {
    if calls != [] {
      var c := calls[0];
      var next := if lib(c.key, c.value) == OK then opts[c.key := c.value] else opts;
      forall i | 0 <= i < |calls[1..]| ensures calls[1..][i].key != key {
        assert calls[1..][i] == calls[i + 1];
      }
      AppliedElsewhere(next, calls[1..], lib, key);
    }
  }

  /** set only ever touches the handle and the last error. */
  lemma {:induction false} SetAllFrame(s: State, calls: seq<Setting>, lib: SetOracle, offIsLong: bool)
    ensures var r := SetAll(s, calls, lib, offIsLong);
      && r.s == s.(curl := r.s.curl, err := r.s.err)
      && (r.s.curl.Some? <==> s.curl.Some?)
      && (s.curl.Some? ==> r.s.curl.value.id == s.curl.value.id)
    decreases |calls|
  {
    if calls != [] {
      var st := SetStep(s, calls[0].key, calls[0].value, lib, offIsLong);
      if st.out.Returned? {
        SetAllFrame(st.s, calls[1..], lib, offIsLong);
      }
    }
  }

  /** When every call passes the check and the sequence runs to its end, the table holds every
      value libcurl accepted, in order, and the last error is the last call's status
      (BAD_FUNCTION_ARGUMENT without a handle). */
  lemma {:induction false} SetAllApplied(s: State, calls: seq<Setting>, lib: SetOracle, offIsLong: bool)
    requires AllAdmitted(calls, offIsLong)
    ensures var r := SetAll(s, calls, lib, offIsLong);
      r.out.Returned? ==>
        && (s.curl.Some? ==> r.s.curl.Some? && r.s.curl.value.opts == Applied(s.curl.value.opts, calls, lib))
        && (calls != [] && s.curl.Some? ==> r.s.err == lib(calls[|calls| - 1].key, calls[|calls| - 1].value))
        && (calls != [] && s.curl.None? ==> r.s.err == BAD_FUNCTION_ARGUMENT)
        && (calls == [] ==> r.s.err == s.err)
    decreases |calls|
  {
    if calls != [] {
      var st := SetStep(s, calls[0].key, calls[0].value, lib, offIsLong);
      assert Admits(calls[0].key, CategoryOf(calls[0].value, offIsLong));
      var rest := calls[1..];
      assert AllAdmitted(rest, offIsLong) by {
        forall i | 0 <= i < |rest| ensures Admits(rest[i].key, CategoryOf(rest[i].value, offIsLong)) {
          assert rest[i] == calls[i + 1];
        }
      }
      SetAllApplied(st.s, rest, lib, offIsLong);
      if rest != [] {
        assert rest[|rest| - 1] == calls[|calls| - 1];
      }
    }
  }

  /** set raises only for a status that is not OK in exception mode (a refused value counts as
      such a status), so when exception mode is off, or there is a handle, libcurl accepts every
      call and every call passes the check, the sequence runs to its end. */
  lemma {:induction false} SetAllReturns(s: State, calls: seq<Setting>, lib: SetOracle, offIsLong: bool)
    requires !s.throwExceptions || (s.curl.Some? && AllAdmitted(calls, offIsLong) && Accepts(lib, calls))
    ensures SetAll(s, calls, lib, offIsLong).out.Returned?
    decreases |calls|
  {
    if calls != [] {
      var st := SetStep(s, calls[0].key, calls[0].value, lib, offIsLong);
      var rest := calls[1..];
      if st.s.throwExceptions {
        assert Admits(calls[0].key, CategoryOf(calls[0].value, offIsLong));
        forall i | 0 <= i < |rest| ensures Admits(rest[i].key, CategoryOf(rest[i].value, offIsLong)) && lib(rest[i].key, rest[i].value) == OK {
          assert rest[i] == calls[i + 1];
        }
      }
      SetAllReturns(st.s, rest, lib, offIsLong);
    }
  }

  // -- registration of handlers (onX)

  /** Easy::onX(f, data): store (f, data) in the slot first, then make the registration's setopt
      calls through set. */
  function RegisterStep(s: State, k: Kind, h: Handler, data: Ptr, lib: SetOracle, offIsLong: bool): Step<()> {
    var stored := s.(slots := s.slots[k := Slot(h, data)]);
    SetAll(stored, RegistrationCalls(k, h != Empty, s.addr), lib, offIsLong)
  }

  /** The slot receives (f, data) whatever the setopt calls do afterwards, and nothing but the
      slot, the handle's table and the last error changes. */
  lemma RegisterStoresSlot(s: State, k: Kind, h: Handler, data: Ptr, lib: SetOracle, offIsLong: bool)
    ensures var r := RegisterStep(s, k, h, data, lib, offIsLong);
      && SlotOf(r.s, k) == Slot(h, data)
      && (forall j :: j != k ==> SlotOf(r.s, j) == SlotOf(s, j))
      && r.s.addr == s.addr && r.s.throwExceptions == s.throwExceptions && r.s.userData == s.userData
      && (r.s.curl.Some? <==> s.curl.Some?)
      && (s.curl.Some? ==> r.s.curl.value.id == s.curl.value.id)
  {
    var stored := s.(slots := s.slots[k := Slot(h, data)]);
    SetAllFrame(stored, RegistrationCalls(k, h != Empty, s.addr), lib, offIsLong);
  }

  /** The table a completed registration leaves: the FUNCTION and DATA options of the kind point
      at the trampoline and the record when the handler is set and are null when it is empty;
      NOPROGRESS and VERBOSE follow for progress, xferInfo and debug. */
  function RegisteredTable(opts: map<int, Arg>, k: Kind, install: bool, addr: nat): map<int, Arg> {
    var t := opts[FunctionOption(k) := FunctionArg(if install then TrampolineOf(k) else NoFunction)]
                 [DataOption(k) := PointerArg(if install then Record(addr) else Null)];
    match k
    case Progress => t[OPT_NOPROGRESS := FromBool(!install)]
    case XferInfo => t[OPT_NOPROGRESS := FromBool(!install)]
    case Debug => t[OPT_VERBOSE := FromBool(install)]
    case _ => t
  }

  /** When libcurl accepts a registration's calls, they leave the registered table. */
  lemma AppliedRegistration(opts: map<int, Arg>, k: Kind, install: bool, addr: nat, lib: SetOracle)
    requires Accepts(lib, RegistrationCalls(k, install, addr))
    ensures Applied(opts, RegistrationCalls(k, install, addr), lib) == RegisteredTable(opts, k, install, addr)
  {
    var calls := RegistrationCalls(k, install, addr);
    assert lib(calls[0].key, calls[0].value) == OK && lib(calls[1].key, calls[1].value) == OK;
    var o1 := opts[calls[0].key := calls[0].value];
    var o2 := o1[calls[1].key := calls[1].value];
    assert Applied(opts, calls, lib) == Applied(o1, calls[1..], lib);
    assert Applied(o1, calls[1..], lib) == Applied(o2, calls[2..], lib);
    if |calls| == 3 {
      assert lib(calls[2].key, calls[2].value) == OK;
      assert Applied(o2, calls[2..], lib) == Applied(o2[calls[2].key := calls[2].value], calls[3..], lib);
    }
  }

  /** The FUNCTION option a registration sets: the trampoline, or a null function pointer for the
      empty handler. */
  function RegisteredFunction(k: Kind, h: Handler): Arg {
    FunctionArg(if h != Empty then TrampolineOf(k) else NoFunction)
  }

  /** Whatever libcurl answers, a registration that returns leaves the kind's FUNCTION option as
      libcurl's answer to it says: the new function pointer when accepted, the old entry when
      refused. */
  lemma RegisterFunctionEntry(s: State, k: Kind, h: Handler, data: Ptr, lib: SetOracle, offIsLong: bool)
    requires s.curl.Some?
    ensures var r := RegisterStep(s, k, h, data, lib, offIsLong);
      r.out.Returned? ==>
        && r.s.curl.Some?
        && Entry(r.s.curl.value.opts, FunctionOption(k)) ==
             if lib(FunctionOption(k), RegisteredFunction(k, h)) == OK then Some(RegisteredFunction(k, h))
             else Entry(s.curl.value.opts, FunctionOption(k))
  {
    var calls := RegistrationCalls(k, h != Empty, s.addr);
    var stored := s.(slots := s.slots[k := Slot(h, data)]);
    RegistrationCallsAdmitted(k, h != Empty, s.addr, offIsLong);
    SetAllApplied(stored, calls, lib, offIsLong);
    OptionRanges(k);
    var opts := s.curl.value.opts;
    var next := if lib(calls[0].key, calls[0].value) == OK then opts[calls[0].key := calls[0].value] else opts;
    assert Applied(opts, calls, lib) == Applied(next, calls[1..], lib);
    forall i | 0 <= i < |calls[1..]| ensures calls[1..][i].key != FunctionOption(k) {
      assert calls[1..][i] == calls[i + 1];
    }
    AppliedElsewhere(next, calls[1..], lib, FunctionOption(k));
  }

  /** A registration that returns has made all its calls: the table holds the values libcurl
      accepted, which is the registered table when it accepted them all, and the last error is the
      status of its last call. */
  lemma RegisterApplied(s: State, k: Kind, h: Handler, data: Ptr, lib: SetOracle, offIsLong: bool)
    ensures var r := RegisterStep(s, k, h, data, lib, offIsLong);
      var calls := RegistrationCalls(k, h != Empty, s.addr);
      r.out.Returned? ==>
        && (s.curl.Some? ==>
              && r.s.curl.Some?
              && r.s.curl.value.opts == Applied(s.curl.value.opts, calls, lib)
              && (Accepts(lib, calls) ==> r.s.curl.value.opts == RegisteredTable(s.curl.value.opts, k, h != Empty, s.addr))
              && r.s.err == lib(calls[|calls| - 1].key, calls[|calls| - 1].value))
        && (s.curl.None? ==> r.s.err == BAD_FUNCTION_ARGUMENT)
  {
    var calls := RegistrationCalls(k, h != Empty, s.addr);
    var stored := s.(slots := s.slots[k := Slot(h, data)]);
    RegistrationCallsAdmitted(k, h != Empty, s.addr, offIsLong);
    SetAllApplied(stored, calls, lib, offIsLong);
    if s.curl.Some? && Accepts(lib, calls) {
      AppliedRegistration(s.curl.value.opts, k, h != Empty, s.addr, lib);
    }
  }

  /** When exception mode is off, or there is a handle and libcurl accepts every call, onX
      completes; in exception mode the last error is then OK, and when libcurl accepts every call
      the table is the registered one. */
  lemma RegisterCompletes(s: State, k: Kind, h: Handler, data: Ptr, lib: SetOracle, offIsLong: bool)
    requires !s.throwExceptions || (s.curl.Some? && forall key, a :: lib(key, a) == OK)
    ensures var r := RegisterStep(s, k, h, data, lib, offIsLong);
      && r.out.Returned?
      && (s.curl.Some? && (forall key, a :: lib(key, a) == OK) ==>
            r.s.curl.Some? && r.s.curl.value.opts == RegisteredTable(s.curl.value.opts, k, h != Empty, s.addr))
      && (s.throwExceptions ==> r.s.err == OK)
  {
    var stored := s.(slots := s.slots[k := Slot(h, data)]);
    RegistrationCallsAdmitted(k, h != Empty, s.addr, offIsLong);
    SetAllReturns(stored, RegistrationCalls(k, h != Empty, s.addr), lib, offIsLong);
    RegisterApplied(s, k, h, data, lib, offIsLong);
  }

  // -- libcurl calling back

  /** What happens when libcurl calls the function installed for kind k on this record's handle:
      no trampoline of kind k is installed, or the trampoline runs with the DATA option as its
      opaque pointer (null, or this record). Any other opaque pointer would be misread as a
      record, which C++ leaves undefined. */
  datatype Invocation = NotInstalled | Undefined | Dispatched(d: Dispatch)

  function Invoke(s: State, k: Kind): Invocation
    requires s.curl.Some?
  {
    var opts := s.curl.value.opts;
    var curl := Session(s.curl.value.id);
    if FunctionOption(k) !in opts || opts[FunctionOption(k)] != FunctionArg(TrampolineOf(k)) then
      NotInstalled
    else if DataOption(k) in opts && opts[DataOption(k)] in {NullArg, PointerArg(Null)} then
      Dispatched(Trampoline(k, None, curl))
    else if DataOption(k) in opts && opts[DataOption(k)] == PointerArg(Record(s.addr)) then
      Dispatched(Trampoline(k, Some(SlotOf(s, k)), curl))
    else
      Undefined
  }

  /** After a registration of a handler whose calls libcurl accepts, libcurl's call reaches the
      trampoline with the record, which calls the handler with the slot's data; after a registration of the empty
      handler no trampoline is installed. */
  lemma RegisterThenInvoke(s: State, k: Kind, h: Handler, data: Ptr, lib: SetOracle, offIsLong: bool)
    requires s.curl.Some?
    requires forall key, a :: lib(key, a) == OK
    ensures var r := RegisterStep(s, k, h, data, lib, offIsLong);
      && r.s.curl.Some?
      && (h != Empty ==>
            Invoke(r.s, k).Dispatched?
            && Invoke(r.s, k).d.call == Some(Call(h, data, if k in {Ioctl, SslContext} then Session(s.curl.value.id) else Null))
            && Invoke(r.s, k).d.ret == (if k == Debug then Fixed(0) else Forwarded))
      && (h == Empty ==> Invoke(r.s, k) == NotInstalled)
  {
    RegisterCompletes(s, k, h, data, lib, offIsLong);
    RegisterStoresSlot(s, k, h, data, lib, offIsLong);
    RegistrationKeysAdmitted(k, offIsLong, NoFunction, Null);
  }

  /** onChunkBegin and onChunkEnd share CURLOPT_CHUNK_DATA: clearing the chunk-end handler nulls
      the opaque pointer, so the chunk-begin trampoline, still installed and with its handler
      still stored, fails every chunk (when libcurl accepts the calls). */
  lemma ChunkEndClearStopsChunkBegin(s: State, h: Handler, data: Ptr, lib: SetOracle, offIsLong: bool)
    requires s.curl.Some? && h != Empty
    requires forall key, a :: lib(key, a) == OK
    ensures var s1 := RegisterStep(s, ChunkBegin, h, data, lib, offIsLong).s;
            var s2 := RegisterStep(s1, ChunkEnd, Empty, Null, lib, offIsLong).s;
      && s2.curl.Some?
      && SlotOf(s2, ChunkBegin) == Slot(h, data)
      && Invoke(s2, ChunkBegin) == Dispatched(Dispatch(None, Fixed(CHUNK_BGN_FUNC_FAIL)))
  {
    var s1 := RegisterStep(s, ChunkBegin, h, data, lib, offIsLong).s;
    RegisterCompletes(s, ChunkBegin, h, data, lib, offIsLong);
    RegisterStoresSlot(s, ChunkBegin, h, data, lib, offIsLong);
    RegisterCompletes(s1, ChunkEnd, Empty, Null, lib, offIsLong);
    RegisterStoresSlot(s1, ChunkEnd, Empty, Null, lib, offIsLong);
  }

  /** The same sharing between progress and xferInfo (CURLOPT_XFERINFODATA is an alias of
      CURLOPT_PROGRESSDATA): clearing the progress handler nulls the xferInfo trampoline's opaque
      pointer and switches progress reporting off, although the xferInfo handler stays stored
      (when libcurl accepts the calls). */
  lemma ProgressClearStopsXferInfo(s: State, h: Handler, data: Ptr, lib: SetOracle, offIsLong: bool)
    requires s.curl.Some? && h != Empty
    requires forall key, a :: lib(key, a) == OK
    ensures var s1 := RegisterStep(s, XferInfo, h, data, lib, offIsLong).s;
            var s2 := RegisterStep(s1, Progress, Empty, Null, lib, offIsLong).s;
      && s2.curl.Some?
      && SlotOf(s2, XferInfo) == Slot(h, data)
      && OPT_NOPROGRESS in s2.curl.value.opts && s2.curl.value.opts[OPT_NOPROGRESS] == LongArg(1)
      && Invoke(s2, XferInfo) == Dispatched(Dispatch(None, Fixed(1)))
  {
    var s1 := RegisterStep(s, XferInfo, h, data, lib, offIsLong).s;
    RegisterCompletes(s, XferInfo, h, data, lib, offIsLong);
    RegisterStoresSlot(s, XferInfo, h, data, lib, offIsLong);
    RegisterCompletes(s1, Progress, Empty, Null, lib, offIsLong);
    RegisterStoresSlot(s1, Progress, Empty, Null, lib, offIsLong);
  }

  // -- the simplified registrations (onRead_, onWrite_, onHeader_, onProgress_)

  datatype SimpleKind = SimpleRead | SimpleWrite | SimpleHeader | SimpleProgress

  /** The slot each simplified registration fills: onProgress_ installs into xferInfo's. */
  function SimpleSlot(sk: SimpleKind): Kind {
    match sk
    case SimpleRead => Read
    case SimpleWrite => Write
    case SimpleHeader => Header
    case SimpleProgress => XferInfo
  }

  /** The handler a simplified registration passes on: the wrapper lambda around a non-empty
      callable, the empty handler for an empty one. */
  function SimpleHandler(sk: SimpleKind, f: Option<nat>): (h: Handler)
    ensures h == Empty <==> f.None?
    ensures f.Some? ==> h == match sk
                             case SimpleRead => ReadAdapter(f.value)
                             case SimpleWrite => WriteAdapter(f.value)
                             case SimpleHeader => WriteAdapter(f.value)
                             case SimpleProgress => ProgressAdapter(f.value)
  {
    match f
    case None => Empty
    case Some(g) =>
      match sk
      case SimpleRead => ReadAdapter(g)
      case SimpleWrite => WriteAdapter(g)
      case SimpleHeader => WriteAdapter(g)
      case SimpleProgress => ProgressAdapter(g)
  }

  function RegisterSimpleStep(s: State, sk: SimpleKind, f: Option<nat>, lib: SetOracle, offIsLong: bool): Step<()> {
    RegisterStep(s, SimpleSlot(sk), SimpleHandler(sk, f), Null, lib, offIsLong)
  }

  // -- reset

  /** The handlers reset clears, in the order it clears them. */
  const ResetKinds: seq<Kind> := [Read, Write, Header, Progress, Debug]

  /** onX() with the empty handler for each kind in turn; a call that raises ends the sequence. */
  function ClearAll(s: State, kinds: seq<Kind>, lib: SetOracle, offIsLong: bool): Step<()>
    decreases |kinds|
  {
    if kinds == [] then
      Step(s, Returned(()))
    else
      var st := RegisterStep(s, kinds[0], Empty, Null, lib, offIsLong);
      if st.out.Raised? then st else ClearAll(st.s, kinds[1..], lib, offIsLong)
  }

  /** The first registration of a clearing sequence, and the sequence that follows it. */
  lemma ClearAllFirst(s: State, kinds: seq<Kind>, lib: SetOracle, offIsLong: bool)
    requires kinds != []
    ensures var st := RegisterStep(s, kinds[0], Empty, Null, lib, offIsLong);
      ClearAll(s, kinds, lib, offIsLong) == if st.out.Raised? then st else ClearAll(st.s, kinds[1..], lib, offIsLong)
  {
  }

  /** What curl_easy_reset leaves: every option back at its default. */
  function Defaults(curl: Option<Handle>): Option<Handle> {
    match curl
    case None => None
    case Some(h) => Some(h.(opts := map[]))
  }

  /** Easy::reset */
  function ResetStep(s: State, lib: SetOracle, offIsLong: bool): Step<()> {
    ClearAll(s.(curl := Defaults(s.curl), err := OK), ResetKinds, lib, offIsLong)
  }

  /** The registration of the empty handler for kind k after a step that returned. */
  function ThenClear(st: Step<()>, k: Kind, lib: SetOracle, offIsLong: bool): Step<()> {
    if st.out.Raised? then st else RegisterStep(st.s, k, Empty, Null, lib, offIsLong)
  }

  /** A clearing sequence that starts after a step that returned. */
  lemma ClearAllThen(st: Step<()>, kinds: seq<Kind>, lib: SetOracle, offIsLong: bool)
    requires st.out.Returned? && kinds != []
    ensures var st' := ThenClear(st, kinds[0], lib, offIsLong);
      ClearAll(st.s, kinds, lib, offIsLong) == if st'.out.Raised? then st' else ClearAll(st'.s, kinds[1..], lib, offIsLong)
  {
  }

  /** A clearing sequence after a step that may have raised. */
  function ThenClearAll(st: Step<()>, kinds: seq<Kind>, lib: SetOracle, offIsLong: bool): Step<()> {
    if st.out.Raised? then st else ClearAll(st.s, kinds, lib, offIsLong)
  }

  lemma ThenClearAllFirst(st: Step<()>, kinds: seq<Kind>, lib: SetOracle, offIsLong: bool)
    requires kinds != []
    ensures ThenClearAll(st, kinds, lib, offIsLong) == ThenClearAll(ThenClear(st, kinds[0], lib, offIsLong), kinds[1..], lib, offIsLong)
  {
    if st.out.Returned? {
      ClearAllThen(st, kinds, lib, offIsLong);
    }
  }

  lemma ThenClearAllNone(st: Step<()>, lib: SetOracle, offIsLong: bool)
    ensures ThenClearAll(st, [], lib, offIsLong) == st
  {
    if st.out.Returned? {
      match st.out.value {
        case () => assert st == Step(st.s, Returned(()));
      }
    }
  }

  /** A clearing sequence of five kinds, one registration after another. */
  lemma ClearFive(s: State, k1: Kind, k2: Kind, k3: Kind, k4: Kind, k5: Kind, lib: SetOracle, offIsLong: bool)
    ensures ClearAll(s, [k1, k2, k3, k4, k5], lib, offIsLong) ==
      ThenClear(ThenClear(ThenClear(ThenClear(ThenClear(Step(s, Returned(())), k1, lib, offIsLong),
        k2, lib, offIsLong), k3, lib, offIsLong), k4, lib, offIsLong), k5, lib, offIsLong)
  {
    var st0 := Step(s, Returned(()));
    var st1 := ThenClear(st0, k1, lib, offIsLong);
    var st2 := ThenClear(st1, k2, lib, offIsLong);
    var st3 := ThenClear(st2, k3, lib, offIsLong);
    var st4 := ThenClear(st3, k4, lib, offIsLong);
    var st5 := ThenClear(st4, k5, lib, offIsLong);
    assert ClearAll(s, [k1, k2, k3, k4, k5], lib, offIsLong) == ThenClearAll(st0, [k1, k2, k3, k4, k5], lib, offIsLong);
    ThenClearAllFirst(st0, [k1, k2, k3, k4, k5], lib, offIsLong);
    assert [k1, k2, k3, k4, k5][1..] == [k2, k3, k4, k5];
    ThenClearAllFirst(st1, [k2, k3, k4, k5], lib, offIsLong);
    assert [k2, k3, k4, k5][1..] == [k3, k4, k5];
    ThenClearAllFirst(st2, [k3, k4, k5], lib, offIsLong);
    assert [k3, k4, k5][1..] == [k4, k5];
    ThenClearAllFirst(st3, [k4, k5], lib, offIsLong);
    assert [k4, k5][1..] == [k5];
    ThenClearAllFirst(st4, [k5], lib, offIsLong);
    assert [k5][1..] == [];
    ThenClearAllNone(st5, lib, offIsLong);
  }

  /** reset written out call by call: onRead(), onWrite(), onHeader(), onProgress(), onDebug(). */
  lemma ResetInOrder(s: State, lib: SetOracle, offIsLong: bool)
    ensures var s0 := s.(curl := Defaults(s.curl), err := OK);
      ResetStep(s, lib, offIsLong) ==
        ThenClear(ThenClear(ThenClear(ThenClear(ThenClear(Step(s0, Returned(())), Read, lib, offIsLong),
          Write, lib, offIsLong), Header, lib, offIsLong), Progress, lib, offIsLong), Debug, lib, offIsLong)
  {
    ClearFive(s.(curl := Defaults(s.curl), err := OK), Read, Write, Header, Progress, Debug, lib, offIsLong);
  }

  lemma {:induction false} ClearAllFrame(s: State, kinds: seq<Kind>, lib: SetOracle, offIsLong: bool)
    ensures var r := ClearAll(s, kinds, lib, offIsLong);
      && (forall k :: k !in kinds ==> SlotOf(r.s, k) == SlotOf(s, k))
      && (r.out.Returned? ==> forall k :: k in kinds ==> SlotOf(r.s, k) == EmptySlot)
      && r.s.addr == s.addr && r.s.throwExceptions == s.throwExceptions && r.s.userData == s.userData
      && (r.s.curl.Some? <==> s.curl.Some?)
      && (s.curl.Some? ==> r.s.curl.value.id == s.curl.value.id)
    decreases |kinds|
  {
    if kinds != [] {
      var st := RegisterStep(s, kinds[0], Empty, Null, lib, offIsLong);
      RegisterStoresSlot(s, kinds[0], Empty, Null, lib, offIsLong);
      if st.out.Returned? {
        ClearAllFrame(st.s, kinds[1..], lib, offIsLong);
        var r := ClearAll(s, kinds, lib, offIsLong);
        forall k | k in kinds ensures SlotOf(r.s, k) == EmptySlot || r.out.Raised? {
          if k != kinds[0] {
            assert k in kinds[1..];
          }
        }
      }
    }
  }

  /** Every setopt call reset's registrations make. */
  function ClearCalls(kinds: seq<Kind>, addr: nat): seq<Setting>
    decreases |kinds|
  {
    if kinds == [] then [] else RegistrationCalls(kinds[0], false, addr) + ClearCalls(kinds[1..], addr)
  }

  lemma {:induction false} ClearAllElsewhere(s: State, kinds: seq<Kind>, lib: SetOracle, offIsLong: bool, key: int)
    requires s.curl.Some?
    requires forall i :: 0 <= i < |ClearCalls(kinds, s.addr)| ==> ClearCalls(kinds, s.addr)[i].key != key
    ensures var r := ClearAll(s, kinds, lib, offIsLong);
      && r.s.curl.Some?
      && (key in r.s.curl.value.opts <==> key in s.curl.value.opts)
      && (key in s.curl.value.opts ==> r.s.curl.value.opts[key] == s.curl.value.opts[key])
    decreases |kinds|
  {
    if kinds != [] {
      var calls := RegistrationCalls(kinds[0], false, s.addr);
      var all := ClearCalls(kinds, s.addr);
      assert all == calls + ClearCalls(kinds[1..], s.addr);
      var stored := s.(slots := s.slots[kinds[0] := Slot(Empty, Null)]);
      forall i | 0 <= i < |calls| ensures calls[i].key != key {
        assert calls[i] == all[i];
      }
      SetKeyElsewhere(stored, calls, lib, offIsLong, key);
      var st := RegisterStep(s, kinds[0], Empty, Null, lib, offIsLong);
      RegisterStoresSlot(s, kinds[0], Empty, Null, lib, offIsLong);
      if st.out.Returned? {
        var rest := ClearCalls(kinds[1..], s.addr);
        forall i | 0 <= i < |rest| ensures rest[i].key != key {
          assert rest[i] == all[|calls| + i];
        }
        ClearAllElsewhere(st.s, kinds[1..], lib, offIsLong, key);
      }
    } else {
      assert ClearAll(s, kinds, lib, offIsLong).s == s;
    }
  }

  /** A key none of the calls names keeps its entry, however the sequence ends. */
  lemma {:induction false} SetKeyElsewhere(s: State, calls: seq<Setting>, lib: SetOracle, offIsLong: bool, key: int)
    requires s.curl.Some?
    requires forall i :: 0 <= i < |calls| ==> calls[i].key != key
    ensures var r := SetAll(s, calls, lib, offIsLong);
      && r.s.curl.Some?
      && (key in r.s.curl.value.opts <==> key in s.curl.value.opts)
      && (key in s.curl.value.opts ==> r.s.curl.value.opts[key] == s.curl.value.opts[key])
    decreases |calls|
  {
    if calls != [] {
      var st := SetStep(s, calls[0].key, calls[0].value, lib, offIsLong);
      if st.out.Returned? {
        SetKeyElsewhere(st.s, calls[1..], lib, offIsLong, key);
      }
    }
  }

  /** reset sets the last error to OK before clearing, keeps the handlers of the ten kinds it
      does not clear, and, when it completes, leaves the five it clears empty. */
  lemma ResetSlots(s: State, lib: SetOracle, offIsLong: bool)
    ensures var r := ResetStep(s, lib, offIsLong);
      && (forall k :: k !in ResetKinds ==> SlotOf(r.s, k) == SlotOf(s, k))
      && (r.out.Returned? ==> forall k :: k in ResetKinds ==> SlotOf(r.s, k) == EmptySlot)
      && r.s.addr == s.addr && r.s.throwExceptions == s.throwExceptions && r.s.userData == s.userData
      && (r.s.curl.Some? <==> s.curl.Some?)
  {
    var s0 := s.(curl := Defaults(s.curl), err := OK);
    ClearAllFrame(s0, ResetKinds, lib, offIsLong);
  }

  /** Each kind has its own FUNCTIONPOINT key; the DATA options are OBJECTPOINT keys. */
  lemma OptionRanges(k: Kind)
    ensures OPTTYPE_FUNCTIONPOINT <= FunctionOption(k) < OPTTYPE_OFF_T
    ensures OPTTYPE_OBJECTPOINT <= DataOption(k) < OPTTYPE_FUNCTIONPOINT
  {
  }

  lemma FunctionOptionInjective(j: Kind, k: Kind)
    ensures FunctionOption(j) == FunctionOption(k) ==> j == k
  {
  }

  /** Clearing other kinds never names the FUNCTION option of kind k. */
  lemma {:induction false} ClearCallsAvoid(kinds: seq<Kind>, addr: nat, k: Kind)
    requires k !in kinds
    ensures forall i :: 0 <= i < |ClearCalls(kinds, addr)| ==> ClearCalls(kinds, addr)[i].key != FunctionOption(k)
    decreases |kinds|
  {
    if kinds != [] {
      var calls := RegistrationCalls(kinds[0], false, addr);
      var all := ClearCalls(kinds, addr);
      assert k !in kinds[1..];
      ClearCallsAvoid(kinds[1..], addr, k);
      OptionRanges(kinds[0]);
      OptionRanges(k);
      FunctionOptionInjective(kinds[0], k);
      forall i | 0 <= i < |all| ensures all[i].key != FunctionOption(k) {
        if i >= |calls| {
          assert all[i] == ClearCalls(kinds[1..], addr)[i - |calls|];
        }
      }
    }
  }

  /** Clearing kind j leaves the FUNCTION option of every other kind alone. */
  lemma ClearLeavesOtherFunction(s: State, j: Kind, k: Kind, lib: SetOracle, offIsLong: bool)
    requires s.curl.Some? && j != k
    ensures var r := RegisterStep(s, j, Empty, Null, lib, offIsLong);
      r.s.curl.Some? && Entry(r.s.curl.value.opts, FunctionOption(k)) == Entry(s.curl.value.opts, FunctionOption(k))
  {
    var stored := s.(slots := s.slots[j := Slot(Empty, Null)]);
    var calls := RegistrationCalls(j, false, s.addr);
    OptionRanges(j);
    OptionRanges(k);
    FunctionOptionInjective(j, k);
    assert forall i :: 0 <= i < |calls| ==> calls[i].key != FunctionOption(k);
    SetKeyElsewhere(stored, calls, lib, offIsLong, FunctionOption(k));
  }

  /** A clearing sequence that returns leaves in the FUNCTION option of every kind it cleared a
      null function pointer when libcurl accepted it, and the entry it had before otherwise. */
  lemma {:induction false} ClearAllUninstalls(s: State, kinds: seq<Kind>, lib: SetOracle, offIsLong: bool)
    requires s.curl.Some?
    requires forall i, j :: 0 <= i < j < |kinds| ==> kinds[i] != kinds[j]
    ensures var r := ClearAll(s, kinds, lib, offIsLong);
      r.out.Returned? ==>
        r.s.curl.Some? &&
        forall k :: k in kinds ==>
          Entry(r.s.curl.value.opts, FunctionOption(k)) ==
            if lib(FunctionOption(k), FunctionArg(NoFunction)) == OK then Some(FunctionArg(NoFunction))
            else Entry(s.curl.value.opts, FunctionOption(k))
    decreases |kinds|
  {
    if kinds != [] {
      var st := RegisterStep(s, kinds[0], Empty, Null, lib, offIsLong);
      RegisterFunctionEntry(s, kinds[0], Empty, Null, lib, offIsLong);
      RegisterStoresSlot(s, kinds[0], Empty, Null, lib, offIsLong);
      if st.out.Returned? {
        var rest := kinds[1..];
        assert kinds[0] !in rest by {
          forall i | 0 <= i < |rest| ensures rest[i] != kinds[0] {
            assert rest[i] == kinds[i + 1];
          }
        }
        assert forall i, j :: 0 <= i < j < |rest| ==> rest[i] != rest[j] by {
          forall i, j | 0 <= i < j < |rest| ensures rest[i] != rest[j] {
            assert rest[i] == kinds[i + 1] && rest[j] == kinds[j + 1];
          }
        }
        ClearAllUninstalls(st.s, rest, lib, offIsLong);
        ClearCallsAvoid(rest, s.addr, kinds[0]);
        ClearAllElsewhere(st.s, rest, lib, offIsLong, FunctionOption(kinds[0]));
        forall k | k in rest
          ensures Entry(st.s.curl.value.opts, FunctionOption(k)) == Entry(s.curl.value.opts, FunctionOption(k))
        {
          ClearLeavesOtherFunction(s, kinds[0], k, lib, offIsLong);
        }
        forall k | k in kinds && k != kinds[0] ensures k in rest {
        }
      }
    }
  }

  /** When exception mode is off, or there is a handle and libcurl accepts every call, a clearing
      sequence runs to its end, and in exception mode it leaves the last error OK. */
  lemma {:induction false} ClearAllReturns(s: State, kinds: seq<Kind>, lib: SetOracle, offIsLong: bool)
    requires !s.throwExceptions || (s.curl.Some? && forall key, a :: lib(key, a) == OK)
    ensures var r := ClearAll(s, kinds, lib, offIsLong);
      && r.out.Returned?
      && (s.throwExceptions && s.err == OK ==> r.s.err == OK)
    decreases |kinds|
  {
    if kinds != [] {
      var st := RegisterStep(s, kinds[0], Empty, Null, lib, offIsLong);
      RegisterCompletes(s, kinds[0], Empty, Null, lib, offIsLong);
      RegisterStoresSlot(s, kinds[0], Empty, Null, lib, offIsLong);
      ClearAllReturns(st.s, kinds[1..], lib, offIsLong);
    }
  }

  /** When exception mode is off, or there is a handle and libcurl accepts every call, reset
      completes, and in exception mode the last error ends OK. */
  lemma ResetCompletes(s: State, lib: SetOracle, offIsLong: bool)
    requires !s.throwExceptions || (s.curl.Some? && forall key, a :: lib(key, a) == OK)
    ensures var r := ResetStep(s, lib, offIsLong);
      && r.out.Returned?
      && (s.throwExceptions ==> r.s.err == OK)
  {
    ClearAllReturns(s.(curl := Defaults(s.curl), err := OK), ResetKinds, lib, offIsLong);
  }

  /** The handlers reset keeps are dead: curl_easy_reset dropped their FUNCTION options and no
      registration puts them back, so libcurl never calls their trampolines, however reset ends. */
  lemma ResetLeavesKeptHandlersUninstalled(s: State, k: Kind, lib: SetOracle, offIsLong: bool)
    requires s.curl.Some? && k !in ResetKinds
    ensures var r := ResetStep(s, lib, offIsLong);
      && r.s.curl.Some?
      && SlotOf(r.s, k) == SlotOf(s, k)
      && Invoke(r.s, k) == NotInstalled
  {
    var s0 := s.(curl := Defaults(s.curl), err := OK);
    ClearCallsAvoid(ResetKinds, s.addr, k);
    ClearAllElsewhere(s0, ResetKinds, lib, offIsLong, FunctionOption(k));
    ResetSlots(s, lib, offIsLong);
  }

  /** After a reset that completes, no trampoline of any kind is installed on the handle, whatever
      libcurl answered: curl_easy_reset emptied the table and the clearing calls only ever put null
      function pointers in it. */
  lemma ResetUninstallsAll(s: State, k: Kind, lib: SetOracle, offIsLong: bool)
    requires s.curl.Some?
    ensures var r := ResetStep(s, lib, offIsLong);
      r.out.Returned? ==> r.s.curl.Some? && Invoke(r.s, k) == NotInstalled
  {
    if k in ResetKinds {
      ClearAllUninstalls(s.(curl := Defaults(s.curl), err := OK), ResetKinds, lib, offIsLong);
    } else {
      ResetLeavesKeptHandlersUninstalled(s, k, lib, offIsLong);
    }
  }

  // -- construction

  /** The user agent the constructor installs. */
  const DefaultUserAgent: string := "curlite::Easy"

  /** Easy(): a fresh record, the handle curl_easy_init returned (None when it returned null,
      which raises), then the default user agent set through set while exception mode is on. */
  function CreateStep(addr: nat, init: Option<nat>, lib: SetOracle, offIsLong: bool): Step<()> {
    match init
    case None => Step(NewState(addr), Raised(InitError))
    case Some(id) =>
      var st := SetStep(NewState(addr).(curl := Some(Handle(id, map[]))), OPT_USERAGENT, PointerArg(Text(DefaultUserAgent)), lib, offIsLong);
      Step(st.s, if st.out.Raised? then Raised(st.out.failure) else Returned(()))
  }

  /** A constructed Easy holds the handle with only the user agent set, no error, exception mode
      on, no user data, every slot empty and no trampoline installed. The constructor raises
      exactly when curl_easy_init fails or libcurl refuses the user agent. */
  lemma CreateDefaults(addr: nat, init: Option<nat>, lib: SetOracle, offIsLong: bool)
    ensures var r := CreateStep(addr, init, lib, offIsLong);
      && (r.out.Raised? <==> init.None? || lib(OPT_USERAGENT, PointerArg(Text(DefaultUserAgent))) != OK)
      && (init.None? ==> r.out == Raised(InitError))
      && (r.out.Returned? ==>
            && r.s.curl == Some(Handle(init.value, map[OPT_USERAGENT := PointerArg(Text(DefaultUserAgent))]))
            && r.s.err == OK && r.s.throwExceptions && r.s.userData == Null
            && (forall k :: SlotOf(r.s, k) == EmptySlot)
            && (forall k :: Invoke(r.s, k) == NotInstalled))
  {
    AdmitsExactly(OPT_USERAGENT, ObjPtr);
    var r := CreateStep(addr, init, lib, offIsLong);
    if r.out.Returned? {
      forall k ensures Invoke(r.s, k) == NotInstalled {
        OptionRanges(k);
      }
    }
  }

  // -- transfers

  /** Easy::perform and Easy::pause report libcurl's status through handleError; send and recv
      return the byte count libcurl reports when the call succeeded and zero otherwise. */
  function CountStep(s: State, status: int, count: nat): (r: Step<nat>)
    ensures r.s == s.(err := status)
    ensures r.out.Raised? <==> status != OK && s.throwExceptions
    ensures r.out.Raised? ==> r.out.failure == CurlError(status)
    ensures r.out.Returned? && status == OK ==> r.out.value == count
    ensures r.out.Returned? && status != OK ==> r.out.value == 0
  {
    var st := HandleErrorStep(s, status);
    match st.out
    case Raised(f) => Step(st.s, Raised(f))
    case Returned(ok) => Step(st.s, Returned(if ok then count else 0))
  }

  /** The stream operators: install the stream lambda as the read (upload) or write (download)
      handler through onRead/onWrite, then perform. */
  function StreamTransferStep(s: State, k: Kind, h: Handler, lib: SetOracle, offIsLong: bool, status: int): Step<bool> {
    var st := RegisterStep(s, k, h, Null, lib, offIsLong);
    if st.out.Raised? then Step(st.s, Raised(st.out.failure)) else HandleErrorStep(st.s, status)
  }

  /** When libcurl accepts its registration, a stream operator leaves the stream lambda installed and
      dispatched to by libcurl, and reports perform's status: true exactly when it is OK, an
      exception carrying it in exception mode otherwise. */
  lemma StreamTransferInstalls(s: State, k: Kind, h: Handler, lib: SetOracle, offIsLong: bool, status: int)
    requires s.curl.Some? && h != Empty && k in {Read, Write}
    requires forall key, a :: lib(key, a) == OK
    ensures var r := StreamTransferStep(s, k, h, lib, offIsLong, status);
      && r.s.curl.Some?
      && r.s.err == status
      && SlotOf(r.s, k) == Slot(h, Null)
      && Invoke(r.s, k) == Dispatched(Dispatch(Some(Call(h, Null, Null)), Forwarded))
      && (r.out.Raised? <==> status != OK && s.throwExceptions)
      && (r.out.Raised? ==> r.out.failure == CurlError(status))
      && (r.out.Returned? ==> (r.out.value <==> status == OK))
  {
    RegisterCompletes(s, k, h, Null, lib, offIsLong);
    RegisterThenInvoke(s, k, h, Null, lib, offIsLong);
    RegisterStoresSlot(s, k, h, Null, lib, offIsLong);
  }

  /** A stream operator that returns has stored the stream lambda, applied the registration's
      calls libcurl accepted (all of them: the registered table) and recorded perform's status,
      and changed nothing else but the slot and the table. */
  lemma StreamTransferReturned(s: State, k: Kind, h: Handler, lib: SetOracle, offIsLong: bool, status: int)
    ensures var r := StreamTransferStep(s, k, h, lib, offIsLong, status);
      r.out.Returned? ==>
        && r.s.err == status
        && SlotOf(r.s, k) == Slot(h, Null)
        && (forall j :: j != k ==> SlotOf(r.s, j) == SlotOf(s, j))
        && r.s.addr == s.addr && r.s.throwExceptions == s.throwExceptions && r.s.userData == s.userData
        && (s.curl.Some? ==>
              && r.s.curl.Some? && r.s.curl.value.id == s.curl.value.id
              && r.s.curl.value.opts == Applied(s.curl.value.opts, RegistrationCalls(k, h != Empty, s.addr), lib)
              && (Accepts(lib, RegistrationCalls(k, h != Empty, s.addr)) ==>
                    r.s.curl.value.opts == RegisteredTable(s.curl.value.opts, k, h != Empty, s.addr)))
        && (r.out.value <==> status == OK)
  {
    RegisterApplied(s, k, h, Null, lib, offIsLong);
    RegisterStoresSlot(s, k, h, Null, lib, offIsLong);
  }

  /** A stream operator after a step that may have raised. */
  function ThenTransfer(st: Step<()>, k: Kind, h: Handler, lib: SetOracle, offIsLong: bool, status: int): (r: Step<()>)
    ensures st.out.Raised? ==> r == st
    ensures st.out.Returned? ==> r.s == StreamTransferStep(st.s, k, h, lib, offIsLong, status).s
    ensures st.out.Returned? ==> (r.out.Raised? <==> StreamTransferStep(st.s, k, h, lib, offIsLong, status).out.Raised?)
    ensures st.out.Returned? && r.out.Raised? ==> r.out.failure == StreamTransferStep(st.s, k, h, lib, offIsLong, status).out.failure
  {
    if st.out.Raised? then st
    else
      var d := StreamTransferStep(st.s, k, h, lib, offIsLong, status);
      Step(d.s, if d.out.Raised? then Raised(d.out.failure) else Returned(()))
  }

  // -- getInfo

  /** Easy::getInfo<ValueType>: check the key's type bits against the value type; on a mismatch
      record BAD_FUNCTION_ARGUMENT without calling libcurl, otherwise record the native getter's
      status; return the fetched value on success and the default otherwise. */
  function GetInfoStep<V>(s: State, key: int, t: InfoType, default: V, status: int, fetched: V): (r: Step<V>)
    ensures r.s == s.(err := if InfoAdmits(key, t) then status else BAD_FUNCTION_ARGUMENT)
    ensures r.out.Raised? <==> r.s.err != OK && s.throwExceptions
    ensures r.out.Raised? ==> r.out.failure == CurlError(r.s.err)
    ensures r.out.Returned? && r.s.err == OK ==> r.out.value == fetched
    ensures r.out.Returned? && r.s.err != OK ==> r.out.value == default
  {
    var code := if InfoTypeCode(t) != InfoTypeBits(key) then BAD_FUNCTION_ARGUMENT else status;
    var st := HandleErrorStep(s, code);
    match st.out
    case Raised(f) => Step(st.s, Raised(f))
    case Returned(ok) => Step(st.s, Returned(if ok then fetched else default))
  }

  /** getInfo<std::string>: getInfo<char*> with a null default; a null result yields the default
      string. */
  function GetInfoStringStep(s: State, key: int, default: string, status: int, fetched: Option<string>): (r: Step<string>)
    ensures r.s == s.(err := if InfoAdmits(key, CharPtrInfo) then status else BAD_FUNCTION_ARGUMENT)
    ensures r.out.Raised? <==> r.s.err != OK && s.throwExceptions
    ensures r.out.Returned? && r.s.err == OK && fetched.Some? ==> r.out.value == fetched.value
    ensures r.out.Returned? && (r.s.err != OK || fetched.None?) ==> r.out.value == default
  {
    var st := GetInfoStep(s, key, CharPtrInfo, None, status, fetched);
    match st.out
    case Raised(f) => Step(st.s, Raised(f))
    case Returned(v) => Step(st.s, Returned(v.GetOr(default)))
  }

  /** A string key read with a long (or any mismatched type) is refused without reaching libcurl:
      the last error becomes BAD_FUNCTION_ARGUMENT and the default comes back, or an exception is
      raised in exception mode. */
  lemma GetInfoMismatchRefused<V>(s: State, key: int, t: InfoType, default: V, status: int, fetched: V)
    requires !(InfoTypeCode(t) <= key % 0x1000000 < InfoTypeCode(t) + 0x100000)
    ensures var r := GetInfoStep(s, key, t, default, status, fetched);
      && r.s.err == BAD_FUNCTION_ARGUMENT
      && (s.throwExceptions ==> r.out == Raised(CurlError(BAD_FUNCTION_ARGUMENT)))
      && (!s.throwExceptions ==> r.out == Returned(default))
  {
    InfoAdmitsExactly(key, t);
  }
}
