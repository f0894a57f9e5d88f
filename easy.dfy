/** curlite::Easy, the owner of one curl_easy session. The object holds its private record
    (Easy::Pimpl) behind a unique pointer, which is empty once the object has been moved from;
    every operation below except the destructor, release and move assignment dereferences it, so
    they require it. Each method updates the record in place and is proved against the function
    of EasyState that describes the same operation. */
module EasyApi {
  import opened Curl
  import opened Outcomes
  import opened Pointers
  import opened Callbacks
  import opened OptionTypes
  import opened EasyState

  /** A C string built from a buffer: the characters before the first NUL. */
  function UpToNul(s: string): (r: string)
    ensures r <= s
    ensures '\0' !in r
    ensures |r| < |s| ==> s[|r|] == '\0'
  {
    if s == [] || s[0] == '\0' then [] else [s[0]] + UpToNul(s[1..])
  }

  class Easy {
    /** _impl: the record, None once this object has been the source of a move. */
    var impl: Option<State>
    /** Whether curl_off_t is the same type as long on the target platform. */
    const offIsLong: bool

    /** The member initialiser `_impl( new Pimpl() )`, which every construction starts with. */
    constructor Allocate(addr: nat, offIsLong: bool)
      ensures impl == Some(NewState(addr))
      ensures this.offIsLong == offIsLong
    {
      impl := Some(NewState(addr));
      this.offIsLong := offIsLong;
    }

    /** Easy(). `init` is what curl_easy_init returns. When the default user agent makes set
        raise, the exception leaves the constructor after the handle was obtained: no destructor
        runs and the handle, reported in `leaked`, is never cleaned up. */
    static method Create(addr: nat, offIsLong: bool, init: Option<nat>, lib: SetOracle)
      returns (r: Outcome<Easy>, ghost leaked: Option<nat>)
      ensures var st := CreateStep(addr, init, lib, offIsLong);
        && (r.Raised? <==> st.out.Raised?)
        && (r.Raised? ==> r.failure == st.out.failure)
        && (r.Returned? ==> fresh(r.value) && r.value.impl == Some(st.s) && r.value.offIsLong == offIsLong)
        && (leaked.Some? <==> init.Some? && r.Raised?)
        && (leaked.Some? ==> leaked == init)
    {
      var e := new Easy.Allocate(addr, offIsLong);
      leaked := None;
      if init.None? {
        return Raised(InitError), None;
      }
      e.impl := Some(e.impl.value.(curl := Some(Handle(init.value, map[]))));
      var o := e.Set(OPT_USERAGENT, PointerArg(Text(DefaultUserAgent)), lib);
      if o.Raised? {
        return Raised(o.failure), init;
      }
      r := Returned(e);
    }

    /** Easy(Easy&&): an empty object move-assigned from `other`, which ends up empty. */
    constructor Move(other: Easy)
      modifies other
      ensures impl == old(other.impl)
      ensures other.impl == None
      ensures this.offIsLong == other.offIsLong
    {
      impl := other.impl;
      offIsLong := other.offIsLong;
      new;
      other.impl := None;
    }

    /** Easy::release: hand the session to the caller and forget it. */
    method Release() returns (h: Option<Handle>)
      modifies this
      ensures old(impl).None? ==> h.None? && impl == None
      ensures old(impl).Some? ==> h == old(impl.value.curl) && impl == Some(old(impl.value).(curl := None))
    {
      h := None;
      if impl.Some? {
        h := impl.value.curl;
        impl := Some(impl.value.(curl := None));
      }
    }

    /** ~Easy: release the session and clean it up (`cleaned` is what curl_easy_cleanup receives). */
    method Destroy() returns (cleaned: Option<Handle>)
      modifies this
      ensures cleaned == (if old(impl).Some? then old(impl.value.curl) else None)
      ensures impl.Some? ==> impl.value.curl.None?
    {
      cleaned := Release();
    }

    /** Easy::operator=(Easy&&): unless it is self-assignment, clean up this object's session and
        swap records, so `other` receives this object's record without its handle. */
    method MoveAssign(other: Easy) returns (cleaned: Option<Handle>)
      modifies this, other
      ensures other == this ==> impl == old(impl) && cleaned.None?
      ensures other != this ==>
        && cleaned == (if old(impl).Some? then old(impl.value.curl) else None)
        && impl == old(other.impl)
        && other.impl == (if old(impl).Some? then Some(old(impl.value).(curl := None)) else None)
    {
      cleaned := None;
      if other != this {
        cleaned := Release();
        impl, other.impl := other.impl, impl;
      }
    }

    /** Easy::operator bool: whether the last operation succeeded. */
    method IsOk() returns (ok: bool)
      requires impl.Some?
      ensures ok <==> impl.value.err == OK
    {
      ok := impl.value.err == OK;
    }

    /** Easy::get: the managed session, None for a released one. */
    method Get() returns (h: Option<Handle>)
      requires impl.Some?
      ensures h == impl.value.curl
    {
      h := impl.value.curl;
    }

    method SetExceptionMode(throwExceptions: bool)
      requires impl.Some?
      modifies this
      ensures impl == Some(old(impl.value).(throwExceptions := throwExceptions))
    {
      impl := Some(impl.value.(throwExceptions := throwExceptions));
    }

    method ExceptionMode() returns (b: bool)
      requires impl.Some?
      ensures b == impl.value.throwExceptions
    {
      b := impl.value.throwExceptions;
    }

    /** Easy::error: the status of the last operation. */
    method Error() returns (code: int)
      requires impl.Some?
      ensures code == impl.value.err
    {
      code := impl.value.err;
    }

    /** Easy::errorString: libcurl's description (`strerror`) of the last error. */
    method ErrorString(strerror: int -> string) returns (text: string)
      requires impl.Some?
      ensures text == strerror(impl.value.err)
    {
      text := strerror(impl.value.err);
    }

    method SetUserData(data: Ptr)
      requires impl.Some?
      modifies this
      ensures impl == Some(old(impl.value).(userData := data))
    {
      impl := Some(impl.value.(userData := data));
    }

    method UserData() returns (data: Ptr)
      requires impl.Some?
      ensures data == impl.value.userData
    {
      data := impl.value.userData;
    }

    /** Easy::handleError */
    method HandleError(code: int) returns (r: Outcome<bool>)
      requires impl.Some?
      modifies this
      ensures var st := HandleErrorStep(old(impl.value), code); impl == Some(st.s) && r == st.out
    {
      impl := Some(impl.value.(err := code));
      if impl.value.err != OK && impl.value.throwExceptions {
        return Raised(CurlError(impl.value.err));
      }
      r := Returned(impl.value.err == OK);
    }

    /** Easy::set<ValueType>, with the value tagged by its C++ type and the corrected check. */
    method Set(key: int, a: Arg, lib: SetOracle) returns (r: Outcome<bool>)
      requires impl.Some?
      modifies this
      ensures var st := SetStep(old(impl.value), key, a, lib, offIsLong); impl == Some(st.s) && r == st.out
    {
      var code;
      var keyTypeCode := KeyTypeCode(key);
      var nullAllowed := CategoryOf(a, offIsLong) == NullPtr && keyTypeCode != OPTTYPE_LONG;
      // where curl_off_t is long, a long value is also a valid curl_off_t
      var offAllowed := offIsLong && CategoryOf(a, offIsLong) == Long && keyTypeCode == OPTTYPE_OFF_T;
      if TypeCode(CategoryOf(a, offIsLong)) != keyTypeCode && !nullAllowed && !offAllowed {
        code := BAD_FUNCTION_ARGUMENT;
      } else {
        code := SetoptStatus(impl.value.curl, key, a, lib);
        impl := Some(impl.value.(curl := Recorded(impl.value.curl, key, a, code)));
      }
      r := HandleError(code);
    }

    /** set(key, int) */
    method SetInt(key: int, value: int, lib: SetOracle) returns (r: Outcome<bool>)
      requires impl.Some?
      modifies this
      ensures var st := SetStep(old(impl.value), key, LongArg(value), lib, offIsLong); impl == Some(st.s) && r == st.out
    {
      r := Set(key, FromInt(value), lib);
    }

    /** set(key, bool) */
    method SetBool(key: int, value: bool, lib: SetOracle) returns (r: Outcome<bool>)
      requires impl.Some?
      modifies this
      ensures var st := SetStep(old(impl.value), key, LongArg(if value then 1 else 0), lib, offIsLong);
        impl == Some(st.s) && r == st.out
    {
      r := Set(key, FromBool(value), lib);
    }

    /** set(key, std::string) */
    method SetString(key: int, value: string, lib: SetOracle) returns (r: Outcome<bool>)
      requires impl.Some?
      modifies this
      ensures var st := SetStep(old(impl.value), key, PointerArg(Text(value)), lib, offIsLong);
        impl == Some(st.s) && r == st.out
    {
      r := Set(key, FromString(value), lib);
    }

    /** Easy::onRead, onWrite, onHeader, onIoctl, onSeek, onFnMatch, onProgress, onXferInfo,
        onCloseSocket, onOpenSocket, onSockOpt, onChunkBegin, onChunkEnd, onSslContext and
        onDebug, selected by the kind. */
    method Register(k: Kind, h: Handler, data: Ptr, lib: SetOracle) returns (r: Outcome<()>)
      requires impl.Some?
      modifies this
      ensures var st := RegisterStep(old(impl.value), k, h, data, lib, offIsLong); impl == Some(st.s) && r == st.out
    {
      impl := Some(impl.value.(slots := impl.value.slots[k := Slot(h, data)]));
      var calls := RegistrationCalls(k, h != Empty, impl.value.addr);
      ghost var s1 := impl.value;
      var o := Set(calls[0].key, calls[0].value, lib);
      SetAllFirst(s1, calls, lib, offIsLong);
      if o.Raised? {
        return Raised(o.failure);
      }
      ghost var s2 := impl.value;
      o := Set(calls[1].key, calls[1].value, lib);
      SetAllFirst(s2, calls[1..], lib, offIsLong);
      if o.Raised? {
        return Raised(o.failure);
      }
      ghost var s3 := impl.value;
      assert calls[1..][1..] == calls[2..];
      if |calls| == 3 {
        o := Set(calls[2].key, calls[2].value, lib);
        SetAllFirst(s3, calls[2..], lib, offIsLong);
        if o.Raised? {
          return Raised(o.failure);
        }
        assert calls[2..][1..] == [];
      } else {
        assert calls[2..] == [];
      }
      r := Returned(());
    }

    /** onRead_, onWrite_, onHeader_ and onProgress_: wrap a simplified callable (None for an
        empty one) and register it with no user data. */
    method RegisterSimple(sk: SimpleKind, f: Option<nat>, lib: SetOracle) returns (r: Outcome<()>)
      requires impl.Some?
      modifies this
      ensures var st := RegisterSimpleStep(old(impl.value), sk, f, lib, offIsLong); impl == Some(st.s) && r == st.out
    {
      r := Register(SimpleSlot(sk), SimpleHandler(sk, f), Null, lib);
    }

    /** Easy::reset */
    method Reset(lib: SetOracle) returns (r: Outcome<()>)
      requires impl.Some?
      modifies this
      ensures var st := ResetStep(old(impl.value), lib, offIsLong); impl == Some(st.s) && r == st.out
    {
      ghost var s := impl.value;
      ResetInOrder(s, lib, offIsLong);
      impl := Some(impl.value.(curl := Defaults(impl.value.curl), err := OK));
      r := Register(Read, Empty, Null, lib);
      if r.Raised? {
        return;
      }
      r := Register(Write, Empty, Null, lib);
      if r.Raised? {
        return;
      }
      r := Register(Header, Empty, Null, lib);
      if r.Raised? {
        return;
      }
      r := Register(Progress, Empty, Null, lib);
      if r.Raised? {
        return;
      }
      r := Register(Debug, Empty, Null, lib);
    }

    /** Easy::perform; `status` is what curl_easy_perform returns. */
    method Perform(status: int) returns (r: Outcome<bool>)
      requires impl.Some?
      modifies this
      ensures var st := HandleErrorStep(old(impl.value), status); impl == Some(st.s) && r == st.out
    {
      r := HandleError(status);
    }

    /** Easy::pause; `status` is what curl_easy_pause returns. */
    method Pause(bitmask: int, status: int) returns (r: Outcome<bool>)
      requires impl.Some?
      modifies this
      ensures var st := HandleErrorStep(old(impl.value), status); impl == Some(st.s) && r == st.out
    {
      r := HandleError(status);
    }

    /** Easy::send; curl_easy_send returns `status` and reports `sent` bytes. */
    method Send(buffer: seq<bv8>, status: int, sent: nat) returns (r: Outcome<nat>)
      requires impl.Some?
      modifies this
      ensures var st := CountStep(old(impl.value), status, sent); impl == Some(st.s) && r == st.out
    {
      var ok := HandleError(status);
      if ok.Raised? {
        return Raised(ok.failure);
      }
      r := Returned(if ok.value then sent else 0);
    }

    /** Easy::recv; curl_easy_recv returns `status` and reports `received` bytes. */
    method Recv(bufferSize: nat, status: int, received: nat) returns (r: Outcome<nat>)
      requires impl.Some?
      modifies this
      ensures var st := CountStep(old(impl.value), status, received); impl == Some(st.s) && r == st.out
    {
      var ok := HandleError(status);
      if ok.Raised? {
        return Raised(ok.failure);
      }
      r := Returned(if ok.value then received else 0);
    }

    /** Easy::operator<<(std::istream&): upload from the stream. */
    method UploadFrom(stream: nat, lib: SetOracle, status: int) returns (r: Outcome<bool>)
      requires impl.Some?
      modifies this
      ensures var st := StreamTransferStep(old(impl.value), Read, StreamReader(stream), lib, offIsLong, status);
        impl == Some(st.s) && r == st.out
    {
      var o := Register(Read, StreamReader(stream), Null, lib);
      if o.Raised? {
        return Raised(o.failure);
      }
      r := Perform(status);
    }

    /** Easy::operator>>(std::ostream&): download into the stream. */
    method DownloadTo(stream: nat, lib: SetOracle, status: int) returns (r: Outcome<bool>)
      requires impl.Some?
      modifies this
      ensures var st := StreamTransferStep(old(impl.value), Write, StreamWriter(stream), lib, offIsLong, status);
        impl == Some(st.s) && r == st.out
    {
      var o := Register(Write, StreamWriter(stream), Null, lib);
      if o.Raised? {
        return Raised(o.failure);
      }
      r := Perform(status);
    }

    /** Easy::getInfo<ValueType>, with the value type named by `t`; curl_easy_getinfo returns
        `status` and delivers `fetched`. */
    method GetInfo<V>(key: int, t: InfoType, default: V, status: int, fetched: V) returns (r: Outcome<V>)
      requires impl.Some?
      modifies this
      ensures var st := GetInfoStep(old(impl.value), key, t, default, status, fetched); impl == Some(st.s) && r == st.out
    {
      var code;
      if InfoTypeCode(t) != InfoTypeBits(key) {
        code := BAD_FUNCTION_ARGUMENT;
      } else {
        code := status;
      }
      var ok := HandleError(code);
      if ok.Raised? {
        return Raised(ok.failure);
      }
      r := Returned(if ok.value then fetched else default);
    }

    /** Easy::getInfo<std::string>; `fetched` is the char* libcurl delivers (None for null). */
    method GetInfoString(key: int, default: string, status: int, fetched: Option<string>) returns (r: Outcome<string>)
      requires impl.Some?
      modifies this
      ensures var st := GetInfoStringStep(old(impl.value), key, default, status, fetched); impl == Some(st.s) && r == st.out
    {
      var v := GetInfo(key, CharPtrInfo, None, status, fetched);
      if v.Raised? {
        return Raised(v.failure);
      }
      r := Returned(if v.value.Some? then v.value.value else default);
    }

    /** Easy::escape; `encoded` is the buffer curl_easy_escape returns (None for null). The
        result is the C string in it, or empty when libcurl fails; nothing in the record changes. */
    method Escape(url: string, encoded: Option<string>) returns (r: string)
      requires impl.Some?
      ensures encoded.None? ==> r == []
      ensures encoded.Some? ==> r == UpToNul(encoded.value)
      ensures encoded.Some? ==> r <= encoded.value && '\0' !in r
      ensures encoded.Some? && |r| < |encoded.value| ==> encoded.value[|r|] == '\0'
      ensures encoded.Some? && '\0' !in encoded.value ==> r == encoded.value
    {
      r := [];
      if encoded.Some? {
        r := UpToNul(encoded.value);
        if '\0' !in encoded.value {
          NoNulKept(encoded.value);
        }
      }
    }

    /** Easy::unescape; `decoded` is the buffer curl_easy_unescape returns (None for null) with
        its reported length. The result is every decoded byte, NULs included, or empty when
        libcurl fails. */
    method Unescape(url: string, decoded: Option<string>) returns (r: string)
      requires impl.Some?
      ensures decoded.None? ==> r == []
      ensures decoded.Some? ==> r == decoded.value
    {
      r := [];
      if decoded.Some? {
        r := decoded.value;
      }
    }
  }

  /** A buffer without a NUL is its own C string. */
  lemma {:induction false} NoNulKept(s: string)
    requires '\0' !in s
    ensures UpToNul(s) == s
  {
    if s != [] {
      assert '\0' !in s[1..];
      NoNulKept(s[1..]);
    }
  }
}
