/** The two one-call helpers, curlite::download and curlite::upload: each builds an Easy, sets
    the options of the transfer, runs it through a stream operator and hands the object back by
    moving it out. A curlite::Exception raised on the way leaves the helper and the local objects
    are destroyed as it unwinds. libcurl is the oracle of EasyState: `init` is curl_easy_init's
    result, `lib` the setopt status and `status` curl_easy_perform's status. */
module Transfers {
  import opened Curl
  import opened Outcomes
  import opened Pointers
  import opened Callbacks
  import opened OptionTypes
  import opened EasyState
  import opened EasyApi
  import opened Lists

  /** The curl_slist* List::get returns. */
  function ListPointer(c: Option<seq<string>>): (p: Ptr)
    ensures c.None? <==> p == Null
    ensures c.Some? ==> p == Chain(c.value)
  {
    match c
    case None => Null
    case Some(items) => Chain(items)
  }

  // -- download

  /** What download does to the Easy it builds, and how it ends. */
  function DownloadStep(url: string, stream: nat, followRedirect: bool, throwExceptions: bool,
                        addr: nat, offIsLong: bool, init: Option<nat>, lib: SetOracle, status: int): Step<()>
  {
    var c := CreateStep(addr, init, lib, offIsLong);
    if c.out.Raised? then c
    else
      var configured := ThenSet(ThenSet(Step(c.s.(throwExceptions := throwExceptions), Returned(())),
                                        OPT_URL, FromString(url), lib, offIsLong),
                                OPT_FOLLOWLOCATION, FromBool(followRedirect), lib, offIsLong);
      ThenTransfer(configured, Write, StreamWriter(stream), lib, offIsLong, status)
  }

  /** curlite::download(url, ostr, followRedirect, throwExceptions). */
  method Download(url: string, stream: nat, followRedirect: bool, throwExceptions: bool,
                  addr: nat, offIsLong: bool, init: Option<nat>, lib: SetOracle, status: int)
    returns (r: Outcome<Easy>)
    ensures var st := DownloadStep(url, stream, followRedirect, throwExceptions, addr, offIsLong, init, lib, status);
      && (r.Raised? <==> st.out.Raised?)
      && (r.Raised? ==> r.failure == st.out.failure)
      && (r.Returned? ==> fresh(r.value) && r.value.impl == Some(st.s) && r.value.offIsLong == offIsLong)
  {
    var c, _ := Easy.Create(addr, offIsLong, init, lib);
    if c.Raised? {
      return Raised(c.failure);
    }
    var e := c.value;
    e.SetExceptionMode(throwExceptions);
    ghost var st := Step(e.impl.value, Returned(()));
    var o := e.SetString(OPT_URL, url, lib);
    st := ThenSet(st, OPT_URL, FromString(url), lib, offIsLong);
    if o.Raised? {
      var _ := e.Destroy();
      return Raised(o.failure);
    }
    o := e.SetBool(OPT_FOLLOWLOCATION, followRedirect, lib);
    st := ThenSet(st, OPT_FOLLOWLOCATION, FromBool(followRedirect), lib, offIsLong);
    if o.Raised? {
      var _ := e.Destroy();
      return Raised(o.failure);
    }
    o := e.DownloadTo(stream, lib, status);
    if o.Raised? {
      var _ := e.Destroy();
      return Raised(o.failure);
    }
    var moved := new Easy.Move(e);
    var _ := e.Destroy();
    r := Returned(moved);
  }

  /** A download that returns hands back an Easy in the requested exception mode whose last
      error is perform's status, whose table holds the user agent, the URL, the redirect switch
      and the write trampoline with its record, and whose write handler, the stream writer, is
      what libcurl reaches. */
  lemma DownloadConfigures(url: string, stream: nat, followRedirect: bool, throwExceptions: bool,
                           addr: nat, offIsLong: bool, init: Option<nat>, lib: SetOracle, status: int)
    ensures var st := DownloadStep(url, stream, followRedirect, throwExceptions, addr, offIsLong, init, lib, status);
      && (st.out.Returned? ==>
            && st.s.curl.Some?
            && st.s.throwExceptions == throwExceptions
            && st.s.err == status
            && SlotOf(st.s, Write) == Slot(StreamWriter(stream), Null))
      && ((forall key, a :: lib(key, a) == OK) && st.out.Returned? && st.s.curl.Some? ==>
        && st.s.curl.value.opts == map[OPT_USERAGENT := PointerArg(Text(DefaultUserAgent)), OPT_URL := PointerArg(Text(url)),
                                       OPT_FOLLOWLOCATION := LongArg(if followRedirect then 1 else 0),
                                       OPT_WRITEFUNCTION := FunctionArg(TrampolineOf(Write)), OPT_WRITEDATA := PointerArg(Record(addr))]
        && Invoke(st.s, Write) == Dispatched(Dispatch(Some(Call(StreamWriter(stream), Null, Null)), Forwarded)))
  {
    var c := CreateStep(addr, init, lib, offIsLong);
    CreateDefaults(addr, init, lib, offIsLong);
    if c.out.Returned? {
      AdmitsExactly(OPT_URL, ObjPtr);
      AdmitsExactly(OPT_FOLLOWLOCATION, Long);
      var s1 := c.s.(throwExceptions := throwExceptions);
      var u := ThenSet(Step(s1, Returned(())), OPT_URL, FromString(url), lib, offIsLong);
      var f := ThenSet(u, OPT_FOLLOWLOCATION, FromBool(followRedirect), lib, offIsLong);
      if f.out.Returned? {
        StreamTransferReturned(f.s, Write, StreamWriter(stream), lib, offIsLong, status);
      }
    }
  }

  /** Without exceptions, a download always returns its Easy once the constructor succeeded;
      with exceptions and a libcurl that accepts every option, it raises exactly when perform
      fails, with perform's status. */
  lemma DownloadOutcome(url: string, stream: nat, followRedirect: bool, throwExceptions: bool,
                        addr: nat, offIsLong: bool, init: Option<nat>, lib: SetOracle, status: int)
    requires init.Some? && lib(OPT_USERAGENT, PointerArg(Text(DefaultUserAgent))) == OK
    ensures var st := DownloadStep(url, stream, followRedirect, throwExceptions, addr, offIsLong, init, lib, status);
      && (!throwExceptions ==> st.out.Returned?)
      && (throwExceptions && (forall key, a :: lib(key, a) == OK) ==>
            (st.out.Raised? <==> status != OK) && (st.out.Raised? ==> st.out.failure == CurlError(status)))
  {
    var c := CreateStep(addr, init, lib, offIsLong);
    CreateDefaults(addr, init, lib, offIsLong);
    AdmitsExactly(OPT_URL, ObjPtr);
    AdmitsExactly(OPT_FOLLOWLOCATION, Long);
    var s1 := c.s.(throwExceptions := throwExceptions);
    var u := ThenSet(Step(s1, Returned(())), OPT_URL, FromString(url), lib, offIsLong);
    var f := ThenSet(u, OPT_FOLLOWLOCATION, FromBool(followRedirect), lib, offIsLong);
    if !throwExceptions {
      assert f.out.Returned?;
      RegisterCompletes(f.s, Write, StreamWriter(stream), Null, lib, offIsLong);
      RegisterStoresSlot(f.s, Write, StreamWriter(stream), Null, lib, offIsLong);
      assert StreamTransferStep(f.s, Write, StreamWriter(stream), lib, offIsLong, status).out.Returned?;
    } else if forall key, a :: lib(key, a) == OK {
      assert f.out.Returned?;
      StreamTransferInstalls(f.s, Write, StreamWriter(stream), lib, offIsLong, status);
    }
  }

  // -- upload

  /** The headers upload sends for a transfer of unknown size. */
  const ChunkedHeader: string := "Transfer-Encoding: chunked"
  const NoExpectHeader: string := "Expect:"

  /** The chain the local List of upload holds: the two headers appended when the size is -1
      (`alloc1` and `alloc2` say whether curl_slist_append could allocate), nothing otherwise. */
  function UploadHeaders(size: int, alloc1: bool, alloc2: bool): (c: Option<seq<string>>)
    ensures size != -1 ==> c.None?
    ensures size == -1 ==> (c.Some? <==> alloc1 || alloc2)
    ensures size == -1 ==>
      c.GetOr([]) == (if alloc1 then [ChunkedHeader] else []) + (if alloc2 then [NoExpectHeader] else [])
  {
    if size == -1 then
      var first := AppendChainKeeping(None, ChunkedHeader, alloc1);
      KeepingNeverLoses(None, ChunkedHeader, alloc1);
      KeepingNeverLoses(first, NoExpectHeader, alloc2);
      AppendChainKeeping(first, NoExpectHeader, alloc2)
    else
      None
  }

  /** What upload does to the Easy it builds and how it ends, with the option table libcurl
      sees when the transfer starts (None when no transfer starts). */
  datatype UploadRun = UploadRun(st: Step<()>, atTransfer: Option<map<int, Arg>>)

  /** The five option calls upload starts with. */
  function UploadOptions(s: State, url: string, username: string, password: string, size: int,
                         lib: SetOracle, offIsLong: bool): Step<()>
  {
    ThenSet(ThenSet(ThenSet(ThenSet(ThenSet(Step(s, Returned(())),
      OPT_URL, FromString(url), lib, offIsLong),
      OPT_USERNAME, FromString(username), lib, offIsLong),
      OPT_PASSWORD, FromString(password), lib, offIsLong),
      OPT_INFILESIZE_LARGE, OffArg(size), lib, offIsLong),
      OPT_UPLOAD, FromBool(true), lib, offIsLong)
  }

  /** For an unknown size, the HTTPHEADER option pointing at the local List's chain. */
  function UploadHeaderOption(st: Step<()>, size: int, lib: SetOracle, offIsLong: bool, alloc1: bool, alloc2: bool): Step<()> {
    if size == -1 then
      ThenSet(st, OPT_HTTPHEADER, PointerArg(ListPointer(UploadHeaders(size, alloc1, alloc2))), lib, offIsLong)
    else
      st
  }

  /** The table when the transfer starts: after the read registration, if everything before it
      returned. */
  function TableAtTransfer(st: Step<()>, stream: nat, lib: SetOracle, offIsLong: bool): Option<map<int, Arg>> {
    var reg := RegisterStep(st.s, Read, StreamReader(stream), Null, lib, offIsLong);
    if st.out.Returned? && reg.out.Returned? && reg.s.curl.Some? then Some(reg.s.curl.value.opts) else None
  }

  /** The transfer and the reset of HTTPHEADER to nullptr after it. */
  function UploadFinish(st: Step<()>, stream: nat, lib: SetOracle, offIsLong: bool, status: int): Step<()> {
    ThenSet(ThenTransfer(st, Read, StreamReader(stream), lib, offIsLong, status), OPT_HTTPHEADER, NullArg, lib, offIsLong)
  }

  function UploadStep(stream: nat, url: string, username: string, password: string, size: int, throwExceptions: bool,
                      addr: nat, offIsLong: bool, init: Option<nat>, lib: SetOracle, alloc1: bool, alloc2: bool,
                      status: int): UploadRun
  {
    var c := CreateStep(addr, init, lib, offIsLong);
    if c.out.Raised? then UploadRun(c, None)
    else
      var configured := UploadHeaderOption(UploadOptions(c.s.(throwExceptions := throwExceptions), url, username, password, size,
                                                         lib, offIsLong), size, lib, offIsLong, alloc1, alloc2);
      UploadRun(UploadFinish(configured, stream, lib, offIsLong, status), TableAtTransfer(configured, stream, lib, offIsLong))
  }

  /** The five option calls of upload. */
  method SetUploadOptions(e: Easy, url: string, username: string, password: string, size: int, lib: SetOracle)
    returns (o: Outcome<()>)
    requires e.impl.Some?
    modifies e
    ensures var st := UploadOptions(old(e.impl.value), url, username, password, size, lib, e.offIsLong);
      e.impl == Some(st.s) && o == st.out
  {
    ghost var st := Step(e.impl.value, Returned(()));
    var r := e.SetString(OPT_URL, url, lib);
    st := ThenSet(st, OPT_URL, FromString(url), lib, e.offIsLong);
    if r.Raised? {
      return Raised(r.failure);
    }
    r := e.SetString(OPT_USERNAME, username, lib);
    st := ThenSet(st, OPT_USERNAME, FromString(username), lib, e.offIsLong);
    if r.Raised? {
      return Raised(r.failure);
    }
    r := e.SetString(OPT_PASSWORD, password, lib);
    st := ThenSet(st, OPT_PASSWORD, FromString(password), lib, e.offIsLong);
    if r.Raised? {
      return Raised(r.failure);
    }
    r := e.Set(OPT_INFILESIZE_LARGE, OffArg(size), lib);
    st := ThenSet(st, OPT_INFILESIZE_LARGE, OffArg(size), lib, e.offIsLong);
    if r.Raised? {
      return Raised(r.failure);
    }
    r := e.SetBool(OPT_UPLOAD, true, lib);
    st := ThenSet(st, OPT_UPLOAD, FromBool(true), lib, e.offIsLong);
    if r.Raised? {
      return Raised(r.failure);
    }
    o := Returned(());
  }

  /** For an unknown size, fill `headers` with the two upload headers and point HTTPHEADER at
      them. */
  method SetUploadHeaders(e: Easy, headers: List, size: int, lib: SetOracle, alloc1: bool, alloc2: bool)
    returns (o: Outcome<()>)
    requires e.impl.Some? && headers.chain.None?
    modifies e, headers
    ensures var st := UploadHeaderOption(Step(old(e.impl.value), Returned(())), size, lib, e.offIsLong, alloc1, alloc2);
      e.impl == Some(st.s) && o == st.out
    ensures headers.chain == (if size == -1 then UploadHeaders(size, alloc1, alloc2) else None)
  {
    o := Returned(());
    if size == -1 {
      headers.Append(ChunkedHeader, alloc1);
      headers.Append(NoExpectHeader, alloc2);
      var p := headers.Get();
      var t := e.Set(OPT_HTTPHEADER, PointerArg(ListPointer(p)), lib);
      if t.Raised? {
        o := Raised(t.failure);
      }
    }
  }

  /** The transfer, then HTTPHEADER back to nullptr. */
  method FinishUpload(e: Easy, stream: nat, lib: SetOracle, status: int) returns (o: Outcome<()>)
    requires e.impl.Some?
    modifies e
    ensures var st := UploadFinish(Step(old(e.impl.value), Returned(())), stream, lib, e.offIsLong, status);
      e.impl == Some(st.s) && o == st.out
  {
    var t := e.UploadFrom(stream, lib, status);
    if t.Raised? {
      return Raised(t.failure);
    }
    t := e.Set(OPT_HTTPHEADER, NullArg, lib);
    if t.Raised? {
      return Raised(t.failure);
    }
    o := Returned(());
  }

  /** The body of upload once its Easy is built: the options, the local List of headers, the
      transfer and the reset of HTTPHEADER, stopping at the first raise; the List is freed on
      every path. */
  method RunUpload(e: Easy, stream: nat, url: string, username: string, password: string, size: int,
                   lib: SetOracle, alloc1: bool, alloc2: bool, status: int)
    returns (o: Outcome<()>, ghost atTransfer: Option<map<int, Arg>>)
    requires e.impl.Some?
    modifies e
    ensures var configured := UploadHeaderOption(UploadOptions(old(e.impl.value), url, username, password, size,
                                                               lib, e.offIsLong), size, lib, e.offIsLong, alloc1, alloc2);
      var finished := UploadFinish(configured, stream, lib, e.offIsLong, status);
      && e.impl == Some(finished.s) && o == finished.out
      && atTransfer == TableAtTransfer(configured, stream, lib, e.offIsLong)
  {
    ghost var options := UploadOptions(e.impl.value, url, username, password, size, lib, e.offIsLong);
    ghost var configured := UploadHeaderOption(options, size, lib, e.offIsLong, alloc1, alloc2);
    ghost var finished := UploadFinish(configured, stream, lib, e.offIsLong, status);
    atTransfer := TableAtTransfer(configured, stream, lib, e.offIsLong);
    o := SetUploadOptions(e, url, username, password, size, lib);
    if o.Raised? {
      assert configured == options && finished == options;
      return;
    }
    var headers := new List.FromPointer(None);
    o := SetUploadHeaders(e, headers, size, lib, alloc1, alloc2);
    assert e.impl == Some(configured.s) && o == configured.out;
    if o.Raised? {
      assert finished == configured;
      var _ := headers.Destroy();
      return;
    }
    o := FinishUpload(e, stream, lib, status);
    var _ := headers.Destroy();
  }

  /** curlite::upload(istr, url, username, password, size, throwExceptions). */
  method Upload(stream: nat, url: string, username: string, password: string, size: int, throwExceptions: bool,
                addr: nat, offIsLong: bool, init: Option<nat>, lib: SetOracle, alloc1: bool, alloc2: bool,
                status: int)
    returns (r: Outcome<Easy>, ghost atTransfer: Option<map<int, Arg>>)
    ensures var run := UploadStep(stream, url, username, password, size, throwExceptions, addr, offIsLong, init, lib,
                                  alloc1, alloc2, status);
      && (r.Raised? <==> run.st.out.Raised?)
      && (r.Raised? ==> r.failure == run.st.out.failure)
      && (r.Returned? ==> fresh(r.value) && r.value.impl == Some(run.st.s) && r.value.offIsLong == offIsLong)
      && atTransfer == run.atTransfer
  {
    var c, _ := Easy.Create(addr, offIsLong, init, lib);
    if c.Raised? {
      return Raised(c.failure), None;
    }
    var e := c.value;
    e.SetExceptionMode(throwExceptions);
    var o;
    o, atTransfer := RunUpload(e, stream, url, username, password, size, lib, alloc1, alloc2, status);
    if o.Raised? {
      var _ := e.Destroy();
      return Raised(o.failure), atTransfer;
    }
    var moved := new Easy.Move(e);
    var _ := e.Destroy();
    r := Returned(moved);
  }

  /** The table after the five option calls, when they all returned. */
  function OptionsTable(opts: map<int, Arg>, url: string, username: string, password: string, size: int): map<int, Arg>
  {
    opts[OPT_URL := FromString(url)][OPT_USERNAME := FromString(username)][OPT_PASSWORD := FromString(password)]
        [OPT_INFILESIZE_LARGE := OffArg(size)][OPT_UPLOAD := FromBool(true)]
  }

  /** The five option calls change only the table and the last error, and every value they pass
      is admitted. When they return, every value is in the table; they return without exception
      mode, and in exception mode when libcurl accepts every value, leaving the error OK. */
  lemma UploadOptionsApplied(s: State, url: string, username: string, password: string, size: int,
                             lib: SetOracle, offIsLong: bool)
    requires s.curl.Some?
    ensures var r := UploadOptions(s, url, username, password, size, lib, offIsLong);
      && r.s == s.(curl := r.s.curl, err := r.s.err)
      && r.s.curl.Some? && r.s.curl.value.id == s.curl.value.id
      && (r.out.Returned? && (forall key, a :: lib(key, a) == OK) ==>
            r.s.curl.value.opts == OptionsTable(s.curl.value.opts, url, username, password, size))
      && (!s.throwExceptions ==> r.out.Returned?)
      && (s.throwExceptions && (forall key, a :: lib(key, a) == OK) ==> r.out.Returned? && r.s.err == OK)
  {
    AdmitsExactly(OPT_URL, ObjPtr);
    AdmitsExactly(OPT_USERNAME, ObjPtr);
    AdmitsExactly(OPT_PASSWORD, ObjPtr);
    AdmitsExactly(OPT_UPLOAD, Long);
    CorrectedAdmitsOffValues(OPT_INFILESIZE_LARGE, size, offIsLong, OffT);
    var u1 := ThenSet(Step(s, Returned(())), OPT_URL, FromString(url), lib, offIsLong);
    var u2 := ThenSet(u1, OPT_USERNAME, FromString(username), lib, offIsLong);
    var u3 := ThenSet(u2, OPT_PASSWORD, FromString(password), lib, offIsLong);
    var u4 := ThenSet(u3, OPT_INFILESIZE_LARGE, OffArg(size), lib, offIsLong);
    var u5 := ThenSet(u4, OPT_UPLOAD, FromBool(true), lib, offIsLong);
    assert u5 == UploadOptions(s, url, username, password, size, lib, offIsLong);
  }

  /** HTTPHEADER, set only for an unknown size, changes only the table and the last error; it is
      admitted for every value, so it returns without exception mode or with a libcurl that
      accepts every value. */
  lemma UploadHeaderApplied(st: Step<()>, size: int, lib: SetOracle, offIsLong: bool, alloc1: bool, alloc2: bool)
    requires st.s.curl.Some?
    ensures var r := UploadHeaderOption(st, size, lib, offIsLong, alloc1, alloc2);
      && r.s == st.s.(curl := r.s.curl, err := r.s.err)
      && r.s.curl.Some? && r.s.curl.value.id == st.s.curl.value.id
      && (st.out.Raised? ==> r == st)
      && (st.out.Returned? && r.out.Returned? && (forall key, a :: lib(key, a) == OK) ==>
            r.s.curl.value.opts == (if size == -1 then st.s.curl.value.opts[OPT_HTTPHEADER := PointerArg(ListPointer(UploadHeaders(size, alloc1, alloc2)))]
                                    else st.s.curl.value.opts))
      && (st.out.Returned? && (!st.s.throwExceptions || forall key, a :: lib(key, a) == OK) ==>
            && r.out.Returned?
            && (st.s.throwExceptions && st.s.err == OK ==> r.s.err == OK))
  {
    AdmitsExactly(OPT_HTTPHEADER, ObjPtr);
  }

  /** The reset of HTTPHEADER to nullptr after the transfer, which is admitted for every key. */
  lemma UploadFinishApplied(st: Step<()>, stream: nat, lib: SetOracle, offIsLong: bool, status: int)
    requires st.s.curl.Some? && st.out.Returned?
    ensures var r := UploadFinish(st, stream, lib, offIsLong, status);
      var table := TableAtTransfer(st, stream, lib, offIsLong);
      && r.s.curl.Some?
      && (r.out.Returned? ==>
            && table.Some?
            && r.s.throwExceptions == st.s.throwExceptions && r.s.addr == st.s.addr
            && SlotOf(r.s, Read) == Slot(StreamReader(stream), Null))
      && ((forall key, a :: lib(key, a) == OK) ==>
            && (table.Some? ==> table.value == RegisteredTable(st.s.curl.value.opts, Read, true, st.s.addr))
            && (r.out.Returned? ==> r.s.curl.value.opts == table.value[OPT_HTTPHEADER := NullArg]))
      && ((!st.s.throwExceptions || forall key, a :: lib(key, a) == OK) ==>
            && table.Some?
            && (!st.s.throwExceptions ==> r.out.Returned?)
            && (st.s.throwExceptions ==> (r.out.Raised? <==> status != OK))
            && (st.s.throwExceptions && r.out.Raised? ==> r.out.failure == CurlError(status))
            && (st.s.throwExceptions && r.out.Returned? ==> r.s.err == OK))
  {
    AdmitsExactly(OPT_HTTPHEADER, NullPtr);
    var reg := RegisterStep(st.s, Read, StreamReader(stream), Null, lib, offIsLong);
    RegisterApplied(st.s, Read, StreamReader(stream), Null, lib, offIsLong);
    RegisterStoresSlot(st.s, Read, StreamReader(stream), Null, lib, offIsLong);
    StreamTransferReturned(st.s, Read, StreamReader(stream), lib, offIsLong, status);
    if !st.s.throwExceptions || forall key, a :: lib(key, a) == OK {
      RegisterCompletes(st.s, Read, StreamReader(stream), Null, lib, offIsLong);
    }
  }

  /** The table libcurl holds during an upload's transfer, apart from HTTPHEADER: the user agent,
      the URL, the credentials, the size, the upload switch, and the read trampoline with its
      record. */
  function TransferTable(url: string, username: string, password: string, size: int, addr: nat): map<int, Arg> {
    map[OPT_USERAGENT := PointerArg(Text(DefaultUserAgent)), OPT_URL := PointerArg(Text(url)),
        OPT_USERNAME := PointerArg(Text(username)), OPT_PASSWORD := PointerArg(Text(password)),
        OPT_INFILESIZE_LARGE := OffArg(size), OPT_UPLOAD := LongArg(1),
        OPT_READFUNCTION := FunctionArg(TrampolineOf(Read)), OPT_READDATA := PointerArg(Record(addr))]
  }

  /** The table the constructor, the five option calls, HTTPHEADER and the read registration
      build up, in that order. */
  lemma TransferTableAssembled(url: string, username: string, password: string, size: int, addr: nat,
                               header: Option<Arg>)
    ensures var created := map[OPT_USERAGENT := PointerArg(Text(DefaultUserAgent))];
      var options := OptionsTable(created, url, username, password, size);
      var table := TransferTable(url, username, password, size, addr);
      && (header.None? ==> RegisteredTable(options, Read, true, addr) == table)
      && (header.Some? ==>
            RegisteredTable(options[OPT_HTTPHEADER := header.value], Read, true, addr) == table[OPT_HTTPHEADER := header.value])
  {
    var created := map[OPT_USERAGENT := PointerArg(Text(DefaultUserAgent))];
    var options := OptionsTable(created, url, username, password, size);
    var table := TransferTable(url, username, password, size, addr);
    var with := if header.Some? then options[OPT_HTTPHEADER := header.value] else options;
    var expected := if header.Some? then table[OPT_HTTPHEADER := header.value] else table;
    var registered := RegisteredTable(with, Read, true, addr);
    assert registered.Keys == expected.Keys;
    forall key | key in registered.Keys
      ensures registered[key] == expected[key]
    {
    }
  }

  /** The option calls, HTTPHEADER, the transfer and the reset on a constructed record: the
      table at the transfer is the registered one over the options and the header, and a run
      that returns leaves it with HTTPHEADER null and the stream reader in the read slot. */
  lemma UploadAfterCreate(s: State, url: string, username: string, password: string, size: int, lib: SetOracle,
                          offIsLong: bool, alloc1: bool, alloc2: bool, stream: nat, status: int)
    requires s.curl.Some?
    ensures var configured := UploadHeaderOption(UploadOptions(s, url, username, password, size, lib, offIsLong),
                                                 size, lib, offIsLong, alloc1, alloc2);
      var finished := UploadFinish(configured, stream, lib, offIsLong, status);
      var atTransfer := TableAtTransfer(configured, stream, lib, offIsLong);
      var options := OptionsTable(s.curl.value.opts, url, username, password, size);
      var withHeader := if size == -1 then options[OPT_HTTPHEADER := PointerArg(ListPointer(UploadHeaders(size, alloc1, alloc2)))]
                        else options;
      && ((forall key, a :: lib(key, a) == OK) && atTransfer.Some? ==>
            atTransfer.value == RegisteredTable(withHeader, Read, true, s.addr))
      && ((forall key, a :: lib(key, a) == OK) && finished.out.Returned? && atTransfer.Some? && finished.s.curl.Some? ==>
            finished.s.curl.value.opts == atTransfer.value[OPT_HTTPHEADER := NullArg])
      && (finished.out.Returned? ==>
            && atTransfer.Some?
            && finished.s.curl.Some?
            && finished.s.throwExceptions == s.throwExceptions
            && SlotOf(finished.s, Read) == Slot(StreamReader(stream), Null)
            && finished.s.addr == s.addr)
  {
    var options := UploadOptions(s, url, username, password, size, lib, offIsLong);
    UploadOptionsApplied(s, url, username, password, size, lib, offIsLong);
    var configured := UploadHeaderOption(options, size, lib, offIsLong, alloc1, alloc2);
    UploadHeaderApplied(options, size, lib, offIsLong, alloc1, alloc2);
    if configured.out.Returned? {
      UploadFinishApplied(configured, stream, lib, offIsLong, status);
    }
  }

  /** UploadAfterCreate on the record the constructor builds: the tables in full. */
  lemma UploadFromCreated(s: State, url: string, username: string, password: string, size: int, lib: SetOracle,
                          offIsLong: bool, alloc1: bool, alloc2: bool, stream: nat, status: int)
    requires s.curl.Some? && s.curl.value.opts == map[OPT_USERAGENT := PointerArg(Text(DefaultUserAgent))]
    ensures var configured := UploadHeaderOption(UploadOptions(s, url, username, password, size, lib, offIsLong),
                                                 size, lib, offIsLong, alloc1, alloc2);
      var finished := UploadFinish(configured, stream, lib, offIsLong, status);
      var atTransfer := TableAtTransfer(configured, stream, lib, offIsLong);
      var table := TransferTable(url, username, password, size, s.addr);
      && ((forall key, a :: lib(key, a) == OK) && atTransfer.Some? ==>
            atTransfer.value == if size == -1 then table[OPT_HTTPHEADER := PointerArg(ListPointer(UploadHeaders(size, alloc1, alloc2)))]
                                else table)
      && ((forall key, a :: lib(key, a) == OK) && finished.out.Returned? && finished.s.curl.Some? ==>
            finished.s.curl.value.opts == table[OPT_HTTPHEADER := NullArg])
      && (finished.out.Returned? ==>
            && atTransfer.Some?
            && finished.s.curl.Some?
            && finished.s.throwExceptions == s.throwExceptions
            && SlotOf(finished.s, Read) == Slot(StreamReader(stream), Null)
            && finished.s.addr == s.addr)
  {
    UploadAfterCreate(s, url, username, password, size, lib, offIsLong, alloc1, alloc2, stream, status);
    var header := if size == -1 then Some(PointerArg(ListPointer(UploadHeaders(size, alloc1, alloc2)))) else None;
    TransferTableAssembled(url, username, password, size, s.addr, header);
    var table := TransferTable(url, username, password, size, s.addr);
    if size == -1 {
      assert table[OPT_HTTPHEADER := header.value][OPT_HTTPHEADER := NullArg] == table[OPT_HTTPHEADER := NullArg];
    }
  }

  /** On a record holding the upload's table after the transfer and the stream reader in its read
      slot, libcurl's read callback reaches the stream reader. */
  lemma StreamReaderReached(s: State, url: string, username: string, password: string, size: int, stream: nat)
    requires s.curl.Some? && s.curl.value.opts == TransferTable(url, username, password, size, s.addr)[OPT_HTTPHEADER := NullArg]
    requires SlotOf(s, Read) == Slot(StreamReader(stream), Null)
    ensures Invoke(s, Read) == Dispatched(Dispatch(Some(Call(StreamReader(stream), Null, Null)), Forwarded))
  {
  }

  /** When an upload's transfer starts, HTTPHEADER points at the local List's chain of the two
      headers exactly when the size is -1 and is absent otherwise. An upload that returns has
      run its transfer, and hands back an Easy in the requested exception mode whose HTTPHEADER
      is null again and whose read handler, the stream reader, is what libcurl reaches. */
  lemma UploadConfigures(stream: nat, url: string, username: string, password: string, size: int,
                         throwExceptions: bool, addr: nat, offIsLong: bool, init: Option<nat>, lib: SetOracle,
                         alloc1: bool, alloc2: bool, status: int)
    ensures var run := UploadStep(stream, url, username, password, size, throwExceptions, addr, offIsLong, init, lib,
                                  alloc1, alloc2, status);
      var table := TransferTable(url, username, password, size, addr);
      && ((forall key, a :: lib(key, a) == OK) && run.atTransfer.Some? ==>
            run.atTransfer.value == if size == -1 then table[OPT_HTTPHEADER := PointerArg(ListPointer(UploadHeaders(size, alloc1, alloc2)))]
                                    else table)
      && (run.st.out.Returned? ==>
            && run.atTransfer.Some?
            && run.st.s.curl.Some?
            && run.st.s.throwExceptions == throwExceptions
            && SlotOf(run.st.s, Read) == Slot(StreamReader(stream), Null))
      && ((forall key, a :: lib(key, a) == OK) && run.st.out.Returned? && run.st.s.curl.Some? ==>
            && run.st.s.curl.value.opts == table[OPT_HTTPHEADER := NullArg]
            && Invoke(run.st.s, Read) == Dispatched(Dispatch(Some(Call(StreamReader(stream), Null, Null)), Forwarded)))
  {
    var c := CreateStep(addr, init, lib, offIsLong);
    CreateDefaults(addr, init, lib, offIsLong);
    if c.out.Returned? {
      var s1 := c.s.(throwExceptions := throwExceptions);
      assert s1.addr == addr;
      UploadFromCreated(s1, url, username, password, size, lib, offIsLong, alloc1, alloc2, stream, status);
      var configured := UploadHeaderOption(UploadOptions(s1, url, username, password, size, lib, offIsLong),
                                           size, lib, offIsLong, alloc1, alloc2);
      var finished := UploadFinish(configured, stream, lib, offIsLong, status);
      assert UploadStep(stream, url, username, password, size, throwExceptions, addr, offIsLong, init, lib, alloc1, alloc2, status)
          == UploadRun(finished, TableAtTransfer(configured, stream, lib, offIsLong));
      if (forall key, a :: lib(key, a) == OK) && finished.out.Returned? {
        StreamReaderReached(finished.s, url, username, password, size, stream);
      }
    }
  }

  /** Once the constructor succeeded, an upload without exception mode always runs its transfer
      and returns its Easy, whose last error is then the status of the HTTPHEADER reset rather
      than perform's. In exception mode, with a libcurl that accepts every value, it runs its
      transfer and raises exactly when perform fails, with perform's status. */
  lemma UploadOutcome(stream: nat, url: string, username: string, password: string, size: int,
                      throwExceptions: bool, addr: nat, offIsLong: bool, init: Option<nat>, lib: SetOracle,
                      alloc1: bool, alloc2: bool, status: int)
    requires init.Some? && lib(OPT_USERAGENT, PointerArg(Text(DefaultUserAgent))) == OK
    ensures var run := UploadStep(stream, url, username, password, size, throwExceptions, addr, offIsLong, init, lib,
                                  alloc1, alloc2, status);
      && (!throwExceptions ==>
            run.st.out.Returned? && run.atTransfer.Some? && run.st.s.err == lib(OPT_HTTPHEADER, NullArg))
      && (throwExceptions && (forall key, a :: lib(key, a) == OK) ==>
            && run.atTransfer.Some?
            && (run.st.out.Raised? <==> status != OK)
            && (run.st.out.Raised? ==> run.st.out.failure == CurlError(status)))
  {
    var c := CreateStep(addr, init, lib, offIsLong);
    CreateDefaults(addr, init, lib, offIsLong);
    var s1 := c.s.(throwExceptions := throwExceptions);
    var options := UploadOptions(s1, url, username, password, size, lib, offIsLong);
    UploadOptionsApplied(s1, url, username, password, size, lib, offIsLong);
    var configured := UploadHeaderOption(options, size, lib, offIsLong, alloc1, alloc2);
    UploadHeaderApplied(options, size, lib, offIsLong, alloc1, alloc2);
    assert UploadStep(stream, url, username, password, size, throwExceptions, addr, offIsLong, init, lib, alloc1, alloc2, status)
        == UploadRun(UploadFinish(configured, stream, lib, offIsLong, status), TableAtTransfer(configured, stream, lib, offIsLong));
    if !throwExceptions || forall key, a :: lib(key, a) == OK {
      UploadFinishApplied(configured, stream, lib, offIsLong, status);
      AdmitsExactly(OPT_HTTPHEADER, NullPtr);
    }
  }
}
