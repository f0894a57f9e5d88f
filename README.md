# curlite in Dafny

A model of curlite, a thin C++ wrapper over libcurl's easy interface: the `curlite::Easy`
session object with its private record (`Easy::Pimpl`), the run-time type check that
`Easy::set` and `Easy::getInfo` make before calling libcurl, the fifteen static callback
trampolines and the handlers behind them, the owners of native chains `curlite::List`
(`curl_slist`) and `curlite::Form` (`curl_httppost`), and the two one-call helpers
`curlite::download` and `curlite::upload`.

libcurl itself is an oracle. `curl_easy_setopt` is a function `lib(key, value)` that gives
the status of each call. The results of `curl_easy_init`, `curl_easy_perform`,
`curl_easy_pause`, `curl_easy_send`/`recv`, `curl_easy_getinfo`, `curl_slist_append` and
`curl_formadd` are parameters of the operations that call them. The native handle carries
the table of options libcurl has accepted, so that what a sequence of calls leaves behind can
be stated: a value libcurl refuses is not entered, and a call on a null handle gets
BAD_FUNCTION_ARGUMENT without reaching the oracle, as libcurl answers for a null handle. What
the table holds after a registration or a transfer is stated for a libcurl that accepts every
call. A C++ exception is a value: every operation ends in
`Returned(value)` or `Raised(failure)`, and a sequence stops at the first `Raised`. Whether
`curl_off_t` is the same type as `long` on the target platform is the flag `offIsLong`.

Modules, one per part of the program:

- `Curl`: the constants of curl.h the wrapper uses (option keys and categories, info type
  bits, status codes, callback sentinels).
- `Outcomes`, `Pointers`: `Option`, `Outcome` and the pointer values handed to libcurl.
- `OptionTypes`: the `OptionTypeCode` and `InfoTypeCode` tables and the category
  arithmetic of `set` and `getInfo` (pure).
- `Callbacks`: the callback kinds, slots, trampolines and the lambdas that the simplified
  registrations and stream operators install (pure).
- `EasyState`: the record and one function per operation of `Easy`, from the record before
  to the record after and the way the operation ends, with the lemmas about them.
- `EasyApi`: `class Easy`, whose methods update the record in place and are proved against
  those functions.
- `Lists`, `Forms`: `class List` and `class Form`, with the functions and lemmas that specify
  their chains.
- `Transfers`: `download` and `upload`, with the functions that describe their call
  sequences and the lemmas about them.

Behaviours the proofs make explicit:

- On a platform where `curl_off_t` is `long`, the check in `set` as written refuses every
  `curl_off_t` value for an OFF_T key, which would stop `upload` in exception mode before
  its transfer. The model uses the corrected check (see Findings).
- When `curl_slist_append` fails, `List::append` as written drops the chain it held. The
  model uses the corrected append (see Findings).
- `Easy()` leaks the native handle when setting the default user agent raises.
- `onChunkBegin`/`onChunkEnd` share one DATA option, and so do `onProgress`/`onXferInfo`.
  Clearing one of a pair leaves the other's trampoline installed but without its record.
- The handlers that `reset` does not clear stay in their slots, but are no longer installed
  in libcurl.
- Without exception mode, the Easy returned by `upload` reports the status of the final
  HTTPHEADER reset rather than perform's status.

## Model

| member | source | states |
|---|---|---|
| OptionTypes.KeyTypeCode | curlite.hpp:303 | the key rounded toward zero to a multiple of the category interval: a multiple of it, at most one interval away from the key, on the key's side of zero |
| OptionTypes.AdmitsExactly | curlite.hpp:303-307 | set's check admits a category exactly for the keys of its range: LONG values only for keys within one interval of zero, nullptr only outside it, other categories only in their own range |
| OptionTypes.NullPointerAdmitted | curlite.hpp:304-307 | nullptr passes for every key whose category is not LONG, OFF_T keys included, and fails for every LONG key |
| OptionTypes.OffValueRefusedWhenLong | curlite.hpp:291-292 | when curl_off_t is long, every OFF_T key refuses a curl_off_t value, which every OFF_T key accepts on other platforms |
| OptionTypes.CorrectedAdmitsOffValues | curlite.hpp:291-307 | the corrected check accepts a curl_off_t value for every OFF_T key on every platform, and agrees with the written check on every other key |
| OptionTypes.FromInt | curlite.hpp:316-319 | an int is widened to a long with the same value and is checked as LONG |
| OptionTypes.FromBool | curlite.hpp:321-324 | a bool is widened to the long 1 or 0 and is checked as LONG |
| OptionTypes.FromString | curlite.hpp:326-329 | a std::string is passed as its C string and is checked as an object pointer |
| OptionTypes.InfoTypeBits | curlite.hpp:348 | `key & CURLINFO_TYPEMASK` is a multiple of 0x100000 within the mask and within 0x100000 below the key's low 24 bits |
| OptionTypes.InfoAdmitsExactly | curlite.hpp:332-348 | getInfo admits a value type exactly for the keys whose type bits name its code |
| Callbacks.Trampoline | curlite.cpp:115-308 | a handler is called exactly when the opaque pointer is non-null and the slot holds a handler, with the slot's data; ioctl and sslContext pass the CURL*, debug passes nullptr; the trampoline returns the handler's result, or its kind's sentinel when nothing is called; debug always returns 0 |
| Callbacks.TrampolineReturns | curlite.cpp:115-308 | from every trampoline but debug's, libcurl receives the handler's own result when the record holds a handler and the kind's sentinel otherwise; from debug's it always receives 0 |
| Callbacks.ReadAdapterReturn | curlite.cpp:503-510 | onRead_'s wrapper returns size*n for true; for false it returns READFUNC_ABORT, so libcurl aborts exactly on false |
| Callbacks.WriteAdapterReturn | curlite.cpp:512-528 | onWrite_'s and onHeader_'s wrapper is accepted by libcurl exactly when the callable says true or the buffer is empty |
| Callbacks.ProgressAdapterReturn | curlite.cpp:530-537 | onProgress_'s wrapper stops the transfer exactly when the callable says false, returning 0 or 1 |
| Callbacks.StreamWriterReturn | curlite.cpp:368-377 | the ostream writer is accepted exactly while the stream is good or the buffer is empty |
| Callbacks.StreamReaderReturn | curlite.cpp:357-366 | the istream reader returns exactly the count the stream delivered, which is at most the bytes asked for, so it never aborts the transfer while size*n is below READFUNC_ABORT |
| EasyState.NewState | curlite.cpp:107-113 | a fresh record has no handle, error OK, exceptions on, no user data, every slot empty |
| EasyState.HandleErrorStep | curlite.cpp:455-464 | the code always becomes the last error; the result is code == OK; it raises with that code exactly when the code is not OK and exception mode is on |
| EasyState.SetStep | curlite.hpp:295-314 | with the corrected check: a refused value records BAD_FUNCTION_ARGUMENT and leaves the table alone; an admitted one records libcurl's status (BAD_FUNCTION_ARGUMENT without a handle) and enters its value in the table only when libcurl accepts it; nothing else changes; raises exactly for a non-OK last error in exception mode |
| EasyState.RegistrationKeysAdmitted | curlite.cpp:539-675 | each kind's FUNCTION option takes a function pointer and its DATA option an object pointer, and the two are distinct keys |
| EasyState.RegistrationCalls | curlite.cpp:539-675 | onX makes three setopt calls for progress, xferInfo and debug, two for every other kind |
| EasyState.RegistrationCallsAdmitted | curlite.cpp:539-675 | every setopt call a registration makes passes set's check |
| EasyState.SetAllFrame | curlite.cpp:544-545 | a sequence of set calls changes only the handle's table and the last error, and keeps the handle |
| EasyState.SetAllApplied | curlite.cpp:544-545 | a sequence of admitted calls that runs to its end leaves in the table, in order, exactly the values libcurl accepted, with the last call's status as the last error (BAD_FUNCTION_ARGUMENT without a handle) |
| EasyState.SetAllReturns | curlite.cpp:544-545 | without exception mode, or on a handle where libcurl accepts every admitted call, a sequence of set calls runs to its end |
| EasyState.RegisterStoresSlot | curlite.cpp:539-546 | onX stores (f, data) in its own slot whatever its setopt calls do, and leaves every other slot and field alone |
| EasyState.RegisterFunctionEntry | curlite.cpp:539-675 | after onX returns, its FUNCTION option holds the trampoline (null for the empty handler) when libcurl accepted that call, and its previous entry when libcurl refused it |
| EasyState.AppliedRegistration | curlite.cpp:539-675 | the calls of onX leave FUNCTION = trampoline or null and DATA = record or null, plus NOPROGRESS = !installed for progress/xferInfo and VERBOSE = installed for debug |
| EasyState.RegisterApplied | curlite.cpp:539-675 | a registration that returns leaves the table with exactly the calls libcurl accepted applied, which is that table when it accepts them all, and the status of its last call; without a handle the status is BAD_FUNCTION_ARGUMENT |
| EasyState.RegisterCompletes | curlite.cpp:539-675 | without exception mode, or on a handle where libcurl accepts every call, onX returns; on a handle with every call accepted it leaves that table, and error OK in exception mode |
| EasyState.RegisterThenInvoke | curlite.cpp:115-308 | when libcurl accepts every call: after registering a handler, libcurl's call reaches it with the slot's data (debug's result ignored); after registering the empty handler no trampoline is installed |
| EasyState.ChunkEndClearStopsChunkBegin | curlite.cpp:650-666 | when libcurl accepts every call, clearing the chunk-end handler nulls CHUNK_DATA, so the chunk-begin trampoline, still installed with its handler stored, returns CHUNK_BGN_FUNC_FAIL |
| EasyState.ProgressClearStopsXferInfo | curlite.cpp:566-621 | when libcurl accepts every call, clearing the progress handler nulls the shared data option and sets NOPROGRESS, so the xferInfo trampoline returns 1 although its handler stays stored |
| EasyState.SimpleHandler | curlite.cpp:503-537 | a simplified registration passes the empty handler exactly for an empty callable, otherwise the wrapper of its kind (header shares write's) |
| EasyState.ResetInOrder | curlite.cpp:389-400 | reset restores libcurl's defaults, sets the error to OK, then clears read, write, header, progress and debug in that order, stopping at the first raise |
| EasyState.ClearAllFrame | curlite.cpp:389-400 | clearing leaves the slots of other kinds, the record's fields and the handle alone, and empties every cleared slot when it completes |
| EasyState.ClearAllUninstalls | curlite.cpp:389-400 | a clearing sequence that completes leaves, for every kind it cleared, a null FUNCTION option where libcurl accepted the null and the previous entry where it refused it |
| EasyState.ClearLeavesOtherFunction | curlite.cpp:389-400 | clearing one kind leaves every other kind's FUNCTION option as it was, whatever libcurl answers |
| EasyState.ClearAllReturns | curlite.cpp:389-400 | without exception mode, or on a handle where libcurl accepts every call, clearing completes, and keeps error OK in exception mode |
| EasyState.ResetSlots | curlite.cpp:389-400 | reset keeps the slots of the ten kinds it does not clear (xferInfo's included) and empties the five it clears when it completes |
| EasyState.ResetCompletes | curlite.cpp:389-400 | without exception mode, or on a handle where libcurl accepts every call, reset completes, with error OK in exception mode |
| EasyState.ResetLeavesKeptHandlersUninstalled | curlite.cpp:389-400 | a kept handler stays in its slot but libcurl never calls its trampoline again, however reset ends |
| EasyState.ResetUninstallsAll | curlite.cpp:389-400 | after a reset that completes, no trampoline of any kind is installed, whatever libcurl answers to the clearing calls |
| EasyState.CreateDefaults | curlite.cpp:313-324 | Easy() raises exactly when curl_easy_init fails or the user agent is refused; otherwise the handle holds only the user agent, error OK, exceptions on, no user data, every slot empty, no trampoline installed |
| EasyState.CountStep | curlite.cpp:409-421 | send and recv record the status and return the count only when it is OK, zero otherwise, or raise in exception mode |
| EasyState.StreamTransferInstalls | curlite.cpp:357-377 | when libcurl accepts every call, a stream operator on a handle leaves the stream handler installed and reached by libcurl, and reports perform's status |
| EasyState.StreamTransferReturned | curlite.cpp:357-377 | a stream operator that returns has stored the handler, applied the registration calls libcurl accepted (the whole registration when it accepts them all) and recorded perform's status, changing only the slot and the table |
| EasyState.GetInfoStep | curlite.hpp:340-355 | a mismatched type records BAD_FUNCTION_ARGUMENT without reaching libcurl, else libcurl's status; the fetched value comes back only for OK, else the default; raises for a non-OK error in exception mode |
| EasyState.GetInfoStringStep | curlite.hpp:357-362 | the string is libcurl's when the lookup succeeds with a non-null result, the default otherwise |
| EasyState.GetInfoMismatchRefused | curlite.hpp:348-354 | a key whose type bits differ from the value type's is refused: BAD_FUNCTION_ARGUMENT, then the default or an exception |
| EasyApi.UpToNul | curlite.cpp:476-487 | the C string of a buffer: the longest prefix without a NUL, stopping at the first NUL |
| EasyApi.NoNulKept | curlite.cpp:476-487 | a buffer without NUL is its own C string |
| EasyApi.Easy.Allocate | curlite.cpp:313-314 | the object starts with a fresh record |
| EasyApi.Easy.Create | curlite.cpp:313-324 | Easy() ends as CreateStep says; the handle is leaked exactly when it was obtained and the constructor raises |
| EasyApi.Easy.Move | curlite.cpp:326-329 | the new object takes the other's record, which is left with none |
| EasyApi.Easy.Release | curlite.cpp:379-387 | hands back the held handle and leaves none; with no record, returns null |
| EasyApi.Easy.Destroy | curlite.cpp:331-336 | cleans up exactly the handle it held, leaving none |
| EasyApi.Easy.MoveAssign | curlite.cpp:338-350 | self-assignment changes nothing; otherwise cleans up this object's handle and swaps records, so the source gets this record without its handle |
| EasyApi.Easy.IsOk | curlite.cpp:352-355 | true exactly when the last error is OK |
| EasyApi.Easy.Get | curlite.cpp:430-433 | the handle held |
| EasyApi.Easy.SetExceptionMode | curlite.cpp:435-438 | sets the mode, nothing else |
| EasyApi.Easy.ExceptionMode | curlite.cpp:440-443 | the mode |
| EasyApi.Easy.Error | curlite.cpp:445-448 | the last error |
| EasyApi.Easy.ErrorString | curlite.cpp:450-453 | the text libcurl gives for the last error |
| EasyApi.Easy.SetUserData | curlite.cpp:466-469 | sets the user data, nothing else |
| EasyApi.Easy.UserData | curlite.cpp:471-474 | the user data |
| EasyApi.Easy.HandleError | curlite.cpp:455-464 | updates the record as HandleErrorStep says |
| EasyApi.Easy.Set | curlite.hpp:295-314 | updates the record as SetStep says: the corrected check, and a value libcurl refuses is not entered in the table |
| EasyApi.Easy.SetInt | curlite.hpp:316-319 | set with the value widened to long |
| EasyApi.Easy.SetBool | curlite.hpp:321-324 | set with 1 or 0 as a long |
| EasyApi.Easy.SetString | curlite.hpp:326-329 | set with the C string |
| EasyApi.Easy.Register | curlite.cpp:539-675 | onX: the slot, then the FUNCTION, DATA (and NOPROGRESS/VERBOSE) options in order, stopping at the first raise, as RegisterStep says |
| EasyApi.Easy.RegisterSimple | curlite.cpp:503-537 | onX_ registers the wrapper of the callable, or the empty handler, with no data in its slot (xferInfo's for onProgress_) |
| EasyApi.Easy.Reset | curlite.cpp:389-400 | updates the record as ResetStep says |
| EasyApi.Easy.Perform | curlite.cpp:402-407 | perform's status through handleError |
| EasyApi.Easy.Pause | curlite.cpp:423-428 | pause's status through handleError |
| EasyApi.Easy.Send | curlite.cpp:409-414 | as CountStep says with the bytes sent |
| EasyApi.Easy.Recv | curlite.cpp:416-421 | as CountStep says with the bytes received |
| EasyApi.Easy.UploadFrom | curlite.cpp:357-366 | registers the stream reader as read handler, then performs, as StreamTransferStep says |
| EasyApi.Easy.DownloadTo | curlite.cpp:368-377 | registers the stream writer as write handler, then performs |
| EasyApi.Easy.GetInfo | curlite.hpp:340-355 | updates the record and returns as GetInfoStep says |
| EasyApi.Easy.GetInfoString | curlite.hpp:357-362 | as GetInfoStringStep says |
| EasyApi.Easy.Escape | curlite.cpp:476-487 | empty when libcurl returns null, otherwise the C string of its buffer (UpToNul): a NUL-free prefix that ends at the buffer's first NUL, and the whole buffer when it holds none |
| EasyApi.Easy.Unescape | curlite.cpp:489-501 | empty when libcurl returns null, otherwise every decoded byte of the reported length |
| Lists.AppendChain | curlite.cpp:742-746 | append as written: the chain with s at its end when the allocation succeeds, null otherwise |
| Lists.AppendChainKeeping | curlite.cpp:742-746 | append corrected: the old chain is kept when the allocation fails |
| Lists.KeepingNeverLoses | curlite.cpp:742-746 | the corrected append keeps the old chain as a prefix and adds exactly s on success |
| Lists.AppendAllAfterFailure | curlite.cpp:742-755 | with append as written, after a failed allocation the list holds only the values appended after the last failure |
| Lists.Allocated | curlite.cpp:748-755 | the values whose allocation succeeded are never more than the values |
| Lists.AppendAllKeepsAllocated | curlite.cpp:742-755 | with the corrected append, append(vector) leaves the old strings followed by exactly the values whose allocation succeeded, in order, and is null only if it was null and every allocation failed |
| Lists.AppendAllSucceeds | curlite.cpp:748-755 | when every allocation succeeds, append(vector) leaves the old strings followed by the values in order, and a non-null list |
| Lists.List.FromPointer | curlite.cpp:692-695 | adopts the chain given |
| Lists.List.FromValues | curlite.cpp:697-701 | an empty list, then append(vector) |
| Lists.List.Move | curlite.cpp:710-714 | takes the other's chain, leaving it empty |
| Lists.List.Release | curlite.cpp:735-740 | hands back the chain, leaving none |
| Lists.List.Destroy | curlite.cpp:703-708 | frees exactly the chain held |
| Lists.List.MoveAssign | curlite.cpp:716-728 | self-assignment changes nothing; otherwise frees this chain and takes the other's, leaving it empty |
| Lists.List.Get | curlite.cpp:730-733 | the chain held |
| Lists.List.Append | curlite.cpp:742-746 | the chain becomes the corrected append of the old one, so no string is lost (KeepingNeverLoses) |
| Lists.List.AppendAll | curlite.cpp:748-755 | appends the values one by one, in order, as AppendAllSpec says, so the list ends as AppendAllKeepsAllocated states |
| Forms.Added | curlite.cpp:819-823 | a successful curl_formadd makes the new part last, and first when the form was empty; a failure changes nothing; both ends stay null or non-null together |
| Forms.FirstStaysFirst | curlite.cpp:819-823 | once a form has a first part, later additions never change it |
| Forms.Form.Empty | curlite.cpp:765-767 | no parts |
| Forms.Form.FromForms | curlite.cpp:769-773 | an empty form after one add |
| Forms.Form.Move | curlite.cpp:775-780 | takes the other's ends, leaving it empty; a consistent form moves into a consistent one |
| Forms.Form.Release | curlite.cpp:809-817 | hands back both ends, leaving none |
| Forms.Form.Destroy | curlite.cpp:782-787 | frees the chain from its first part, leaving an empty, consistent form |
| Forms.Form.MoveAssign | curlite.cpp:789-802 | self-assignment changes nothing; otherwise frees this chain and swaps, leaving the other empty; consistency of both is kept |
| Forms.Form.Get | curlite.cpp:804-807 | the first part, which is null exactly when the last is, for a consistent form |
| Forms.Form.Add | curlite.cpp:819-823 | the ends as Added says; true exactly for CURL_FORMADD_OK; consistency kept |
| Transfers.ListPointer | curlite.cpp:730-733 | the curl_slist* of a chain: null exactly for no chain |
| Transfers.Download | curlite.cpp:848-858 | download ends as DownloadStep says and hands back a fresh Easy |
| Transfers.DownloadConfigures | curlite.cpp:848-858 | a download that returns has a handle, the requested exception mode, perform's status as last error and the stream writer in the write slot; when libcurl accepts every call the table holds exactly the user agent, URL, redirect switch and write trampoline with its record, and libcurl's write call reaches the stream writer |
| Transfers.DownloadOutcome | curlite.cpp:848-858 | without exceptions a download always returns once constructed; with exceptions and a libcurl that accepts everything it raises exactly when perform fails, with its status |
| Transfers.UploadHeaders | curlite.cpp:875-879 | with the corrected append, for size -1 the list holds "Transfer-Encoding: chunked" if its append succeeded, then "Expect:" if its append succeeded, and is null only when both failed; for any other size it holds nothing |
| Transfers.SetUploadOptions | curlite.cpp:869-873 | the five option calls, stopping at the first raise |
| Transfers.SetUploadHeaders | curlite.cpp:875-882 | for size -1, the two headers appended and HTTPHEADER pointed at them |
| Transfers.RunUpload | curlite.cpp:868-887 | the options, the headers, the transfer and the HTTPHEADER reset end as UploadFinish over UploadHeaderOption over UploadOptions says, with the table at the transfer as TableAtTransfer says; the local List is freed on every path |
| Transfers.FinishUpload | curlite.cpp:884-887 | the transfer through the istream operator, then HTTPHEADER set to nullptr |
| Transfers.Upload | curlite.cpp:860-890 | upload ends as UploadStep says, with the table libcurl holds when the transfer starts |
| Transfers.UploadOptionsApplied | curlite.cpp:869-873 | the five calls change only the table and the error and keep the handle; without exceptions they always return; when libcurl accepts every call they return, with error OK in exception mode, and leave URL, credentials, size and upload switch in the table on every platform |
| Transfers.UploadHeaderApplied | curlite.cpp:875-882 | a raise before it passes through; HTTPHEADER is set only for size -1, to the list's chain, when libcurl accepts it; the step completes without exceptions or when libcurl accepts every call |
| Transfers.UploadFinishApplied | curlite.cpp:884-887 | a transfer that returns has the stream reader in the read slot; when libcurl accepts every call the table at the transfer is the read registration over the configured one and HTTPHEADER is null afterwards; without exceptions it returns, and with exceptions and every call accepted it raises exactly when perform fails |
| Transfers.UploadAfterCreate | curlite.cpp:868-887 | on a constructed record, when libcurl accepts every call, the table at the transfer is the read registration over the options and header, and a run that returns leaves HTTPHEADER null; every run that returns has reached the transfer with the stream reader in the read slot |
| Transfers.UploadFromCreated | curlite.cpp:867-887 | from the record the constructor builds, when libcurl accepts every call, the table at the transfer is the user agent, URL, credentials, size, upload switch and read trampoline, plus HTTPHEADER exactly for size -1, and a run that returns leaves that table with HTTPHEADER null; every run that returns has the stream reader in the read slot |
| Transfers.UploadConfigures | curlite.cpp:860-890 | an upload that returns has run its transfer with the stream reader in the read slot; when libcurl accepts every call, at the transfer HTTPHEADER is the two-header chain exactly for size -1 and absent otherwise, beside the URL, credentials, size, upload switch and read trampoline, and afterwards HTTPHEADER is null and libcurl's read call reaches the stream reader |
| Transfers.UploadOutcome | curlite.cpp:860-890 | once constructed (curl_easy_init and the user agent succeed, as the constructor runs in exception mode), without exceptions an upload always transfers and returns, its last error being the reset's status; with exceptions and a libcurl that accepts everything, it raises exactly when perform fails, with its status |

## Left out

- libcurl's own behaviour: transfers, `curl_easy_strerror` texts, percent-encoding in
  `curl_easy_escape`/`curl_easy_unescape` (RFC 3986 section 2.1), the allocation inside
  `curl_slist_append` and the part construction inside `curl_formadd`. Each is an oracle
  value, so no round trip of escape and unescape is stated.
- `curl_easy_reset`'s defaults are modelled as an empty option table.
- The process-wide initialiser and `global_init`, `global_cleanup`, `version`, `versionInfo`
  (curlite.cpp:33-41, 828-846). These are one-line forwards to libcurl.
- Stream contents: the stream operators and their lambdas are modelled only by what they
  return (curlite.cpp:357-377, 677-687). `operator<<(ostream&, Easy&)` and
  `operator>>(istream&, Easy&)` are the same calls as `DownloadTo`/`UploadFrom`.
- The `double` arguments of the legacy progress callback and `getInfo<double>` values are
  opaque values; no floating-point reasoning is involved.
- The compile-time refusals (`static_assert` on an unsupported value type) are datatype
  membership: `Arg` and `InfoType` have no constructor for the types the tables do not list.
- Callbacks.Trampoline: libcurl's gating of the progress callbacks by NOPROGRESS and of the
  debug callback by VERBOSE is not part of `Invoke`; the options' values are stated instead.
- EasyApi.Easy.Create: the leaked handle is reported as a ghost result; no later operation
  can observe it.
- Sizes are unbounded except `size * n`, which is taken modulo 2^64 as a size_t.
- The demo programs under examples/ are not part of this model.
- EasyState.SetStep, EasyApi.Easy.Set, Lists.List.Append, Lists.AppendAllSpec and
  Transfers.UploadHeaders follow the corrected behaviour of the Findings table, not the code
  as written: a `curl_off_t` value passes for OFF_T keys, and a failed append keeps the chain
  (as written, the upload headers are null whenever the second append fails). The code as
  written is kept beside them as `OptionTypes.Admits`, `Lists.AppendChain` and
  `Lists.AppendAllAsWritten`.
- EasyState.RegisterThenInvoke, EasyState.ChunkEndClearStopsChunkBegin,
  EasyState.ProgressClearStopsXferInfo and EasyState.StreamTransferInstalls, and the table
  clauses of the registration, reset and transfer lemmas, are stated for a libcurl that accepts every
  setopt call; for a refusing libcurl the model states only which entries were applied
  (`EasyState.Applied`, `EasyState.RegisterFunctionEntry`).

## Findings

| source | as written | input that shows it | evidently intended | confidence | as-written member | corrected member |
|---|---|---|---|---|---|---|
| curlite.hpp:291-307 | when `curl_off_t` is `long` (LP64 Linux and macOS), the `curl_off_t` specialisation is disabled and a `curl_off_t` value takes the LONG code, which differs from every OFF_T key's category, so `set(CURLOPT_INFILESIZE_LARGE, size)` records BAD_FUNCTION_ARGUMENT | `set(CURLOPT_INFILESIZE_LARGE, curl_off_t(100))` on such a platform records BAD_FUNCTION_ARGUMENT (the call `upload` makes at curlite.cpp:872) | a `long` value is a valid `curl_off_t` for OFF_T keys on such platforms | high, not executed | OptionTypes.OffValueRefusedWhenLong | OptionTypes.CorrectedAdmitsOffValues |
| curlite.cpp:742-746 | `_list = curl_slist_append(_list, s)` stores the null that `curl_slist_append` returns on an allocation failure, losing (and leaking) the whole chain | `List({"a", "b"})` with the second allocation failing holds no strings | the list keeps its chain when an append fails | high, not executed | Lists.AppendAllAfterFailure | Lists.KeepingNeverLoses, Lists.AppendAllKeepsAllocated |

The rest of the model uses the corrected definitions: `EasyState.SetStep` and
`EasyApi.Easy.Set` check values with `OptionTypes.AdmitsCorrected`, and `Lists.List.Append`,
`Lists.AppendAllSpec` and `Transfers.UploadHeaders` use `Lists.AppendChainKeeping`. The
definitions as written (`OptionTypes.Admits` for a `curl_off_t` value, `Lists.AppendChain`,
`Lists.AppendAllAsWritten`) stand beside them with the lemmas that exhibit the defects.
