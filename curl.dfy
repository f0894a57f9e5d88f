/** The constants of libcurl's public header (curl/curl.h, libcurl 7.32 and later) that the
    binding uses. They are the boundary the binding talks across: option keys, info keys,
    status codes and the return values libcurl gives a meaning to. */
module Curl {

  // CURLcode values
  const OK: int := 0
  const ABORTED_BY_CALLBACK: int := 42
  const BAD_FUNCTION_ARGUMENT: int := 43

  // Option type bases: every CURLoption is one of these plus a small number below 10000
  const OPTTYPE_LONG: int := 0
  const OPTTYPE_OBJECTPOINT: int := 10000
  const OPTTYPE_FUNCTIONPOINT: int := 20000
  const OPTTYPE_OFF_T: int := 30000

  // LONG options
  const OPT_VERBOSE: int := OPTTYPE_LONG + 41
  const OPT_NOPROGRESS: int := OPTTYPE_LONG + 43
  const OPT_UPLOAD: int := OPTTYPE_LONG + 46
  const OPT_FOLLOWLOCATION: int := OPTTYPE_LONG + 52

  // OBJECTPOINT options
  const OPT_WRITEDATA: int := OPTTYPE_OBJECTPOINT + 1
  const OPT_URL: int := OPTTYPE_OBJECTPOINT + 2
  const OPT_READDATA: int := OPTTYPE_OBJECTPOINT + 9
  const OPT_USERAGENT: int := OPTTYPE_OBJECTPOINT + 18
  const OPT_HTTPHEADER: int := OPTTYPE_OBJECTPOINT + 23
  const OPT_HEADERDATA: int := OPTTYPE_OBJECTPOINT + 29
  /** curl.h defines CURLOPT_XFERINFODATA as an alias of this key. */
  const OPT_PROGRESSDATA: int := OPTTYPE_OBJECTPOINT + 57
  const OPT_DEBUGDATA: int := OPTTYPE_OBJECTPOINT + 95
  const OPT_SSL_CTX_DATA: int := OPTTYPE_OBJECTPOINT + 109
  const OPT_IOCTLDATA: int := OPTTYPE_OBJECTPOINT + 131
  const OPT_SOCKOPTDATA: int := OPTTYPE_OBJECTPOINT + 149
  const OPT_OPENSOCKETDATA: int := OPTTYPE_OBJECTPOINT + 164
  const OPT_SEEKDATA: int := OPTTYPE_OBJECTPOINT + 168
  const OPT_USERNAME: int := OPTTYPE_OBJECTPOINT + 173
  const OPT_PASSWORD: int := OPTTYPE_OBJECTPOINT + 174
  /** Shared by the chunk-begin and the chunk-end callbacks. */
  const OPT_CHUNK_DATA: int := OPTTYPE_OBJECTPOINT + 201
  const OPT_FNMATCH_DATA: int := OPTTYPE_OBJECTPOINT + 202
  const OPT_CLOSESOCKETDATA: int := OPTTYPE_OBJECTPOINT + 209

  // FUNCTIONPOINT options
  const OPT_WRITEFUNCTION: int := OPTTYPE_FUNCTIONPOINT + 11
  const OPT_READFUNCTION: int := OPTTYPE_FUNCTIONPOINT + 12
  const OPT_PROGRESSFUNCTION: int := OPTTYPE_FUNCTIONPOINT + 56
  const OPT_HEADERFUNCTION: int := OPTTYPE_FUNCTIONPOINT + 79
  const OPT_DEBUGFUNCTION: int := OPTTYPE_FUNCTIONPOINT + 94
  const OPT_SSL_CTX_FUNCTION: int := OPTTYPE_FUNCTIONPOINT + 108
  const OPT_IOCTLFUNCTION: int := OPTTYPE_FUNCTIONPOINT + 130
  const OPT_SOCKOPTFUNCTION: int := OPTTYPE_FUNCTIONPOINT + 148
  const OPT_OPENSOCKETFUNCTION: int := OPTTYPE_FUNCTIONPOINT + 163
  const OPT_SEEKFUNCTION: int := OPTTYPE_FUNCTIONPOINT + 167
  const OPT_CHUNK_BGN_FUNCTION: int := OPTTYPE_FUNCTIONPOINT + 198
  const OPT_CHUNK_END_FUNCTION: int := OPTTYPE_FUNCTIONPOINT + 199
  const OPT_FNMATCH_FUNCTION: int := OPTTYPE_FUNCTIONPOINT + 200
  const OPT_CLOSESOCKETFUNCTION: int := OPTTYPE_FUNCTIONPOINT + 208
  const OPT_XFERINFOFUNCTION: int := OPTTYPE_FUNCTIONPOINT + 219

  // OFF_T options
  const OPT_INFILESIZE_LARGE: int := OPTTYPE_OFF_T + 115

  // CURLINFO type bits
  const INFO_STRING: int := 0x100000
  const INFO_LONG: int := 0x200000
  const INFO_DOUBLE: int := 0x300000
  const INFO_SLIST: int := 0x400000
  const INFO_TYPEMASK: int := 0xf00000

  // Callback return values that libcurl gives a meaning to
  const READFUNC_ABORT: int := 0x10000000
  const FNMATCHFUNC_FAIL: int := 2
  const IOE_UNKNOWNCMD: int := 1
  const CHUNK_BGN_FUNC_FAIL: int := 1
  const CHUNK_END_FUNC_FAIL: int := 1
  const SOCKET_BAD: int := -1

  // curl_formadd result
  const FORMADD_OK: int := 0

  /** size_t on the 64-bit targets: products of sizes wrap modulo this. */
  const SIZE_MODULUS: int := 0x1_0000_0000_0000_0000
}
