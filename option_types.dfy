/** The run-time argument check of Easy::set and Easy::getInfo. A CURLoption key encodes the
    category of value it expects in its multiple of 10000 (LONG, OBJECTPOINT, FUNCTIONPOINT,
    OFF_T); a CURLINFO key encodes its value type in bits 20-23. The C++ value type decides the
    other side of the comparison through the OptionTypeCode and InfoTypeCode tables. */
module OptionTypes {
  import opened Curl
  import opened Pointers
  import opened Callbacks

  /** kCurlOptTypeInterval: the distance between two option type bases. */
  const TypeInterval: int := OPTTYPE_OBJECTPOINT - OPTTYPE_LONG

  /** A function pointer handed to curl_easy_setopt. */
  datatype Callee = NoFunction | TrampolineOf(kind: Kind) | ClientFunction(id: nat)

  /** A value handed to the set<ValueType> template, tagged by its static type. A type the
      OptionTypeCode table does not list (double, short, ...) is refused by a static_assert and
      has no constructor here. */
  datatype Arg =
      /** long */
    | LongArg(n: int)
      /** curl_off_t */
    | OffArg(n: int)
      /** void*, char*, const char*, curl_slist*, curl_httppost* or FILE* */
    | PointerArg(p: Ptr)
      /** one of the callback pointer types of curl.h */
    | FunctionArg(f: Callee)
      /** the nullptr literal (std::nullptr_t) */
    | NullArg

  datatype Category = Long | OffT | ObjPtr | FunPtr | NullPtr

  /** OptionTypeCode<ValueType>. When curl_off_t is the same type as long, the curl_off_t
      specialisation is switched off and a curl_off_t value takes long's entry. */
  function CategoryOf(a: Arg, offIsLong: bool): Category {
    match a
    case LongArg(_) => Long
    case OffArg(_) => if offIsLong then Long else OffT
    case PointerArg(_) => ObjPtr
    case FunctionArg(_) => FunPtr
    case NullArg => NullPtr
  }

  function TypeCode(c: Category): int {
    match c
    case Long => OPTTYPE_LONG
    case OffT => OPTTYPE_OFF_T
    case ObjPtr => OPTTYPE_OBJECTPOINT
    case FunPtr => OPTTYPE_FUNCTIONPOINT
    case NullPtr => -2
  }

  /** C++ integer division, which truncates toward zero. */
  function TruncDiv(a: int, b: int): int
    requires b > 0
  {
    if a >= 0 then a / b else -((-a) / b)
  }

  /** `key / kCurlOptTypeInterval * kCurlOptTypeInterval`: the key rounded toward zero to a
      multiple of the interval, that is, the base of the key's category. */
  function KeyTypeCode(key: int): (r: int)
    ensures r % TypeInterval == 0
    ensures 0 <= key ==> 0 <= r <= key < r + TypeInterval
    ensures key < 0 ==> r - TypeInterval < key <= r <= 0
  {
    TruncDiv(key, TypeInterval) * TypeInterval
  }

  /** The check set makes before calling the native setter: the value's code must equal the
      key's category, except that nullptr is let through for every key that is not LONG. */
  predicate Admits(key: int, c: Category) {
    var keyTypeCode := KeyTypeCode(key);
    var nullAllowed := c == NullPtr && keyTypeCode != OPTTYPE_LONG;
    TypeCode(c) == keyTypeCode || nullAllowed
  }

  /** Which keys each category is admitted for, as ranges of keys. */
  lemma AdmitsExactly(key: int, c: Category)
    ensures Admits(key, c) <==>
      match c
      case NullPtr => key <= -TypeInterval || TypeInterval <= key
      case Long => -TypeInterval < key < TypeInterval
      case _ => TypeCode(c) <= key < TypeCode(c) + TypeInterval
  {
    var r := KeyTypeCode(key);
    if c != NullPtr && c != Long {
      var t := TypeCode(c);
      assert t % TypeInterval == 0;
      if t <= key < t + TypeInterval {
        MultiplesInWindow(r, t, key);
      }
    }
  }

  /** Two multiples of the interval within one interval-wide window are equal. */
  lemma MultiplesInWindow(r: int, t: int, key: int)
    requires r % TypeInterval == 0 && t % TypeInterval == 0
    requires r <= key < r + TypeInterval && t <= key < t + TypeInterval
    ensures r == t
  {
    var qr, qt := r / TypeInterval, t / TypeInterval;
    assert r == qr * TypeInterval;
    assert t == qt * TypeInterval;
  }

  /** A nullptr passes for every key outside the LONG category, OFF_T keys included, and fails
      for every LONG key. */
  lemma NullPointerAdmitted(key: int)
    ensures Admits(key, NullPtr) <==> KeyTypeCode(key) != OPTTYPE_LONG
  {
  }

  /** On a platform where curl_off_t is long, every OFF_T key refuses a curl_off_t value, which
      every OFF_T key accepts on the other platforms. */
  lemma OffValueRefusedWhenLong(key: int, n: int)
    requires OPTTYPE_OFF_T <= key < OPTTYPE_OFF_T + TypeInterval
    ensures !Admits(key, CategoryOf(OffArg(n), true))
    ensures Admits(key, CategoryOf(OffArg(n), false))
  {
    AdmitsExactly(key, Long);
    AdmitsExactly(key, OffT);
  }

  /** The check as it was evidently meant: on a platform where curl_off_t is long, a long value
      is a valid curl_off_t for an OFF_T key. */
  predicate AdmitsCorrected(key: int, c: Category, offIsLong: bool) {
    Admits(key, c) || (offIsLong && c == Long && KeyTypeCode(key) == OPTTYPE_OFF_T)
  }

  /** The corrected check accepts a curl_off_t value for every OFF_T key on every platform, and
      agrees with the written check on every other key. */
  lemma CorrectedAdmitsOffValues(key: int, n: int, offIsLong: bool, c: Category)
    ensures OPTTYPE_OFF_T <= key < OPTTYPE_OFF_T + TypeInterval ==>
              AdmitsCorrected(key, CategoryOf(OffArg(n), offIsLong), offIsLong)
    ensures KeyTypeCode(key) != OPTTYPE_OFF_T ==> (AdmitsCorrected(key, c, offIsLong) <==> Admits(key, c))
  {
    if OPTTYPE_OFF_T <= key < OPTTYPE_OFF_T + TypeInterval {
      AdmitsExactly(key, OffT);
      if offIsLong {
        MultiplesInWindow(KeyTypeCode(key), OPTTYPE_OFF_T, key);
      }
    }
  }

  // -- the non-template overloads of set

  /** set(key, int): widened to long. */
  function FromInt(i: int): (a: Arg)
    ensures CategoryOf(a, false) == Long && CategoryOf(a, true) == Long
    ensures a.LongArg? && a.n == i
  {
    LongArg(i)
  }

  /** set(key, bool): widened to long, false as 0 and true as 1. */
  function FromBool(b: bool): (a: Arg)
    ensures CategoryOf(a, false) == Long && CategoryOf(a, true) == Long
    ensures a.LongArg? && (a.n == 1 <==> b) && (a.n == 0 <==> !b)
  {
    LongArg(if b then 1 else 0)
  }

  /** set(key, std::string): passed as its C string, a const char*. */
  function FromString(s: string): (a: Arg)
    ensures CategoryOf(a, false) == ObjPtr && CategoryOf(a, true) == ObjPtr
    ensures a.PointerArg? && a.p == Text(s)
  {
    PointerArg(Text(s))
  }

  // -- getInfo

  /** The value types the InfoTypeCode table lists. */
  datatype InfoType = CharPtrInfo | LongInfo | DoubleInfo | SlistInfo | CertInfo | TlsSessionInfo

  function InfoTypeCode(t: InfoType): int {
    match t
    case CharPtrInfo => INFO_STRING
    case LongInfo => INFO_LONG
    case DoubleInfo => INFO_DOUBLE
    case SlistInfo => INFO_SLIST
    case CertInfo => INFO_SLIST
    case TlsSessionInfo => INFO_SLIST
  }

  /** `key & CURLINFO_TYPEMASK`. The mask keeps bits 20-23, which depend only on the low 24 bits
      of the key; Euclidean `%` yields those bits for negative keys as well, as two's complement
      does. */
  function InfoTypeBits(key: int): (r: int)
    ensures 0 <= r <= INFO_TYPEMASK && r % 0x100000 == 0
    ensures r <= key % 0x1000000 < r + 0x100000
  {
    (key % 0x1000000) / 0x100000 * 0x100000
  }

  /** The check getInfo makes before calling the native getter. */
  predicate InfoAdmits(key: int, t: InfoType) {
    InfoTypeCode(t) == InfoTypeBits(key)
  }

  /** getInfo admits a key exactly when its type bits name the value type's code. */
  lemma InfoAdmitsExactly(key: int, t: InfoType)
    ensures InfoAdmits(key, t) <==> InfoTypeCode(t) <= key % 0x1000000 < InfoTypeCode(t) + 0x100000
  {
    var r := InfoTypeBits(key);
    var c := InfoTypeCode(t);
    if c <= key % 0x1000000 < c + 0x100000 {
      var qr, qc := r / 0x100000, c / 0x100000;
      assert r == qr * 0x100000;
      assert c == qc * 0x100000;
    }
  }
}
