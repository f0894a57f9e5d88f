/** curlite::Form, the owner of a curl_httppost chain: the pointers to its first and last parts,
    which curl_formadd updates. Parts are known by their addresses; curl_formadd is an oracle
    that returns `code` and, on success, links a new part at address `part`. */
module Forms {
  import opened Curl
  import opened Outcomes

  /** One curl_forms entry: a CURLFORM_* option and its value. */
  datatype FormEntry = FormEntry(option: int, value: string)

  /** The pair Form::release returns: the first and the last part, None for null. */
  datatype Ends = Ends(first: Option<nat>, last: Option<nat>)

  /** A chain is empty at both ends or at neither. */
  predicate Consistent(e: Ends) {
    e.first.None? <==> e.last.None?
  }

  /** What curl_formadd does to the two pointers: on success the new part becomes the last one,
      and also the first one when the chain was empty; on failure nothing changes. */
  function Added(e: Ends, code: int, part: nat): (r: Ends)
    ensures code != FORMADD_OK ==> r == e
    ensures code == FORMADD_OK ==> r.last == Some(part)
    ensures code == FORMADD_OK && e.first.Some? ==> r.first == e.first
    ensures code == FORMADD_OK && e.first.None? ==> r.first == Some(part)
    ensures Consistent(e) ==> Consistent(r)
  {
    if code != FORMADD_OK then e
    else if e.first.None? then Ends(Some(part), Some(part))
    else Ends(e.first, Some(part))
  }

  /** The first part that was successfully added stays first, whatever is added after it. */
  lemma {:induction false} FirstStaysFirst(e: Ends, codes: seq<int>, parts: seq<nat>)
    requires |codes| == |parts| && e.first.Some?
    ensures AddedAll(e, codes, parts).first == e.first
    decreases |codes|
  {
    if codes != [] {
      FirstStaysFirst(Added(e, codes[0], parts[0]), codes[1..], parts[1..]);
    }
  }

  /** Several curl_formadd calls in order. */
  function AddedAll(e: Ends, codes: seq<int>, parts: seq<nat>): Ends
    requires |codes| == |parts|
    decreases |codes|
  {
    if codes == [] then e else AddedAll(Added(e, codes[0], parts[0]), codes[1..], parts[1..])
  }

  class Form {
    /** _first */
    var first: Option<nat>
    /** _last */
    var last: Option<nat>

    predicate Valid()
      reads this
    {
      Consistent(Ends(first, last))
    }

    /** Form(): an empty form. */
    constructor Empty()
      ensures first.None? && last.None?
      ensures Valid()
    {
      first, last := None, None;
    }

    /** Form(std::vector<curl_forms>): an empty form, then add(forms), whose result is dropped. */
    constructor FromForms(forms: seq<FormEntry>, code: int, part: nat)
      ensures Ends(first, last) == Added(Ends(None, None), code, part)
      ensures Valid()
    {
      first, last := None, None;
      new;
      var _ := Add(forms, code, part);
    }

    /** Form(Form&&): take `other`'s pointers, leaving it empty. */
    constructor Move(other: Form)
      modifies other
      ensures first == old(other.first) && last == old(other.last)
      ensures other.first.None? && other.last.None?
      ensures old(other.Valid()) ==> Valid()
      ensures other.Valid()
    {
      first, last := other.first, other.last;
      new;
      other.first, other.last := None, None;
    }

    /** Form::release: hand both pointers to the caller and forget them. */
    method Release() returns (e: Ends)
      modifies this
      ensures e == Ends(old(first), old(last))
      ensures first.None? && last.None? && Valid()
    {
      e := Ends(first, last);
      first, last := None, None;
    }

    /** ~Form: release and free the chain from its first part (`freed` is what curl_formfree
        receives). */
    method Destroy() returns (freed: Option<nat>)
      modifies this
      ensures freed == old(first)
      ensures first.None? && last.None? && Valid()
    {
      var e := Release();
      freed := e.first;
    }

    /** Form::operator=(Form&&): unless it is self-assignment, free this form's chain and swap
        the pointers, so `other` ends up empty. */
    method MoveAssign(other: Form) returns (freed: Option<nat>)
      modifies this, other
      ensures other == this ==> first == old(first) && last == old(last) && freed.None?
      ensures other != this ==>
        && freed == old(first)
        && first == old(other.first) && last == old(other.last)
        && other.first.None? && other.last.None?
      ensures old(Valid()) && old(other.Valid()) ==> Valid() && other.Valid()
    {
      freed := None;
      if other != this {
        var e := Release();
        freed := e.first;
        first, other.first := other.first, first;
        last, other.last := other.last, last;
      }
    }

    /** Form::get: the first part. */
    method Get() returns (p: Option<nat>)
      ensures p == first
      ensures Valid() ==> (p.None? <==> last.None?)
    {
      p := first;
    }

    /** Form::add: one curl_formadd call with the entries as a CURLFORM_ARRAY; true exactly when
        it returns CURL_FORMADD_OK. */
    method Add(forms: seq<FormEntry>, code: int, part: nat) returns (ok: bool)
      modifies this
      ensures Ends(first, last) == Added(Ends(old(first), old(last)), code, part)
      ensures ok <==> code == FORMADD_OK
      ensures old(Valid()) ==> Valid()
    {
      var e := Added(Ends(first, last), code, part);
      first, last := e.first, e.last;
      ok := code == FORMADD_OK;
    }
  }
}
