/** curlite::List, the owner of a curl_slist chain of strings. The chain is modelled by the
    strings it holds, first to last; None is the null pointer. curl_slist_append is an oracle:
    `ok` says whether it could allocate the copy and the node. */
module Lists {
  import opened Outcomes

  /** List::append as written. On success curl_slist_append returns the chain with a copy of s
      at its end (a new one-element chain when the list was null); on an allocation failure it
      returns null, and the list takes that null, so the chain it held is lost. */
  function AppendChain(c: Option<seq<string>>, s: string, ok: bool): (r: Option<seq<string>>)
    ensures r.Some? <==> ok
    ensures ok ==> |r.value| == |c.GetOr([])| + 1 && r.value[..|c.GetOr([])|] == c.GetOr([]) && r.value[|c.GetOr([])|] == s
  {
    if ok then Some(c.GetOr([]) + [s]) else None
  }

  /** append as evidently intended: on an allocation failure the list keeps its chain. */
  function AppendChainKeeping(c: Option<seq<string>>, s: string, ok: bool): (r: Option<seq<string>>)
    ensures !ok ==> r == c
    ensures ok ==> r == AppendChain(c, s, ok)
  {
    if ok then AppendChain(c, s, ok) else c
  }

  /** The corrected append never loses a string: the old chain is always a prefix of the new. */
  lemma KeepingNeverLoses(c: Option<seq<string>>, s: string, ok: bool)
    ensures c.GetOr([]) <= AppendChainKeeping(c, s, ok).GetOr([])
    ensures ok ==> AppendChainKeeping(c, s, ok).GetOr([]) == c.GetOr([]) + [s]
  {
    if ok {
      var r := AppendChainKeeping(c, s, ok).value;
      assert r == c.GetOr([]) + [s];
    }
  }

  /** append(std::vector) as written: append each value in order, the i-th allocation
      succeeding exactly when allocs[i] holds. */
  function AppendAllAsWritten(c: Option<seq<string>>, values: seq<string>, allocs: seq<bool>): Option<seq<string>>
    requires |allocs| == |values|
    decreases |values|
  {
    if values == [] then c
    else
      var n := |values| - 1;
      AppendChain(AppendAllAsWritten(c, values[..n], allocs[..n]), values[n], allocs[n])
  }

  /** As written, a failed allocation in the middle of append(std::vector) drops every string
      appended before it, the old ones included: the list ends holding only the values after the
      last failure. */
  lemma {:induction false} AppendAllAfterFailure(c: Option<seq<string>>, values: seq<string>, allocs: seq<bool>, j: nat)
    requires |allocs| == |values| && j < |values|
    requires !allocs[j]
    requires forall i :: j < i < |allocs| ==> allocs[i]
    ensures AppendAllAsWritten(c, values, allocs).GetOr([]) == values[j + 1..]
    decreases |values|
  {
    var n := |values| - 1;
    if j < n {
      AppendAllAfterFailure(c, values[..n], allocs[..n], j);
      assert values[j + 1..] == values[..n][j + 1..] + [values[n]];
    }
  }

  /** append(std::vector) with the corrected append, as the List class performs it. */
  function AppendAllSpec(c: Option<seq<string>>, values: seq<string>, allocs: seq<bool>): Option<seq<string>>
    requires |allocs| == |values|
    decreases |values|
  {
    if values == [] then c
    else
      var n := |values| - 1;
      AppendChainKeeping(AppendAllSpec(c, values[..n], allocs[..n]), values[n], allocs[n])
  }

  /** The values whose allocation succeeded, in order. */
  function Allocated(values: seq<string>, allocs: seq<bool>): (r: seq<string>)
    requires |allocs| == |values|
    ensures |r| <= |values|
    decreases |values|
  {
    if values == [] then []
    else
      var n := |values| - 1;
      Allocated(values[..n], allocs[..n]) + (if allocs[n] then [values[n]] else [])
  }

  /** With the corrected append, the list ends holding its old strings followed by exactly the
      values whose allocation succeeded, in order; it is null only if it was null and no
      allocation succeeded. */
  lemma {:induction false} AppendAllKeepsAllocated(c: Option<seq<string>>, values: seq<string>, allocs: seq<bool>)
    requires |allocs| == |values|
    ensures AppendAllSpec(c, values, allocs).GetOr([]) == c.GetOr([]) + Allocated(values, allocs)
    ensures AppendAllSpec(c, values, allocs).None? <==> c.None? && forall i :: 0 <= i < |allocs| ==> !allocs[i]
    decreases |values|
  {
    if values != [] {
      var n := |values| - 1;
      AppendAllKeepsAllocated(c, values[..n], allocs[..n]);
      var prev := AppendAllSpec(c, values[..n], allocs[..n]);
      KeepingNeverLoses(prev, values[n], allocs[n]);
      assert forall i :: 0 <= i < n ==> allocs[..n][i] == allocs[i];
    }
  }

  /** When every allocation succeeds, the values end up after the old strings, in order. */
  lemma {:induction false} AppendAllSucceeds(c: Option<seq<string>>, values: seq<string>, allocs: seq<bool>)
    requires |allocs| == |values|
    requires forall i :: 0 <= i < |allocs| ==> allocs[i]
    ensures AppendAllSpec(c, values, allocs).GetOr([]) == c.GetOr([]) + values
    ensures values != [] ==> AppendAllSpec(c, values, allocs).Some?
    decreases |values|
  {
    if values != [] {
      var n := |values| - 1;
      AppendAllSucceeds(c, values[..n], allocs[..n]);
      assert values == values[..n] + [values[n]];
    }
  }

  class List {
    /** _list */
    var chain: Option<seq<string>>

    /** List(curl_slist*): adopt an existing chain (None for null). */
    constructor FromPointer(p: Option<seq<string>>)
      ensures chain == p
    {
      chain := p;
    }

    /** List(std::vector<std::string>): an empty list, then append(values). */
    constructor FromValues(values: seq<string>, allocs: seq<bool>)
      requires |allocs| == |values|
      ensures chain == AppendAllSpec(None, values, allocs)
    {
      chain := None;
      new;
      AppendAll(values, allocs);
    }

    /** List(List&&): an empty list move-assigned from `other`, which ends up empty. */
    constructor Move(other: List)
      modifies other
      ensures chain == old(other.chain)
      ensures other.chain == None
    {
      chain := other.chain;
      new;
      other.chain := None;
    }

    /** List::release: hand the chain to the caller and forget it. */
    method Release() returns (p: Option<seq<string>>)
      modifies this
      ensures p == old(chain)
      ensures chain == None
    {
      p := chain;
      chain := None;
    }

    /** ~List: release the chain and free it (`freed` is what curl_slist_free_all receives). */
    method Destroy() returns (freed: Option<seq<string>>)
      modifies this
      ensures freed == old(chain)
      ensures chain == None
    {
      freed := Release();
    }

    /** List::operator=(List&&): unless it is self-assignment, free this list's chain and swap,
        so `other` ends up empty. */
    method MoveAssign(other: List) returns (freed: Option<seq<string>>)
      modifies this, other
      ensures other == this ==> chain == old(chain) && freed.None?
      ensures other != this ==> freed == old(chain) && chain == old(other.chain) && other.chain == None
    {
      freed := None;
      if other != this {
        freed := Release();
        chain, other.chain := other.chain, chain;
      }
    }

    /** List::get */
    method Get() returns (p: Option<seq<string>>)
      ensures p == chain
    {
      p := chain;
    }

    /** List::append(const char*) and operator<<, with the corrected append (AppendChain is the
        one as written). */
    method Append(s: string, ok: bool)
      modifies this
      ensures chain == AppendChainKeeping(old(chain), s, ok)
    {
      chain := AppendChainKeeping(chain, s, ok);
    }

    /** List::append(std::vector<std::string>) */
    method AppendAll(values: seq<string>, allocs: seq<bool>)
      requires |allocs| == |values|
      modifies this
      ensures chain == AppendAllSpec(old(chain), values, allocs)
    {
      var i := 0;
      while i < |values|
        invariant 0 <= i <= |values|
        invariant chain == AppendAllSpec(old(chain), values[..i], allocs[..i])
      {
        assert values[..i + 1][..i] == values[..i] && allocs[..i + 1][..i] == allocs[..i];
        Append(values[i], allocs[i]);
        i := i + 1;
      }
      assert values[..i] == values && allocs[..i] == allocs;
    }
  }
}
