/** Lists of Go string pointers: what is left of one when nil entries are skipped, and copies. */
module StringLists {
  import opened Wrappers

  function NonNil(items: seq<Option<string>>): seq<string> {
    if items == [] then []
    else
      var last := items[|items| - 1];
      NonNil(items[..|items| - 1]) + (if last.Some? then [last.value] else [])
  }

  function Nils(items: seq<Option<string>>): nat {
    if items == [] then 0
    else Nils(items[..|items| - 1]) + (if items[|items| - 1] == None then 1 else 0)
  }

  predicate AllSet(items: seq<Option<string>>) {
    forall i :: 0 <= i < |items| ==> items[i].Some?
  }

  function OrEmpty(items: seq<Option<string>>): (r: seq<string>)
    ensures |r| == |items| && forall i :: 0 <= i < |items| ==> r[i] == items[i].GetOr("")
  {
    seq(|items|, i requires 0 <= i < |items| => items[i].GetOr(""))
  }

  lemma {:induction false} NonNilLength(items: seq<Option<string>>)
    ensures |NonNil(items)| + Nils(items) == |items|
    ensures Nils(items) == 0 <==> AllSet(items)
  {
    if items != [] {
      NonNilLength(items[..|items| - 1]);
    }
  }

  lemma {:induction false} NonNilAppend(a: seq<Option<string>>, b: seq<Option<string>>)
    ensures NonNil(a + b) == NonNil(a) + NonNil(b)
  {
    if b == [] {
      assert a + b == a;
    } else {
      NonNilAppend(a, b[..|b| - 1]);
      assert (a + b)[..|a + b| - 1] == a + b[..|b| - 1];
    }
  }

  lemma {:induction false} AllSetNonNil(items: seq<Option<string>>)
    requires AllSet(items)
    ensures NonNil(items) == OrEmpty(items)
  {
    if items != [] {
      AllSetNonNil(items[..|items| - 1]);
    }
  }

  method CollectNonNil(items: seq<Option<string>>) returns (r: seq<string>)
    ensures r == NonNil(items)
  {
    r := [];
    for i := 0 to |items|
      invariant r == NonNil(items[..i])
    {
      assert items[..i + 1][..i] == items[..i];
      if items[i] == None {
        continue;
      }
      r := r + [items[i].value];
    }
    assert items[..|items|] == items;
  }

  /** Copies a list; an entry that is nil stops it if it is dereferenced. */
  method CopyStrings(items: seq<Option<string>>, dereference: bool) returns (r: Option<seq<string>>)
    ensures r == if dereference && !AllSet(items) then None else Some(OrEmpty(items))
  {
    var copied: seq<string> := [];
    for i := 0 to |items|
      invariant |copied| == i && forall k :: 0 <= k < i ==> copied[k] == items[k].GetOr("")
      invariant dereference ==> forall k :: 0 <= k < i ==> items[k].Some?
    {
      if items[i] == None && dereference {
        return None;
      }
      copied := copied + [items[i].GetOr("")];
    }
    assert copied == OrEmpty(items);
    return Some(copied);
  }
}
