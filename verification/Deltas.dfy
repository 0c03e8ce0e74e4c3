/** The list of differences a resource comparison produces, and the removal of one of them
    (`pkg/common/delta.go`). A dotted path such as `Spec.Tags` is the sequence of its parts. */
module Deltas {
  import opened Wrappers

  type Path = seq<string>

  const TAGS: Path := ["Spec", "Tags"]
  const ENGINE: Path := ["Spec", "Engine"]
  const ENGINE_VERSION: Path := ["Spec", "EngineVersion"]

  /** The compared values. Only lists of strings are ever read back from a difference. */
  datatype Value = StringList(items: Option<seq<Option<string>>>) | Other

  datatype Difference = Difference(path: Path, a: Value, b: Value)

  /** A path contains a subject when the subject's parts are a prefix of its own. */
  predicate Contains(path: Path, subject: Path) {
    subject <= path
  }

  predicate DifferentAt(ds: seq<Difference>, subject: Path) {
    exists i :: 0 <= i < |ds| && Contains(ds[i].path, subject)
  }

  predicate DifferentExcept(ds: seq<Difference>, subject: Path) {
    exists i :: 0 <= i < |ds| && !Contains(ds[i].path, subject)
  }

  function CountAt(ds: seq<Difference>, subject: Path): nat {
    if ds == [] then 0
    else (if Contains(ds[0].path, subject) then 1 else 0) + CountAt(ds[1..], subject)
  }

  /** The differences outside `subject`, in order. */
  function Untargeted(ds: seq<Difference>, subject: Path): seq<Difference> {
    if ds == [] then []
    else if Contains(ds[0].path, subject) then Untargeted(ds[1..], subject)
    else [ds[0]] + Untargeted(ds[1..], subject)
  }

  /** `ds` without its first difference at `subject`. */
  function WithoutFirst(ds: seq<Difference>, subject: Path): seq<Difference> {
    if ds == [] then []
    else if Contains(ds[0].path, subject) then ds[1..]
    else [ds[0]] + WithoutFirst(ds[1..], subject)
  }

  /** A delta owns the backing array of a Go slice and the slice's length. */
  class Delta {
    var backing: array<Difference>
    var len: nat

    ghost predicate Valid()
      reads this
    {
      len <= backing.Length
    }

    ghost function Differences(): seq<Difference>
      requires Valid()
      reads this, backing
    {
      backing[..len]
    }

    constructor (ds: seq<Difference>)
      ensures Valid() && fresh(backing) && Differences() == ds
    {
      backing := new Difference[|ds|](i requires 0 <= i < |ds| => ds[i]);
      len := |ds|;
      new;
      assert backing[..len] == ds;
    }

    method IsDifferentAt(subject: Path) returns (r: bool)
      requires Valid()
      ensures r <==> DifferentAt(Differences(), subject)
    {
      for i := 0 to len
        invariant forall k :: 0 <= k < i ==> !Contains(backing[k].path, subject)
      {
        if Contains(backing[i].path, subject) {
          assert Contains(Differences()[i].path, subject);
          return true;
        }
      }
      return false;
    }

    /** `append` at the end: in place while there is spare capacity, else into a larger array. */
    method Add(d: Difference)
      requires Valid()
      modifies this, backing
      ensures Valid() && (backing == old(backing) || fresh(backing))
      ensures Differences() == old(Differences()) + [d]
    {
      if len == backing.Length {
        var larger := new Difference[2 * len + 1](_ => d);
        for i := 0 to len
          modifies larger
          invariant larger[..i] == old(backing[..i])
        {
          larger[i] := backing[i];
        }
        backing := larger;
      }
      backing[len] := d;
      len := len + 1;
    }

    method FindFirst(subject: Path) returns (found: Option<nat>)
      requires Valid()
      ensures found == None ==> forall k :: 0 <= k < |Differences()| ==> !Contains(Differences()[k].path, subject)
      ensures found.Some? ==>
                && found.value < |Differences()| && Contains(Differences()[found.value].path, subject)
                && forall k :: 0 <= k < found.value ==> !Contains(Differences()[k].path, subject)
    {
      for j := 0 to len
        invariant forall k :: 0 <= k < j ==> !Contains(Differences()[k].path, subject)
      {
        if Contains(backing[j].path, subject) {
          return Some(j);
        }
      }
      return None;
    }

    /** Finds the first difference at `subject` and shifts the later ones down over it, inside
        the same backing array; the vacated last slot keeps its old contents. */
    method RemoveFromDelta(subject: Path)
      requires Valid()
      modifies this`len, backing
      ensures Valid() && backing == old(backing)
      ensures Differences() == WithoutFirst(old(Differences()), subject)
      ensures forall k :: len <= k < backing.Length ==> backing[k] == old(backing[k])
    {
      ghost var ds := Differences();
      var found := FindFirst(subject);
      assert Differences() == ds;
      match found {
        case None =>
          NothingToRemove(ds, subject);
        case Some(i) =>
          RemovedAt(ds, subject, i);
          ShiftDown(backing, i, len);
          len := len - 1;
      }
    }
  }

  /** The copy Go's `append(s[:i], s[i+1:]...)` makes inside the backing array of `s`. */
  method ShiftDown(a: array<Difference>, i: nat, n: nat)
    requires i < n <= a.Length
    modifies a
    ensures a[..n - 1] == old(a[..i] + a[i + 1..n])
    ensures forall k :: n - 1 <= k < a.Length ==> a[k] == old(a[k])
  {
    ghost var was := a[..];
    for k := i to n - 1
      invariant a[..k] == was[..i] + was[i + 1..k + 1]
      invariant forall m :: k <= m < a.Length ==> a[m] == was[m]
    {
      a[k] := a[k + 1];
      assert a[..k + 1] == a[..k] + [was[k + 1]];
      assert was[i + 1..k + 2] == was[i + 1..k + 1] + [was[k + 1]];
    }
  }

  lemma {:induction false} NothingToRemove(ds: seq<Difference>, subject: Path)
    requires forall k :: 0 <= k < |ds| ==> !Contains(ds[k].path, subject)
    ensures WithoutFirst(ds, subject) == ds
  {
    if ds != [] {
      NothingToRemove(ds[1..], subject);
    }
  }

  lemma {:induction false} RemovedAt(ds: seq<Difference>, subject: Path, i: nat)
    requires i < |ds| && Contains(ds[i].path, subject)
    requires forall k :: 0 <= k < i ==> !Contains(ds[k].path, subject)
    ensures WithoutFirst(ds, subject) == ds[..i] + ds[i + 1..]
  {
    if i > 0 {
      var rest := ds[1..];
      RemovedAt(rest, subject, i - 1);
      assert rest[..i - 1] == ds[1..i] && rest[i..] == ds[i + 1..];
      assert ds[..i] == [ds[0]] + ds[1..i];
    }
  }

  /** Every difference outside the subject survives the removal, in its place. */
  lemma {:induction false} RemovalKeepsOthers(ds: seq<Difference>, subject: Path)
    ensures Untargeted(WithoutFirst(ds, subject), subject) == Untargeted(ds, subject)
    ensures CountAt(WithoutFirst(ds, subject), subject)
         == (if CountAt(ds, subject) == 0 then 0 else CountAt(ds, subject) - 1)
  {
    if ds != [] {
      if !Contains(ds[0].path, subject) {
        RemovalKeepsOthers(ds[1..], subject);
        var rest := WithoutFirst(ds[1..], subject);
        assert WithoutFirst(ds, subject)[1..] == rest;
      }
    }
  }

  lemma {:induction false} CountMeansDifferent(ds: seq<Difference>, subject: Path)
    ensures DifferentAt(ds, subject) <==> CountAt(ds, subject) > 0
  {
    if ds != [] {
      CountMeansDifferent(ds[1..], subject);
      if DifferentAt(ds, subject) && !Contains(ds[0].path, subject) {
        var i :| 0 <= i < |ds| && Contains(ds[i].path, subject);
        assert Contains(ds[1..][i - 1].path, subject);
      }
      if DifferentAt(ds[1..], subject) {
        var i :| 0 <= i < |ds[1..]| && Contains(ds[1..][i].path, subject);
        assert Contains(ds[i + 1].path, subject);
      }
    }
  }

  /** One removal clears a subject exactly when at most one difference was at it. */
  lemma RemovalClears(ds: seq<Difference>, subject: Path)
    ensures !DifferentAt(WithoutFirst(ds, subject), subject) <==> CountAt(ds, subject) <= 1
  {
    RemovalKeepsOthers(ds, subject);
    CountMeansDifferent(WithoutFirst(ds, subject), subject);
  }

  lemma PrefixesCompare(p: Path, a: Path, b: Path)
    requires a <= p && b <= p
    ensures a <= b || b <= a
  {
  }

  /** Removing at one subject leaves what is seen at an unrelated subject unchanged. */
  lemma {:induction false} RemovalLeavesElsewhere(ds: seq<Difference>, subject: Path, other: Path)
    requires !(subject <= other) && !(other <= subject)
    ensures CountAt(WithoutFirst(ds, subject), other) == CountAt(ds, other)
    ensures DifferentAt(WithoutFirst(ds, subject), other) <==> DifferentAt(ds, other)
  {
    CountMeansDifferent(ds, other);
    CountMeansDifferent(WithoutFirst(ds, subject), other);
    if ds != [] {
      var p := ds[0].path;
      if Contains(p, subject) {
        if Contains(p, other) {
          PrefixesCompare(p, subject, other);
        }
      } else {
        RemovalLeavesElsewhere(ds[1..], subject, other);
        assert WithoutFirst(ds, subject)[1..] == WithoutFirst(ds[1..], subject);
      }
    }
  }
}
