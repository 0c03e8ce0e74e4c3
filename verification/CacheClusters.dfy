/** The update of a cache cluster: the meaningful differences
    (`pkg/resource/cache_cluster/delta_util.go`), the nodes and zones of the modify request
    (`pkg/resource/cache_cluster/hooks.go`) and the tags-first gate
    (`pkg/resource/cache_cluster/sdk.go`). */
module CacheClusters {
  import opened Wrappers
  import opened GoNumbers
  import opened Deltas
  import opened EngineVersions
  import opened StringLists
  import T = Tags

  type ZoneList = Option<seq<Option<string>>>

  datatype Spec = Spec(
    tags: seq<T.Tag>,
    engine: Option<string>,
    engineVersion: Option<string>,
    numCacheNodes: Option<int64>,
    preferredAvailabilityZone: Option<string>,
    preferredAvailabilityZones: ZoneList,
    preferredMaintenanceWindow: Option<string>)

  const NUM_CACHE_NODES: Path := ["Spec", "NumCacheNodes"]
  const ZONE: Path := ["Spec", "PreferredAvailabilityZone"]
  const ZONES: Path := ["Spec", "PreferredAvailabilityZones"]
  const MAINTENANCE_WINDOW: Path := ["Spec", "PreferredMaintenanceWindow"]

  // ------------------------------------------------ meaningful differences

  function Lower(c: char): char {
    if 'A' <= c <= 'Z' then (c as int + 32) as char else c
  }

  /** `strings.EqualFold`, for ASCII letters. */
  predicate EqualFold(s: string, t: string) {
    |s| == |t| && forall i :: 0 <= i < |s| ==> Lower(s[i]) == Lower(t[i])
  }

  function Lowered(s: string): string {
    seq(|s|, i requires 0 <= i < |s| => Lower(s[i]))
  }

  /** Texts fold together exactly when they are the same in lower case, where nothing is left to
      lower. */
  lemma EqualFoldMeaning(s: string, t: string)
    ensures EqualFold(s, t) <==> Lowered(s) == Lowered(t)
    ensures Lowered(Lowered(s)) == Lowered(s)
    ensures forall i :: 0 <= i < |s| ==> !('A' <= Lowered(s)[i] <= 'Z')
  {
    if EqualFold(s, t) {
      assert Lowered(s) == Lowered(t);
    } else if |s| == |t| {
      var i :| 0 <= i < |s| && Lower(s[i]) != Lower(t[i]);
      assert Lowered(s)[i] != Lowered(t)[i];
    } else {
      assert |Lowered(s)| != |Lowered(t)|;
    }
  }

  /** The version comparison reads the last character of a desired version. */
  predicate VersionReadable(desired: Spec, latest: Spec) {
    desired.engineVersion.Some? && latest.engineVersion.Some? ==>
      desired.engineVersion.value != "" || latest.engineVersion.value == ""
  }

  predicate VersionSettled(desired: Spec, latest: Spec)
    requires VersionReadable(desired, latest)
  {
    desired.engineVersion.Some? && latest.engineVersion.Some?
    && EngineVersionsMatch(desired.engineVersion.value, latest.engineVersion.value)
  }

  predicate EngineSettled(desired: Spec, latest: Spec) {
    desired.engine.Some? && latest.engine.Some? && EqualFold(desired.engine.value, latest.engine.value)
  }

  predicate WindowDefaulted(desired: Spec, latest: Spec) {
    desired.preferredMaintenanceWindow == None && latest.preferredMaintenanceWindow.Some?
  }

  predicate ZoneDefaulted(desired: Spec, latest: Spec) {
    desired.preferredAvailabilityZone == None && latest.preferredAvailabilityZone.Some?
  }

  function Dropped(ds: seq<Difference>, subject: Path, settled: bool): seq<Difference> {
    if settled then WithoutFirst(ds, subject) else ds
  }

  function ZonesDifference(desired: Spec, lastRequested: ZoneList): Difference {
    Difference(ZONES, StringList(desired.preferredAvailabilityZones), StringList(lastRequested))
  }

  /** The differences left after the ones that mean nothing are removed, and the one against
      the zones requested last is added. */
  function Meaningful(ds: seq<Difference>, desired: Spec, latest: Spec, lastRequested: ZoneList): seq<Difference>
    requires VersionReadable(desired, latest)
  {
    var d1 := Dropped(ds, ENGINE_VERSION, VersionSettled(desired, latest));
    var d2 := Dropped(d1, ENGINE, EngineSettled(desired, latest));
    var d3 := Dropped(d2, MAINTENANCE_WINDOW, WindowDefaulted(desired, latest));
    var d4 := Dropped(d3, ZONE, ZoneDefaulted(desired, latest));
    if desired.preferredAvailabilityZones != lastRequested then d4 + [ZonesDifference(desired, lastRequested)] else d4
  }

  method ModifyDelta(delta: Delta, desired: Spec, latest: Spec, lastRequested: ZoneList)
    requires delta.Valid() && VersionReadable(desired, latest)
    modifies delta, delta.backing
    ensures delta.Valid()
    ensures delta.Differences() == Meaningful(old(delta.Differences()), desired, latest, lastRequested)
  {
    RemoveIf(delta, ENGINE_VERSION, VersionSettled(desired, latest));
    RemoveIf(delta, ENGINE, EngineSettled(desired, latest));
    RemoveIf(delta, MAINTENANCE_WINDOW, WindowDefaulted(desired, latest));
    RemoveIf(delta, ZONE, ZoneDefaulted(desired, latest));
    if desired.preferredAvailabilityZones != lastRequested {
      delta.Add(ZonesDifference(desired, lastRequested));
    }
  }

  method RemoveIf(delta: Delta, subject: Path, settled: bool)
    requires delta.Valid()
    modifies delta, delta.backing
    ensures delta.Valid() && delta.backing == old(delta.backing)
    ensures delta.Differences() == Dropped(old(delta.Differences()), subject, settled)
  {
    var differs := delta.IsDifferentAt(subject);
    if differs && settled {
      delta.RemoveFromDelta(subject);
    } else if settled {
      NoneThere(delta.Differences(), subject);
    }
  }

  lemma NoneThere(ds: seq<Difference>, subject: Path)
    requires !DifferentAt(ds, subject)
    ensures WithoutFirst(ds, subject) == ds
  {
    NothingToRemove(ds, subject);
  }

  /** The differences at none of the four subjects. */
  function Others(ds: seq<Difference>): seq<Difference> {
    Untargeted(Untargeted(Untargeted(Untargeted(ds, ENGINE_VERSION), ENGINE), MAINTENANCE_WINDOW), ZONE)
  }

  lemma {:induction false} UntargetedCommute(ds: seq<Difference>, p: Path, q: Path)
    ensures Untargeted(Untargeted(ds, p), q) == Untargeted(Untargeted(ds, q), p)
  {
    if ds != [] {
      UntargetedCommute(ds[1..], p, q);
    }
  }

  lemma {:induction false} UntargetedAppend(ds: seq<Difference>, d: Difference, p: Path)
    ensures Untargeted(ds + [d], p) == Untargeted(ds, p) + (if Contains(d.path, p) then [] else [d])
  {
    if ds == [] {
      assert [d][1..] == [];
    } else {
      UntargetedAppend(ds[1..], d, p);
      assert (ds + [d])[1..] == ds[1..] + [d];
    }
  }

  lemma {:induction false} CountAppend(ds: seq<Difference>, d: Difference, p: Path)
    ensures CountAt(ds + [d], p) == CountAt(ds, p) + (if Contains(d.path, p) then 1 else 0)
  {
    if ds == [] {
      assert [d][1..] == [];
    } else {
      CountAppend(ds[1..], d, p);
      assert (ds + [d])[1..] == ds[1..] + [d];
    }
  }

  lemma DroppedCount(ds: seq<Difference>, p: Path, settled: bool, q: Path)
    requires Unrelated(p, q)
    ensures CountAt(Dropped(ds, p, settled), q) == CountAt(ds, q)
    ensures CountAt(Dropped(ds, p, settled), p) == AfterDrop(CountAt(ds, p), settled)
  {
    RemovalKeepsOthers(ds, p);
    RemovalLeavesElsewhere(ds, p, q);
  }

  lemma OthersKept(ds: seq<Difference>, p: Path, settled: bool)
    requires p == ENGINE_VERSION || p == ENGINE || p == MAINTENANCE_WINDOW || p == ZONE
    ensures Others(Dropped(ds, p, settled)) == Others(ds)
  {
    RemovalKeepsOthers(ds, p);
    OthersFrom(ds, p);
    OthersFrom(Dropped(ds, p, settled), p);
  }

  /** The four filters may be applied in any order; here `p` first. */
  lemma OthersFrom(ds: seq<Difference>, p: Path)
    requires p == ENGINE_VERSION || p == ENGINE || p == MAINTENANCE_WINDOW || p == ZONE
    ensures Others(ds) == Others(Untargeted(ds, p))
  {
    var a := Untargeted(ds, ENGINE_VERSION);
    var b := Untargeted(a, ENGINE);
    var c := Untargeted(b, MAINTENANCE_WINDOW);
    UntargetedCommute(ds, p, ENGINE_VERSION);
    UntargetedCommute(a, p, ENGINE);
    UntargetedCommute(b, p, MAINTENANCE_WINDOW);
    UntargetedCommute(c, p, ZONE);
    UntargetedTwice(ds, ENGINE_VERSION);
    UntargetedTwice(a, ENGINE);
    UntargetedTwice(b, MAINTENANCE_WINDOW);
    UntargetedTwice(c, ZONE);
  }

  lemma {:induction false} UntargetedTwice(ds: seq<Difference>, p: Path)
    ensures Untargeted(Untargeted(ds, p), p) == Untargeted(ds, p)
  {
    if ds != [] {
      UntargetedTwice(ds[1..], p);
    }
  }

  /** Given at most one difference per subject, as the comparison produces them, a difference
      remains at one of the four subjects exactly when it was there and is not settled; every
      other difference is kept, in order; and the zones differ from those requested last
      exactly when a difference for them is appended. */
  lemma MeaningfulDifferences(ds: seq<Difference>, desired: Spec, latest: Spec, lastRequested: ZoneList)
    requires VersionReadable(desired, latest)
    requires CountAt(ds, ENGINE_VERSION) <= 1 && CountAt(ds, ENGINE) <= 1
    requires CountAt(ds, MAINTENANCE_WINDOW) <= 1 && CountAt(ds, ZONE) <= 1
    ensures var now := Meaningful(ds, desired, latest, lastRequested);
            && (DifferentAt(now, ENGINE_VERSION) <==>
                  DifferentAt(ds, ENGINE_VERSION)
                  && !(desired.engineVersion.Some? && latest.engineVersion.Some?
                       && EngineVersionsMatch(desired.engineVersion.value, latest.engineVersion.value)))
            && (DifferentAt(now, ENGINE) <==>
                  DifferentAt(ds, ENGINE)
                  && !(desired.engine.Some? && latest.engine.Some?
                       && EqualFold(desired.engine.value, latest.engine.value)))
            && (DifferentAt(now, MAINTENANCE_WINDOW) <==>
                  DifferentAt(ds, MAINTENANCE_WINDOW)
                  && !(desired.preferredMaintenanceWindow == None && latest.preferredMaintenanceWindow.Some?))
            && (DifferentAt(now, ZONE) <==>
                  DifferentAt(ds, ZONE)
                  && !(desired.preferredAvailabilityZone == None && latest.preferredAvailabilityZone.Some?))
            && Others(now) == Others(ds)
                 + (if desired.preferredAvailabilityZones != lastRequested
                    then [ZonesDifference(desired, lastRequested)] else [])
  {
    SubjectsUnrelated();
    var now := Meaningful(ds, desired, latest, lastRequested);
    var v, e, w, z := VersionSettled(desired, latest), EngineSettled(desired, latest),
                      WindowDefaulted(desired, latest), ZoneDefaulted(desired, latest);
    var d1 := Dropped(ds, ENGINE_VERSION, v);
    var d2 := Dropped(d1, ENGINE, e);
    var d3 := Dropped(d2, MAINTENANCE_WINDOW, w);
    var d4 := Dropped(d3, ZONE, z);
    FourDrops(ds, ENGINE_VERSION, ENGINE, MAINTENANCE_WINDOW, ZONE, v, e, w, z);
    OthersKept(ds, ENGINE_VERSION, v);
    OthersKept(d1, ENGINE, e);
    OthersKept(d2, MAINTENANCE_WINDOW, w);
    OthersKept(d3, ZONE, z);
    ZonesAppended(d4, ZonesDifference(desired, lastRequested));
    forall p | p == ENGINE_VERSION || p == ENGINE || p == MAINTENANCE_WINDOW || p == ZONE
      ensures DifferentAt(ds, p) <==> CountAt(ds, p) > 0
      ensures DifferentAt(now, p) <==> CountAt(d4, p) > 0
    {
      CountMeansDifferent(ds, p);
      CountMeansDifferent(now, p);
    }
  }

  predicate Unrelated(p: Path, q: Path) {
    !(p <= q) && !(q <= p)
  }

  lemma SubjectsUnrelated()
    ensures Unrelated(ENGINE_VERSION, ENGINE) && Unrelated(ENGINE_VERSION, MAINTENANCE_WINDOW)
    ensures Unrelated(ENGINE_VERSION, ZONE) && Unrelated(ENGINE_VERSION, ZONES)
    ensures Unrelated(ENGINE, MAINTENANCE_WINDOW) && Unrelated(ENGINE, ZONE) && Unrelated(ENGINE, ZONES)
    ensures Unrelated(MAINTENANCE_WINDOW, ZONE) && Unrelated(MAINTENANCE_WINDOW, ZONES)
    ensures Unrelated(ZONE, ZONES)
  {
    assert |ENGINE[1]| == 6 && |ENGINE_VERSION[1]| == 13 && |MAINTENANCE_WINDOW[1]| == 26;
    assert |ZONE[1]| == 25 && |ZONES[1]| == 26 && MAINTENANCE_WINDOW[1][9] == 'M' && ZONES[1][9] == 'A';
  }

  lemma ZonesAppended(ds: seq<Difference>, z: Difference)
    requires z.path == ZONES
    ensures Others(ds + [z]) == Others(ds) + [z]
    ensures CountAt(ds + [z], ENGINE_VERSION) == CountAt(ds, ENGINE_VERSION)
    ensures CountAt(ds + [z], ENGINE) == CountAt(ds, ENGINE)
    ensures CountAt(ds + [z], MAINTENANCE_WINDOW) == CountAt(ds, MAINTENANCE_WINDOW)
    ensures CountAt(ds + [z], ZONE) == CountAt(ds, ZONE)
  {
    SubjectsUnrelated();
    var a := Untargeted(ds, ENGINE_VERSION);
    var b := Untargeted(a, ENGINE);
    var c := Untargeted(b, MAINTENANCE_WINDOW);
    UntargetedAppend(ds, z, ENGINE_VERSION);
    UntargetedAppend(a, z, ENGINE);
    UntargetedAppend(b, z, MAINTENANCE_WINDOW);
    UntargetedAppend(c, z, ZONE);
    CountAppend(ds, z, ENGINE_VERSION);
    CountAppend(ds, z, ENGINE);
    CountAppend(ds, z, MAINTENANCE_WINDOW);
    CountAppend(ds, z, ZONE);
  }

  /** Four removals at unrelated subjects do not disturb one another. */
  lemma FourDrops(ds: seq<Difference>, p: Path, q: Path, r: Path, t: Path, a: bool, b: bool, c: bool, d: bool)
    requires Unrelated(p, q) && Unrelated(p, r) && Unrelated(p, t)
    requires Unrelated(q, r) && Unrelated(q, t) && Unrelated(r, t)
    ensures var end := Dropped(Dropped(Dropped(Dropped(ds, p, a), q, b), r, c), t, d);
            && CountAt(end, p) == AfterDrop(CountAt(ds, p), a)
            && CountAt(end, q) == AfterDrop(CountAt(ds, q), b)
            && CountAt(end, r) == AfterDrop(CountAt(ds, r), c)
            && CountAt(end, t) == AfterDrop(CountAt(ds, t), d)
  {
    var d1 := Dropped(ds, p, a);
    var d2 := Dropped(d1, q, b);
    var d3 := Dropped(d2, r, c);
    DroppedCount(ds, p, a, q); DroppedCount(ds, p, a, r); DroppedCount(ds, p, a, t);
    DroppedCount(d1, q, b, p); DroppedCount(d1, q, b, r); DroppedCount(d1, q, b, t);
    DroppedCount(d2, r, c, p); DroppedCount(d2, r, c, q); DroppedCount(d2, r, c, t);
    DroppedCount(d3, t, d, p); DroppedCount(d3, t, d, q); DroppedCount(d3, t, d, r);
  }

  function AfterDrop(n: nat, settled: bool): nat {
    if settled && n > 0 then n - 1 else n
  }

  // ------------------------------------------------ nodes to remove, zones to add

  class ModifyInput {
    var cacheNodeIdsToRemove: seq<string>
    var newAvailabilityZones: seq<string>

    constructor ()
      ensures cacheNodeIdsToRemove == [] && newAvailabilityZones == []
    {
      cacheNodeIdsToRemove := [];
      newAvailabilityZones := [];
    }
  }

  /** The nodes the cluster has or is about to have. */
  function CurrentNodes(latest: int64, pending: Option<int64>): (n: int64)
    ensures n >= latest && (pending.Some? ==> n >= pending.value)
    ensures n == latest || pending == Some(n)
  {
    if pending.Some? && pending.value > latest then pending.value else latest
  }

  /** The ids of nodes `n`, `n - 1`, ... down to `desired + 1`. */
  function NodeIdsAbove(n: int, desired: int): seq<string> {
    if n <= desired then [] else seq(n - desired, k requires 0 <= k < n - desired => Sprintf04d(n - k))
  }

  datatype PayloadError = ZonesOnlyWithNewNodes | ZonesMustMatchNewNodes

  /** The zones requested last, as recorded in the first difference at the zone list. */
  function OldZones(ds: seq<Difference>): nat {
    if ds == [] then 0
    else if Contains(ds[0].path, ZONES) then
      (if ds[0].b.StringList? && ds[0].b.items.Some? then |ds[0].b.items.value| else 0)
    else OldZones(ds[1..])
  }

  lemma {:induction false} OldZonesAt(ds: seq<Difference>, i: nat)
    requires i < |ds| && Contains(ds[i].path, ZONES)
    requires forall k :: 0 <= k < i ==> !Contains(ds[k].path, ZONES)
    ensures ds[i].b.StringList? && ds[i].b.items.Some? ==> OldZones(ds) == |ds[i].b.items.value|
    ensures !ds[i].b.StringList? || ds[i].b.items == None ==> OldZones(ds) == 0
  {
    if i > 0 {
      OldZonesAt(ds[1..], i - 1);
    }
  }

  /** The count of nodes is read only when it is reported to differ and a count is desired. */
  predicate Countable(desired: Spec, latestNodes: Option<int64>, ds: seq<Difference>) {
    DifferentAt(ds, NUM_CACHE_NODES) && desired.numCacheNodes.Some? ==> latestNodes.Some?
  }

  /** The request removes the nodes `ids` and sends the zones `zones`, or is refused with `err`. */
  ghost predicate IsPayload(desired: Spec, latestNodes: Option<int64>, pendingNodes: Option<int64>, ds: seq<Difference>,
                            ids: seq<string>, zones: Option<seq<string>>, err: Option<PayloadError>)
    requires Countable(desired, latestNodes, ds)
  {
    var scaling := DifferentAt(ds, NUM_CACHE_NODES) && desired.numCacheNodes.Some?;
    var excess :=
      if scaling then WrapInt64(CurrentNodes(latestNodes.value, pendingNodes) - desired.numCacheNodes.value)
      else 0;
    var zonesGiven := DifferentAt(ds, ZONES) && desired.preferredAvailabilityZones.Some?;
    var given := desired.preferredAvailabilityZones.GetOr([]);
    && ids == (if excess > 0
               then NodeIdsAbove(CurrentNodes(latestNodes.value, pendingNodes), desired.numCacheNodes.value)
               else [])
    && err == (if !zonesGiven then None
               else if excess >= 0 then Some(ZonesOnlyWithNewNodes)
               else if |given| <= OldZones(ds) then Some(ZonesMustMatchNewNodes)
               else None)
    && zones == (if zonesGiven && err == None then Some(NonNil(given[..|given| - OldZones(ds)])) else None)
  }

  method UpdateCacheClusterPayload(input: ModifyInput, desired: Spec, latestNodes: Option<int64>,
                                   pendingNodes: Option<int64>, delta: Delta)
    returns (err: Option<PayloadError>, ghost ids: seq<string>, ghost zones: Option<seq<string>>)
    requires delta.Valid() && Countable(desired, latestNodes, delta.Differences())
    modifies input
    ensures IsPayload(desired, latestNodes, pendingNodes, delta.Differences(), ids, zones, err)
    ensures input.cacheNodeIdsToRemove == old(input.cacheNodeIdsToRemove) + ids
    ensures input.newAvailabilityZones == zones.GetOr(old(input.newAvailabilityZones))
  {
    err, ids, zones := None, [], None;
    var nodesDelta: int64 := 0;
    var scaling := delta.IsDifferentAt(NUM_CACHE_NODES);
    if scaling && desired.numCacheNodes.Some? {
      var numNodes := latestNodes.value;
      if pendingNodes.Some? && pendingNodes.value > numNodes {
        numNodes := pendingNodes.value;
      }
      nodesDelta := WrapInt64(numNodes - desired.numCacheNodes.value);
      if nodesDelta > 0 {
        var removed := NodesToRemove(numNodes, desired.numCacheNodes.value);
        ids := removed;
        input.cacheNodeIdsToRemove := input.cacheNodeIdsToRemove + removed;
      }
    }
    var zonesDiffer := delta.IsDifferentAt(ZONES);
    if zonesDiffer && desired.preferredAvailabilityZones.Some? {
      if nodesDelta >= 0 {
        err := Some(ZonesOnlyWithNewNodes);
        return;
      }
      var oldAZsLen := CountOldZones(delta);
      var given := desired.preferredAvailabilityZones.value;
      if |given| <= oldAZsLen {
        err := Some(ZonesMustMatchNewNodes);
        return;
      }
      var first := FirstZones(given, |given| - oldAZsLen);
      zones := Some(first);
      input.newAvailabilityZones := first;
    }
  }

  /** Counts down from the current number of nodes, one id per node. */
  method NodesToRemove(numNodes: int64, desired: int64) returns (ids: seq<string>)
    ensures ids == NodeIdsAbove(numNodes, desired)
  {
    ids := [];
    var i: int := numNodes;
    while i > desired
      invariant i <= numNodes && (i < numNodes ==> i >= desired)
      invariant |ids| == numNodes - i && forall k :: 0 <= k < |ids| ==> ids[k] == Sprintf04d(numNodes - k)
      decreases i - desired
    {
      ids := ids + [Sprintf04d(i)];
      i := i - 1;
    }
  }

  method CountOldZones(delta: Delta) returns (n: nat)
    requires delta.Valid()
    ensures n == OldZones(delta.Differences())
  {
    ghost var ds := delta.Differences();
    for i := 0 to delta.len
      invariant OldZones(ds) == OldZones(ds[i..])
    {
      var d := delta.backing[i];
      assert ds[i..][0] == d && ds[i..][1..] == ds[i + 1..];
      if Contains(d.path, ZONES) {
        return if d.b.StringList? && d.b.items.Some? then |d.b.items.value| else 0;
      }
    }
    return 0;
  }

  /** Ranges over the indices of the added zones, but reads the full list at them. */
  method FirstZones(zones: seq<Option<string>>, added: nat) returns (r: seq<string>)
    requires added <= |zones|
    ensures r == NonNil(zones[..added])
  {
    r := [];
    for az := 0 to added
      invariant r == NonNil(zones[..az])
    {
      assert zones[..az + 1][..az] == zones[..az];
      if zones[az].Some? {
        r := r + [zones[az].value];
      }
    }
  }

  function NodeIds(n: nat): set<string> {
    set i: nat | 1 <= i <= n :: Sprintf04d(i)
  }

  /** The nodes removed are exactly those numbered above the desired count, once each, highest
      first; taking them from a cluster numbered from 1 leaves exactly the desired ones. */
  lemma NodeRemoval(current: nat, known: nat, desired: nat)
    requires desired <= known <= current
    ensures var ids := NodeIdsAbove(current, desired);
            && |ids| == current - desired
            && (forall k :: 0 <= k < |ids| ==> ids[k] == Sprintf04d(current - k))
            && (forall j, k :: 0 <= j < k < |ids| ==> ids[j] != ids[k])
            && NodeIds(known) - (set id | id in ids) == NodeIds(desired)
  {
    var ids := NodeIdsAbove(current, desired);
    forall j, k | 0 <= j < k < |ids|
      ensures ids[j] != ids[k]
    {
      Sprintf04dInjective(current - j, current - k);
    }
    NodesLeft(current, known, desired);
  }

  /** The request of a smaller count, for a cluster numbered from 1, leaves exactly the desired nodes;
      that of any other count removes none. */
  lemma SmallerCountLeavesDesired(desired: Spec, latestNodes: Option<int64>, pendingNodes: Option<int64>,
                                  ds: seq<Difference>, ids: seq<string>, zones: Option<seq<string>>,
                                  err: Option<PayloadError>, known: nat)
    requires Countable(desired, latestNodes, ds)
    requires IsPayload(desired, latestNodes, pendingNodes, ds, ids, zones, err)
    requires DifferentAt(ds, NUM_CACHE_NODES) && desired.numCacheNodes.Some? && desired.numCacheNodes.value >= 0
    requires latestNodes.value >= 0
    ensures var current, n := CurrentNodes(latestNodes.value, pendingNodes), desired.numCacheNodes.value;
            if n < current then n <= known <= current ==> NodeIds(known) - (set id | id in ids) == NodeIds(n)
            else ids == []
  {
    var current: int, n: int := CurrentNodes(latestNodes.value, pendingNodes), desired.numCacheNodes.value;
    WrappedDifference(current, n);
    if n <= known <= current {
      NodeRemoval(current, known, n);
    }
  }

  lemma NodesLeft(current: nat, known: nat, desired: nat)
    requires desired <= known <= current
    ensures NodeIds(known) - (set id | id in NodeIdsAbove(current, desired)) == NodeIds(desired)
  {
    forall i: nat | 1 <= i <= known
      ensures Sprintf04d(i) in NodeIdsAbove(current, desired) <==> i > desired
    {
      NodeIsRemoved(current, desired, i);
    }
  }

  lemma NodeIsRemoved(current: nat, desired: nat, i: nat)
    requires 1 <= i <= current && desired <= current
    ensures Sprintf04d(i) in NodeIdsAbove(current, desired) <==> i > desired
  {
    var ids := NodeIdsAbove(current, desired);
    if i > desired {
      assert ids[current - i] == Sprintf04d(i);
    } else {
      forall k | 0 <= k < |ids| ensures ids[k] != Sprintf04d(i) {
        Sprintf04dInjective(current - k, i);
      }
    }
  }

  // ------------------------------------------------ which zones are sent

  /** `n` goes through `o` in order, over and over. */
  predicate Follows(o: seq<string>, n: seq<string>) {
    o == [] || forall i :: 0 <= i < |n| ==> n[i] == o[i % |o|]
  }

  lemma {:induction false} FollowsAt(o: seq<string>, n: seq<string>, i: nat)
    requires o != [] && (o + n)[..|n|] == n && i < |n|
    ensures n[i] == o[i % |o|]
    decreases i
  {
    assert n[i] == (o + n)[i];
    if i >= |o| {
      FollowsAt(o, n, i - |o|);
      RemainderBelow(i, |o|);
    }
  }

  lemma MultipleIsFar(p: int, m: nat)
    ensures p >= 1 ==> p * m >= m
    ensures p <= -1 ==> p * m + m <= 0
  {
    if p >= 1 {
      assert (p - 1) * m >= 0;
    } else if p <= -1 {
      assert (-1 - p) * m >= 0;
    }
  }

  lemma RemainderIs(x: nat, m: nat, q: int, r: nat)
    requires r < m && x == q * m + r
    ensures x % m == r
  {
    var p := x / m - q;
    MultipleIsFar(p, m);
    assert x == (x / m) * m + x % m;
    assert p * m == r - x % m;
  }

  lemma RemainderBelow(i: nat, m: nat)
    requires 0 < m <= i
    ensures i % m == (i - m) % m
  {
    var q, r := (i - m) / m, (i - m) % m;
    assert i - m == q * m + r;
    assert (q + 1) * m == q * m + m;
    RemainderIs(i, m, q + 1, r);
  }

  /** The first entries of an extended list are the extension exactly when it follows the list. */
  lemma ExtensionFirst(o: seq<string>, n: seq<string>)
    ensures (o + n)[..|n|] == n <==> Follows(o, n)
  {
    if o == [] {
      assert o + n == n;
    } else if (o + n)[..|n|] == n {
      forall i | 0 <= i < |n| ensures n[i] == o[i % |o|] {
        FollowsAt(o, n, i);
      }
    } else if Follows(o, n) {
      FollowingRepeats(o, n);
    }
  }

  lemma FollowingRepeats(o: seq<string>, n: seq<string>)
    requires o != [] && Follows(o, n)
    ensures (o + n)[..|n|] == n
  {
    var first := (o + n)[..|n|];
    forall i | 0 <= i < |n| ensures first[i] == n[i] {
      if i < |o| {
        RemainderIs(i, |o|, 0, i);
      } else {
        RemainderBelow(i, |o|);
        assert first[i] == n[i - |o|];
      }
    }
  }

  /** For old zones `o` and added zones `n`, nil entries included: what the first entries of the
      list give is what the added zones give exactly when it is as much and the added zones follow
      the old ones. */
  lemma RightZonesExactlyWhenFollowing(o: seq<Option<string>>, n: seq<Option<string>>)
    ensures var sent, added := NonNil((o + n)[..|n|]), NonNil(n);
            && (sent == added <==> |sent| == |added| && Follows(NonNil(o), added))
            && |sent| == |n| - Nils((o + n)[..|n|])
            && (AllSet(o) && AllSet(n) ==> |sent| == |added|)
  {
    var first, rest := (o + n)[..|n|], (o + n)[|n|..];
    assert o + n == first + rest;
    NonNilAppend(first, rest);
    NonNilAppend(o, n);
    NonNilLength(first);
    NonNilLength(n);
    assert NonNil(first) == (NonNil(o) + NonNil(n))[..|NonNil(first)|];
    ExtensionFirst(NonNil(o), NonNil(n));
  }

  /** Of `sent`, for old zones `o`, added zones `n` and that many new nodes: the zones sent are
      those of the new nodes exactly when they are as many and follow the old ones; and they are as
      many as the new nodes exactly when the zones were, nil entries apart. */
  ghost predicate ZonesMeaning(sent: seq<string>, o: seq<Option<string>>, n: seq<Option<string>>, newNodes: int) {
    && (sent == NonNil(n) <==> |sent| == |NonNil(n)| && Follows(NonNil(o), NonNil(n)))
    && (AllSet(o) && AllSet(n) ==> |sent| == |NonNil(n)|)
    && (|sent| == newNodes <==> |n| == newNodes + Nils((o + n)[..|n|]))
  }

  /** A request for new nodes in the zones `n`, added to the zones `o` requested last, which are the
      old value of the first difference at the zone list. */
  method NewZones(desired: Spec, latestNodes: Option<int64>, pendingNodes: Option<int64>, delta: Delta,
                  ghost o: seq<Option<string>>, ghost n: seq<Option<string>>, ghost i: nat)
    returns (input: ModifyInput, err: Option<PayloadError>)
    requires delta.Valid() && Countable(desired, latestNodes, delta.Differences())
    requires desired.preferredAvailabilityZones == Some(o + n)
    requires var ds := delta.Differences();
             && i < |ds| && Contains(ds[i].path, ZONES) && ds[i].b == StringList(Some(o))
             && forall k :: 0 <= k < i ==> !Contains(ds[k].path, ZONES)
    ensures fresh(input)
    ensures err == None ==>
              && desired.numCacheNodes.Some? && latestNodes.Some?
              && var excess := WrapInt64(CurrentNodes(latestNodes.value, pendingNodes) - desired.numCacheNodes.value);
                 excess < 0 && ZonesMeaning(input.newAvailabilityZones, o, n, -(excess as int))
  {
    input := new ModifyInput();
    ghost var ids, zones;
    err, ids, zones := UpdateCacheClusterPayload(input, desired, latestNodes, pendingNodes, delta);
    OldZonesAt(delta.Differences(), i);
    if err == None {
      assert input.newAvailabilityZones == NonNil((o + n)[..|n|]);
      RightZonesExactlyWhenFollowing(o, n);
    }
  }

  /** A cluster with a node in zone "a" that asks for a second one in zone "b" sends "a". */
  method WrongZoneIsSent() returns (input: ModifyInput)
    ensures fresh(input)
    ensures input.newAvailabilityZones == ["a"]
  {
    var before, zones := [Some("a")], [Some("a"), Some("b")];
    var ds := [Difference(NUM_CACHE_NODES, Other, Other), Difference(ZONES, Other, StringList(Some(before)))];
    var delta := new Delta(ds);
    var desired := Spec([], None, None, Some(2), None, Some(zones), None);
    input := new ModifyInput();
    assert Contains(ds[0].path, NUM_CACHE_NODES) && Contains(ds[1].path, ZONES);
    assert DifferentAt(ds, NUM_CACHE_NODES) && DifferentAt(ds, ZONES);
    assert !Contains(ds[0].path, ZONES) by { assert |NUM_CACHE_NODES[1]| == 13 && |ZONES[1]| == 26; }
    OldZonesAt(ds, 1);
    var err, _, _ := UpdateCacheClusterPayload(input, desired, Some(1), None, delta);
    assert zones[..1] == before && before[..0] == [] && NonNil(before) == ["a"];
  }

  // ------------------------------------------------ tags before everything else

  datatype UpdateOutcome = TagsPending | UpdateFailed | NothingToDo | InvalidZones(e: PayloadError) | ModifySent

  /** What a modify request asks for of nodes and zones. */
  datatype ModifyRequest = ModifyRequest(cacheNodeIdsToRemove: seq<string>, newAvailabilityZones: seq<string>)

  /** Each request is recorded, and is either applied or refused; refusals are counted. */
  class ClusterServer {
    var log: seq<ModifyRequest>
    ghost var refused: nat

    constructor ()
      ensures log == [] && refused == 0
    {
      log := [];
      refused := 0;
    }

    method ModifyCacheCluster(input: ModifyInput) returns (ok: bool)
      modifies this
      ensures log == old(log) + [ModifyRequest(input.cacheNodeIdsToRemove, input.newAvailabilityZones)]
      ensures refused == old(refused) + (if ok then 0 else 1)
    {
      log := log + [ModifyRequest(input.cacheNodeIdsToRemove, input.newAvailabilityZones)];
      ok := *;
      if !ok {
        refused := refused + 1;
      }
    }
  }

  /** One update. While tags differ it makes exactly one tagging request and nothing else; when
      nothing differs it does nothing; otherwise it sends one modify request with the nodes and zones
      of the payload, unless that is refused. It fails exactly when a request is refused. */
  method SdkUpdate(server: ClusterServer, tagging: T.TagServer, desired: Spec, latest: Spec,
                   latestNodes: Option<int64>, pendingNodes: Option<int64>, delta: Delta)
    returns (outcome: UpdateOutcome, ghost ids: seq<string>, ghost zones: Option<seq<string>>,
             ghost err: Option<PayloadError>)
    requires delta.Valid() && tagging.tags == T.ToMap(latest.tags)
    requires !DifferentAt(delta.Differences(), TAGS) ==> Countable(desired, latestNodes, delta.Differences())
    requires DifferentAt(delta.Differences(), TAGS) <==> T.ToMap(desired.tags) != T.ToMap(latest.tags)
    modifies server, tagging
    ensures server.refused + tagging.refused ==
              old(server.refused) + old(tagging.refused) + (if outcome == UpdateFailed then 1 else 0)
    ensures DifferentAt(delta.Differences(), TAGS) ==>
              && server.log == old(server.log) && (outcome == TagsPending || outcome == UpdateFailed)
              && |tagging.log| == |old(tagging.log)| + 1
              && T.IsRoundRequest(tagging.log[|old(tagging.log)|], T.ToMap(latest.tags), T.ToMap(desired.tags))
              && tagging.tags == (if outcome == UpdateFailed then old(tagging.tags)
                                  else T.AfterRound(T.ToMap(latest.tags), T.ToMap(desired.tags)))
    ensures !DifferentAt(delta.Differences(), TAGS) ==>
              tagging.log == old(tagging.log) && tagging.tags == old(tagging.tags) == T.ToMap(desired.tags)
    ensures !DifferentAt(delta.Differences(), TAGS) && !DifferentExcept(delta.Differences(), TAGS) ==>
              outcome == NothingToDo && server.log == old(server.log)
    ensures !DifferentAt(delta.Differences(), TAGS) && DifferentExcept(delta.Differences(), TAGS) ==>
              && IsPayload(desired, latestNodes, pendingNodes, delta.Differences(), ids, zones, err)
              && (if err.Some? then outcome == InvalidZones(err.value) && server.log == old(server.log)
                  else (outcome == ModifySent || outcome == UpdateFailed)
                       && server.log == old(server.log) + [ModifyRequest(ids, zones.GetOr([]))])
  {
    ids, zones, err := [], None, None;
    var tagsDiffer := delta.IsDifferentAt(TAGS);
    if tagsDiffer {
      var failed := T.SyncTags(tagging, desired.tags, latest.tags);
      outcome := if failed == T.TagApiFailed then UpdateFailed else TagsPending;
      return;
    }
    var othersDiffer := AnyOtherDiffers(delta);
    if !othersDiffer {
      outcome := NothingToDo;
      return;
    }
    var input := new ModifyInput();
    var bad;
    bad, ids, zones := UpdateCacheClusterPayload(input, desired, latestNodes, pendingNodes, delta);
    err := bad;
    if bad.Some? {
      outcome := InvalidZones(bad.value);
      return;
    }
    assert input.cacheNodeIdsToRemove == ids;
    var ok := server.ModifyCacheCluster(input);
    outcome := if ok then ModifySent else UpdateFailed;
  }

  method AnyOtherDiffers(delta: Delta) returns (differ: bool)
    requires delta.Valid()
    ensures differ <==> DifferentExcept(delta.Differences(), TAGS)
  {
    differ := false;
    for i := 0 to delta.len
      invariant differ <==> exists k :: 0 <= k < i && !Contains(delta.Differences()[k].path, TAGS)
    {
      if !Contains(delta.backing[i].path, TAGS) {
        assert !Contains(delta.Differences()[i].path, TAGS);
        differ := true;
      }
    }
  }
}
