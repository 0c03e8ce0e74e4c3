/** The requests built for a replication group's replicas, shards and security groups, and what
    a server makes of them (`pkg/resource/replication_group/hooks.go`). */
module ReplicationPayloads {
  import opened Wrappers
  import opened GoNumbers
  import opened Deltas
  import opened ReplicationGroups
  import opened StringLists

  datatype ConfigureShard = ConfigureShard(id: Option<string>, newReplicaCount: Option<int>, zones: Option<seq<string>>)

  datatype ReplicaRequest = ReplicaRequest(
    groupID: Option<string>, newReplicaCount: Option<int>, shards: Option<seq<ConfigureShard>>)

  datatype ReshardingConfiguration = ReshardingConfiguration(id: Option<string>, zones: Option<seq<string>>)

  datatype ShardRequest = ShardRequest(
    groupID: Option<string>, nodeGroupCount: Option<int>,
    resharding: Option<seq<ReshardingConfiguration>>, retain: Option<seq<string>>)

  /** What building a request gives: the request, a refusal, or a nil or out-of-bounds access. */
  datatype Payload<T> = Built(request: T) | Refused | Crashed

  /** A list that is left out when it is empty. */
  function NonEmpty<T>(s: seq<T>): Option<seq<T>> {
    if s == [] then None else Some(s)
  }

  function Zones(zones: Option<Slice<Option<string>>>): Slice<Option<string>> {
    if zones.Some? then zones.value else []
  }

  function PrimaryZone(c: NodeGroupConfiguration): seq<string> {
    if c.primaryZone.Some? then [c.primaryZone.value] else []
  }

  // ------------------------------------------------ replica requests

  function IncreaseShard(c: NodeGroupConfiguration): ConfigureShard {
    ConfigureShard(c.id, Int32OrNil(c.replicaCount), NonEmpty(PrimaryZone(c) + OrEmpty(Zones(c.replicaZones))))
  }

  /** One entry for each configured shard that has an id the server knows. */
  function IncreaseShards(cfg: seq<NodeGroupConfiguration>, known: set<string>): seq<ConfigureShard> {
    if cfg == [] then []
    else
      var c := cfg[|cfg| - 1];
      IncreaseShards(cfg[..|cfg| - 1], known) + (if c.id.Some? && c.id.value in known then [IncreaseShard(c)] else [])
  }

  function IncreaseRequest(d: Resource, l: Resource): ReplicaRequest {
    var cfg := d.spec.nodeGroupConfiguration;
    ReplicaRequest(d.spec.replicationGroupID, Int32OrNil(d.spec.replicasPerNodeGroup),
                   if cfg.Some? then Some(IncreaseShards(cfg.value, LatestCounts(Groups(l.status.nodeGroups)).Keys))
                   else None)
  }

  method IncreasePayload(d: Resource, l: Resource) returns (req: ReplicaRequest)
    ensures req == IncreaseRequest(d, l)
  {
    req := ReplicaRequest(d.spec.replicationGroupID, Int32OrNil(d.spec.replicasPerNodeGroup), None);
    var counts := CollectReplicaCounts(Groups(l.status.nodeGroups));
    if d.spec.nodeGroupConfiguration.Some? {
      var cfg := d.spec.nodeGroupConfiguration.value;
      var shards: seq<ConfigureShard> := [];
      for i := 0 to |cfg|
        invariant shards == IncreaseShards(cfg[..i], counts.Keys)
      {
        assert cfg[..i + 1][..i] == cfg[..i];
        if cfg[i].id == None || cfg[i].id.value !in counts {
          continue;
        }
        var zones := PrimaryZone(cfg[i]);
        var copied := CopyStrings(Zones(cfg[i].replicaZones), false);
        zones := zones + copied.value;
        shards := shards + [ConfigureShard(cfg[i].id, Int32OrNil(cfg[i].replicaCount), NonEmpty(zones))];
      }
      assert cfg[..|cfg|] == cfg;
      req := req.(shards := Some(shards));
    }
  }

  function DecreaseShard(c: NodeGroupConfiguration): ConfigureShard {
    ConfigureShard(c.id, Int32OrNil(c.replicaCount), Some(OrEmpty(Zones(c.replicaZones))))
  }

  predicate ZonesSet(cfg: seq<NodeGroupConfiguration>) {
    forall i :: 0 <= i < |cfg| ==> AllSet(Zones(cfg[i].replicaZones))
  }

  function DecreaseShards(cfg: seq<NodeGroupConfiguration>): seq<ConfigureShard> {
    seq(|cfg|, i requires 0 <= i < |cfg| => DecreaseShard(cfg[i]))
  }

  /** An entry for every configured shard, known to the server or not, without its primary zone;
      a nil zone is dereferenced. */
  function DecreaseRequest(d: Resource): Payload<ReplicaRequest> {
    var cfg := d.spec.nodeGroupConfiguration;
    if cfg.Some? && !ZonesSet(cfg.value) then Crashed
    else Built(ReplicaRequest(d.spec.replicationGroupID, Int32OrNil(d.spec.replicasPerNodeGroup),
                              if cfg.Some? then Some(DecreaseShards(cfg.value)) else None))
  }

  method DecreasePayload(d: Resource) returns (p: Payload<ReplicaRequest>)
    ensures p == DecreaseRequest(d)
  {
    var req := ReplicaRequest(d.spec.replicationGroupID, Int32OrNil(d.spec.replicasPerNodeGroup), None);
    if d.spec.nodeGroupConfiguration.Some? {
      var cfg := d.spec.nodeGroupConfiguration.value;
      var shards: seq<ConfigureShard> := [];
      for i := 0 to |cfg|
        invariant ZonesSet(cfg[..i])
        invariant |shards| == i && forall k :: 0 <= k < i ==> shards[k] == DecreaseShard(cfg[k])
      {
        var zones := CopyStrings(Zones(cfg[i].replicaZones), true);
        if zones == None {
          assert !AllSet(Zones(cfg[i].replicaZones));
          return Crashed;
        }
        assert cfg[..i + 1] == cfg[..i] + [cfg[i]];
        shards := shards + [ConfigureShard(cfg[i].id, Int32OrNil(cfg[i].replicaCount), zones)];
      }
      assert cfg[..|cfg|] == cfg;
      assert shards == DecreaseShards(cfg);
      req := req.(shards := Some(shards));
    }
    return Built(req);
  }

  // ------------------------------------------------ what the entries hold

  /** The primary zone, if there is one, and then the replica zones, nil ones as "". */
  predicate ZonesAre(zones: seq<string>, primary: Option<string>, replicas: seq<Option<string>>) {
    var p := if primary.Some? then 1 else 0;
    && |zones| == p + |replicas|
    && (primary.Some? ==> zones[0] == primary.value)
    && forall j :: 0 <= j < |replicas| ==> zones[p + j] == replicas[j].GetOr("")
  }

  /** Every configured shard that the server knows has its entry after those of the shards configured
      before it. */
  lemma {:induction false} IncreaseEntryAt(cfg: seq<NodeGroupConfiguration>, known: set<string>, i: nat)
    requires i < |cfg| && cfg[i].id.Some? && cfg[i].id.value in known
    ensures var p := |IncreaseShards(cfg[..i], known)|;
            p < |IncreaseShards(cfg, known)| && IncreaseShards(cfg, known)[p] == IncreaseShard(cfg[i])
  {
    var n := |cfg| - 1;
    if i < n {
      var front := cfg[..n];
      IncreaseEntryAt(front, known, i);
      assert front[..i] == cfg[..i];
      assert IncreaseShards(front, known) <= IncreaseShards(cfg, known);
    }
  }

  /** An entry holds the id, the count and the zones, which are left out if there are none. */
  lemma IncreaseEntry(c: NodeGroupConfiguration)
    ensures var e := IncreaseShard(c);
            && e.id == c.id && e.newReplicaCount == Int32OrNil(c.replicaCount) && e.zones != Some([])
            && ZonesAre(e.zones.GetOr([]), c.primaryZone, Zones(c.replicaZones))
  {
  }

  /** Every configured shard has its entry in the same place, with its replica zones only. */
  lemma DecreaseEntry(cfg: seq<NodeGroupConfiguration>, i: nat)
    requires i < |cfg|
    ensures |DecreaseShards(cfg)| == |cfg|
    ensures var e := DecreaseShards(cfg)[i]; var c := cfg[i];
            && e.id == c.id && e.newReplicaCount == Int32OrNil(c.replicaCount)
            && e.zones.Some? && ZonesAre(e.zones.value, None, Zones(c.replicaZones))
  {
  }

  // ------------------------------------------------ a server that applies a replica request

  /** The count a shard list requests for a node group: that of the last entry giving one. */
  function ListedCount(shards: seq<ConfigureShard>, id: string): Option<int> {
    if shards == [] then None
    else
      var s := shards[|shards| - 1];
      if s.id == Some(id) && s.newReplicaCount.Some? then s.newReplicaCount
      else ListedCount(shards[..|shards| - 1], id)
  }

  /** A uniform count is for every node group; a listed one for the node group it names. */
  function RequestedCount(req: ReplicaRequest, g: NodeGroup): Option<int> {
    if req.newReplicaCount.Some? then req.newReplicaCount
    else if g.id.Some? && req.shards.Some? then ListedCount(req.shards.value, g.id.value)
    else None
  }

  /** A server refuses a negative count. */
  predicate Acceptable(req: ReplicaRequest, groups: seq<NodeGroup>) {
    forall i :: 0 <= i < |groups| ==>
      match RequestedCount(req, groups[i])
      case Some(n) => 0 <= n < 0x8000_0000
      case None => true
  }

  /** `after` is `groups` with every node group at its requested number of replicas, and
      untouched where none is requested. */
  ghost predicate ReplicasApplied(groups: seq<NodeGroup>, req: ReplicaRequest, after: seq<NodeGroup>) {
    && |after| == |groups|
    && forall i :: 0 <= i < |groups| ==>
         && after[i].id == groups[i].id
         && (match RequestedCount(req, groups[i])
             case Some(n) => |after[i].members| == n + 1
             case None => after[i].members == groups[i].members)
  }

  lemma {:induction false} LastIdentified(groups: seq<NodeGroup>, id: string)
    ensures id in LatestCounts(groups) <==> exists i :: 0 <= i < |groups| && groups[i].id == Some(id)
    ensures id in LatestCounts(groups) ==>
              exists i :: 0 <= i < |groups| && groups[i].id == Some(id)
                && LatestCounts(groups)[id] == Replicas(groups[i])
                && forall k :: i < k < |groups| ==> groups[k].id != Some(id)
  {
    if groups != [] {
      var n := |groups| - 1;
      var front := groups[..n];
      LastIdentified(front, id);
      if groups[n].id == Some(id) {
        assert LatestCounts(groups)[id] == Replicas(groups[n]);
      } else if id in LatestCounts(front) {
        var i :| 0 <= i < |front| && front[i].id == Some(id)
          && LatestCounts(front)[id] == Replicas(front[i])
          && forall k :: i < k < |front| ==> front[k].id != Some(id);
        assert groups[i] == front[i];
        forall k | i < k < |groups| ensures groups[k].id != Some(id) {
          if k < n { assert groups[k] == front[k]; }
        }
      }
    }
  }

  /** The counts observed after a listed request: the listed ones where there are any. */
  lemma CountsAfterListed(groups: seq<NodeGroup>, req: ReplicaRequest, after: seq<NodeGroup>, id: string)
    requires req.newReplicaCount == None && req.shards.Some?
    requires Acceptable(req, groups) && ReplicasApplied(groups, req, after)
    ensures id in LatestCounts(after) <==> id in LatestCounts(groups)
    ensures id in LatestCounts(after) ==>
              LatestCounts(after)[id] == ListedCount(req.shards.value, id).GetOr(LatestCounts(groups)[id])
  {
    LastIdentified(groups, id);
    LastIdentified(after, id);
    if id in LatestCounts(after) {
      var i :| 0 <= i < |groups| && groups[i].id == Some(id)
        && LatestCounts(groups)[id] == Replicas(groups[i])
        && forall k :: i < k < |groups| ==> groups[k].id != Some(id);
      var j :| 0 <= j < |after| && after[j].id == Some(id)
        && LatestCounts(after)[id] == Replicas(after[j])
        && forall k :: j < k < |after| ==> after[k].id != Some(id);
      assert after[i].id == groups[i].id && after[j].id == groups[j].id;
      assert i == j;
    }
  }

  predicate Counted(c: NodeGroupConfiguration, id: string) {
    c.id == Some(id) && c.replicaCount.Some?
  }

  /** A shard list taken from the configuration requests, for a node group, the count of the last
      configured entry for it. */
  ghost predicate ListsConfigured(shards: seq<ConfigureShard>, cfg: seq<NodeGroupConfiguration>, id: string) {
    match ListedCount(shards, id)
    case None => forall i :: 0 <= i < |cfg| ==> !Counted(cfg[i], id)
    case Some(n) =>
      exists i :: 0 <= i < |cfg| && Counted(cfg[i], id) && n == WrapInt32(cfg[i].replicaCount.value)
        && forall k :: i < k < |cfg| ==> !Counted(cfg[k], id)
  }

  lemma ListsConfiguredStep(shards: seq<ConfigureShard>, cfg: seq<NodeGroupConfiguration>, c: NodeGroupConfiguration,
                            entry: seq<ConfigureShard>, id: string)
    requires ListsConfigured(shards, cfg, id)
    requires |entry| <= 1
    requires Counted(c, id) ==> |entry| == 1
    requires |entry| == 1 ==> entry[0].id == c.id && entry[0].newReplicaCount == Int32OrNil(c.replicaCount)
    ensures ListsConfigured(shards + entry, cfg + [c], id)
  {
    var all := cfg + [c];
    if entry == [] {
      assert shards + entry == shards;
    } else {
      assert (shards + entry)[..|shards|] == shards;
    }
    if Counted(c, id) {
      assert Counted(all[|cfg|], id);
    } else if ListedCount(shards, id).Some? {
      var i :| 0 <= i < |cfg| && Counted(cfg[i], id)
        && ListedCount(shards, id).value == WrapInt32(cfg[i].replicaCount.value)
        && forall k :: i < k < |cfg| ==> !Counted(cfg[k], id);
      assert Counted(all[i], id);
    }
  }

  lemma {:induction false} IncreaseListsConfigured(cfg: seq<NodeGroupConfiguration>, known: set<string>, id: string)
    requires id in known
    ensures ListsConfigured(IncreaseShards(cfg, known), cfg, id)
  {
    if cfg != [] {
      var n := |cfg| - 1;
      IncreaseListsConfigured(cfg[..n], known, id);
      var entry := if cfg[n].id.Some? && cfg[n].id.value in known then [IncreaseShard(cfg[n])] else [];
      ListsConfiguredStep(IncreaseShards(cfg[..n], known), cfg[..n], cfg[n], entry, id);
      assert cfg[..n] + [cfg[n]] == cfg;
    }
  }

  lemma {:induction false} DecreaseListsConfigured(shards: seq<ConfigureShard>, cfg: seq<NodeGroupConfiguration>,
                                                   id: string)
    requires shards == DecreaseShards(cfg)
    ensures ListsConfigured(shards, cfg, id)
  {
    if cfg != [] {
      var n := |cfg| - 1;
      DecreaseListsConfigured(shards[..n], cfg[..n], id);
      ListsConfiguredStep(shards[..n], cfg[..n], cfg[n], [shards[n]], id);
      assert cfg[..n] + [cfg[n]] == cfg && shards[..n] + [shards[n]] == shards;
    }
  }

  /** The configuration can be met: no node group is given two different counts, and every count
      fits the 32 bits of the request. */
  predicate Consistent(cfg: seq<NodeGroupConfiguration>, counts: map<string, int64>) {
    && (forall i :: 0 <= i < |cfg| && Comparable(cfg[i], counts) ==>
          WrapInt32(cfg[i].replicaCount.value) == cfg[i].replicaCount.value)
    && (forall i, j :: 0 <= i < |cfg| && 0 <= j < |cfg| && Comparable(cfg[i], counts) && Comparable(cfg[j], counts) ==>
          cfg[i].id == cfg[j].id ==> cfg[i].replicaCount == cfg[j].replicaCount)
  }

  /** The request of one replica update, increase or decrease. */
  ghost predicate IsListedRequest(req: ReplicaRequest, cfg: seq<NodeGroupConfiguration>, groups: seq<NodeGroup>) {
    && req.newReplicaCount == None && req.shards.Some?
    && (req.shards.value == IncreaseShards(cfg, LatestCounts(groups).Keys) || req.shards.value == DecreaseShards(cfg))
  }

  lemma RequestListsConfigured(req: ReplicaRequest, cfg: seq<NodeGroupConfiguration>, groups: seq<NodeGroup>,
                               id: string)
    requires IsListedRequest(req, cfg, groups) && id in LatestCounts(groups)
    ensures ListsConfigured(req.shards.value, cfg, id)
  {
    if req.shards.value == IncreaseShards(cfg, LatestCounts(groups).Keys) {
      IncreaseListsConfigured(cfg, LatestCounts(groups).Keys, id);
    } else {
      DecreaseListsConfigured(req.shards.value, cfg, id);
    }
  }

  /** What an entry finds on the server after the request: the count of the last entry configured
      for the same node group, narrowed to 32 bits. */
  lemma ObservedAfter(req: ReplicaRequest, cfg: seq<NodeGroupConfiguration>, groups: seq<NodeGroup>,
                      after: seq<NodeGroup>, i: nat)
    returns (last: nat)
    requires IsListedRequest(req, cfg, groups) && Acceptable(req, groups) && ReplicasApplied(groups, req, after)
    requires i < |cfg| && Comparable(cfg[i], LatestCounts(groups))
    ensures last < |cfg| && Comparable(cfg[last], LatestCounts(groups)) && cfg[last].id == cfg[i].id
    ensures Comparable(cfg[i], LatestCounts(after))
    ensures LatestCounts(after)[cfg[i].id.value] == WrapInt32(cfg[last].replicaCount.value)
  {
    var id := cfg[i].id.value;
    RequestListsConfigured(req, cfg, groups, id);
    CountsAfterListed(groups, req, after, id);
    assert Counted(cfg[i], id);
    last :| 0 <= last < |cfg| && Counted(cfg[last], id)
      && ListedCount(req.shards.value, id).value == WrapInt32(cfg[last].replicaCount.value);
  }

  /** One request, applied, clears the per-shard replica difference, exactly when the
      configuration can be met at all. The node groups on the server need not be distinct. */
  lemma ListedReplicasConverge(req: ReplicaRequest, cfg: seq<NodeGroupConfiguration>, groups: seq<NodeGroup>,
                               after: seq<NodeGroup>)
    requires IsListedRequest(req, cfg, groups) && Acceptable(req, groups) && ReplicasApplied(groups, req, after)
    ensures FirstDifference(cfg, LatestCounts(after)) == 0 <==> Consistent(cfg, LatestCounts(groups))
  {
    var before, now := LatestCounts(groups), LatestCounts(after);
    FirstDifferenceMeaning(cfg, now);
    forall i | 0 <= i < |cfg|
      ensures Comparable(cfg[i], now) <==> Comparable(cfg[i], before)
    {
      if cfg[i].id.Some? {
        CountsAfterListed(groups, req, after, cfg[i].id.value);
      }
    }
    if Consistent(cfg, before) {
      forall i | 0 <= i < |cfg| && Comparable(cfg[i], now)
        ensures cfg[i].replicaCount.value == now[cfg[i].id.value]
      {
        var last := ObservedAfter(req, cfg, groups, after, i);
      }
    }
    if FirstDifference(cfg, now) == 0 {
      forall i | 0 <= i < |cfg| && Comparable(cfg[i], before)
        ensures WrapInt32(cfg[i].replicaCount.value) == cfg[i].replicaCount.value
      {
        var last := ObservedAfter(req, cfg, groups, after, i);
        WrapInt32Keeps(cfg[i].replicaCount.value);
      }
    }
  }

  /** What reading the group makes of a uniform replica count that the spec gives; reading the
      first of no node groups is out of bounds. */
  function ObservedReplicas(count: int64, groups: Option<Slice<NodeGroup>>): Option<int64> {
    if groups == None then Some(count)
    else if groups.value == [] then None
    else if |groups.value[0].members| > 0 then Some(|groups.value[0].members| - 1)
    else Some(count)
  }

  /** One request, applied, clears a uniform replica difference, exactly when the count fits
      the 32 bits of the request. */
  lemma UniformReplicasConverge(d: Resource, l: Resource, req: ReplicaRequest, after: Slice<NodeGroup>)
    requires d.spec.replicasPerNodeGroup.Some? && req.newReplicaCount == Int32OrNil(d.spec.replicasPerNodeGroup)
    requires |Groups(l.status.nodeGroups)| > 0
    requires Acceptable(req, Groups(l.status.nodeGroups)) && ReplicasApplied(Groups(l.status.nodeGroups), req, after)
    ensures var n := d.spec.replicasPerNodeGroup.value;
            var observed := ObservedReplicas(n, Some(after));
            && observed.Some?
            && (ReplicaCountDifference(d, l.(spec := l.spec.(replicasPerNodeGroup := observed))) == Some(0) <==>
                  WrapInt32(n) == n)
  {
    var n := d.spec.replicasPerNodeGroup.value;
    assert RequestedCount(req, Groups(l.status.nodeGroups)[0]) == Some(WrapInt32(n));
    assert |after[0].members| == WrapInt32(n) + 1;
    WrappedDifference(n, WrapInt32(n));
  }

  // ------------------------------------------------ shard requests

  function ConfiguredIds(cfg: seq<NodeGroupConfiguration>): seq<string> {
    if cfg == [] then []
    else
      var c := cfg[|cfg| - 1];
      ConfiguredIds(cfg[..|cfg| - 1]) + (if c.id.Some? then [c.id.value] else [])
  }

  function GroupIds(groups: seq<NodeGroup>): seq<string> {
    if groups == [] then []
    else
      var g := groups[|groups| - 1];
      GroupIds(groups[..|groups| - 1]) + (if g.id.Some? then [g.id.value] else [])
  }

  /** The primary zone is sent only together with replica zones. */
  function ReshardShard(c: NodeGroupConfiguration): ReshardingConfiguration {
    ReshardingConfiguration(
      c.id, if c.replicaZones.Some? then Some(PrimaryZone(c) + OrEmpty(c.replicaZones.value)) else None)
  }

  predicate Grows(d: Resource, l: Resource) {
    DesiredShards(d.spec).Some?
    && (LatestShards(l.status).Some? ==> DesiredShards(d.spec).value > LatestShards(l.status).value)
  }

  predicate Shrinks(d: Resource, l: Resource) {
    DesiredShards(d.spec).Some? && LatestShards(l.status).Some?
    && DesiredShards(d.spec).value < LatestShards(l.status).value
  }

  /** Building the shard request reads a nil zone, or a node group the recorded status lacks. */
  predicate ReshardCrashes(d: Resource, l: Resource) {
    if d.spec.nodeGroupConfiguration.Some? then !ZonesSet(d.spec.nodeGroupConfiguration.value)
    else Shrinks(d, l) && DesiredShards(d.spec).value > |Groups(d.status.nodeGroups)|
  }

  /** The ids a shrinking request keeps. */
  function Kept(d: Resource): seq<string>
    requires d.spec.nodeGroupConfiguration == None && DesiredShards(d.spec).Some? ==>
               DesiredShards(d.spec).value <= |Groups(d.status.nodeGroups)|
  {
    if d.spec.nodeGroupConfiguration.Some? then ConfiguredIds(d.spec.nodeGroupConfiguration.value)
    else if DesiredShards(d.spec) == None || DesiredShards(d.spec).value < 0 then []
    else GroupIds(Groups(d.status.nodeGroups)[..DesiredShards(d.spec).value])
  }

  /** The resharding entries and the ids of a per-shard configuration. */
  method ConfiguredShards(cfg: seq<NodeGroupConfiguration>)
    returns (r: Option<(seq<ReshardingConfiguration>, seq<string>)>)
    ensures r == None <==> !ZonesSet(cfg)
    ensures r.Some? ==> r.value == (ReshardShards(cfg), ConfiguredIds(cfg))
  {
    var shards: seq<ReshardingConfiguration>, ids: seq<string> := [], [];
    for i := 0 to |cfg|
      invariant ZonesSet(cfg[..i])
      invariant |shards| == i && forall k :: 0 <= k < i ==> shards[k] == ReshardShard(cfg[k])
      invariant ids == ConfiguredIds(cfg[..i])
    {
      assert cfg[..i + 1][..i] == cfg[..i];
      if cfg[i].id.Some? {
        ids := ids + [cfg[i].id.value];
      }
      var zones := CopyStrings(Zones(cfg[i].replicaZones), true);
      if zones == None {
        assert !AllSet(Zones(cfg[i].replicaZones));
        return None;
      }
      shards := shards + [ReshardingConfiguration(cfg[i].id,
                            if cfg[i].replicaZones.Some? then Some(PrimaryZone(cfg[i]) + zones.value) else None)];
    }
    assert cfg[..|cfg|] == cfg && shards == ReshardShards(cfg);
    return Some((shards, ids));
  }

  /** The ids of the first `n` node groups; there may be fewer. */
  method FirstGroupIds(groups: seq<NodeGroup>, n: int) returns (r: Option<seq<string>>)
    ensures r == None <==> n > |groups|
    ensures r.Some? ==> r.value == if n < 0 then [] else GroupIds(groups[..n])
  {
    var ids: seq<string> := [];
    var i := 0;
    while i < n
      invariant 0 <= i <= |groups| && (i == 0 || i <= n) && ids == GroupIds(groups[..i])
    {
      if i == |groups| {
        return None;
      }
      assert groups[..i + 1][..i] == groups[..i];
      if groups[i].id.Some? {
        ids := ids + [groups[i].id.value];
      }
      i := i + 1;
    }
    return Some(ids);
  }

  function ReshardShards(cfg: seq<NodeGroupConfiguration>): seq<ReshardingConfiguration> {
    seq(|cfg|, i requires 0 <= i < |cfg| => ReshardShard(cfg[i]))
  }

  /** A shard request never both reshards and retains, and never retains nothing. */
  function ReshardRequest(d: Resource, l: Resource): (p: Payload<ShardRequest>)
    ensures p.Built? ==> !(p.request.resharding.Some? && p.request.retain.Some?)
    ensures p.Built? ==> p.request.resharding != Some([]) && p.request.retain != Some([])
  {
    if ReshardCrashes(d, l) then Crashed
    else if Shrinks(d, l) && Kept(d) == [] then Refused
    else
      Built(ShardRequest(
        d.spec.replicationGroupID, Int32OrNil(DesiredShards(d.spec)),
        if Grows(d, l) && d.spec.nodeGroupConfiguration.Some?
        then NonEmpty(ReshardShards(d.spec.nodeGroupConfiguration.value)) else None,
        if Shrinks(d, l) then Some(Kept(d)) else None))
  }

  method ReshardPayload(d: Resource, l: Resource) returns (p: Payload<ShardRequest>)
    ensures p == ReshardRequest(d, l)
  {
    var increase, decrease := Grows(d, l), Shrinks(d, l);
    var shards: seq<ReshardingConfiguration>, retain: seq<string> := [], [];
    if d.spec.nodeGroupConfiguration.Some? {
      var configured := ConfiguredShards(d.spec.nodeGroupConfiguration.value);
      if configured == None {
        return Crashed;
      }
      shards, retain := configured.value.0, configured.value.1;
    } else if decrease {
      var first := FirstGroupIds(Groups(d.status.nodeGroups), DesiredShards(d.spec).value);
      if first == None {
        return Crashed;
      }
      retain := first.value;
    }
    var req := ShardRequest(d.spec.replicationGroupID, Int32OrNil(DesiredShards(d.spec)), None, None);
    if increase {
      if |shards| > 0 {
        req := req.(resharding := Some(shards));
      }
    } else if decrease {
      if |retain| == 0 {
        return Refused;
      }
      req := req.(retain := Some(retain));
    }
    return Built(req);
  }

  /** The number a spec gives for its shards: the count, or else the length of the configuration. */
  ghost predicate AsksFor(s: Spec, n: int) {
    if s.numNodeGroups.Some? then n == s.numNodeGroups.value
    else s.nodeGroupConfiguration.Some? && n == |s.nodeGroupConfiguration.value|
  }

  /** A server that ends with as many node groups as a request counts, growing or shrinking, has the
      number the spec asks for, and no shard difference, exactly when that number fits 32 bits. */
  lemma ShardRequestReachesCount(d: Resource, l: Resource, after: Slice<NodeGroup>, n: int)
    requires ReshardRequest(d, l).Built? && AsksFor(d.spec, n)
    requires ReshardRequest(d, l).request.nodeGroupCount.Some? ==>
               ReshardRequest(d, l).request.nodeGroupCount.value == |after|
    ensures ReshardRequest(d, l).request.nodeGroupCount.Some?
    ensures var reached := l.(status := l.status.(nodeGroups := Some(after)));
            && (!ShardConfigurationsDiffer(d, reached) <==> |after| == n)
            && (|after| == n <==> -0x8000_0000 <= n < 0x8000_0000)
  {
    WrapInt32Keeps(n);
  }

  /** A growing request describes every configured shard in its place: id, and, when replica zones are
      given, the primary and the replica zones. */
  lemma ReshardEntry(d: Resource, l: Resource, i: nat, n: int)
    requires ReshardRequest(d, l).Built? && AsksFor(d.spec, n)
    requires l.status.nodeGroups.Some? ==> n > |l.status.nodeGroups.value|
    requires d.spec.nodeGroupConfiguration.Some? && i < |d.spec.nodeGroupConfiguration.value|
    ensures var cfg := d.spec.nodeGroupConfiguration.value; var entries := ReshardRequest(d, l).request.resharding;
            && entries.Some? && |entries.value| == |cfg| && entries.value[i].id == cfg[i].id
            && entries.value[i].zones.Some? == cfg[i].replicaZones.Some?
            && (cfg[i].replicaZones.Some? ==>
                  ZonesAre(entries.value[i].zones.value, cfg[i].primaryZone, cfg[i].replicaZones.value))
  {
  }

  predicate Identified(groups: seq<NodeGroup>) {
    && (forall i :: 0 <= i < |groups| ==> groups[i].id.Some?)
    && (forall i, j :: 0 <= i < j < |groups| ==> groups[i].id != groups[j].id)
  }

  lemma {:induction false} GroupIdsOf(groups: seq<NodeGroup>)
    requires forall i :: 0 <= i < |groups| ==> groups[i].id.Some?
    ensures |GroupIds(groups)| == |groups|
    ensures forall i :: 0 <= i < |groups| ==> GroupIds(groups)[i] == groups[i].id.value
  {
    if groups != [] {
      GroupIdsOf(groups[..|groups| - 1]);
    }
  }

  /** A server that keeps the node groups a request names. */
  function Retained(groups: seq<NodeGroup>, ids: seq<string>): seq<NodeGroup> {
    if groups == [] then []
    else
      var g := groups[|groups| - 1];
      Retained(groups[..|groups| - 1], ids) + (if g.id.Some? && g.id.value in ids then [g] else [])
  }

  lemma {:induction false} RetainedPrefix(groups: seq<NodeGroup>, ids: seq<string>, n: nat)
    requires forall i :: 0 <= i < |groups| ==> groups[i].id.Some? && (groups[i].id.value in ids <==> i < n)
    ensures Retained(groups, ids) == if |groups| <= n then groups else groups[..n]
  {
    if groups != [] {
      var front := groups[..|groups| - 1];
      RetainedPrefix(front, ids, n);
      assert groups == front + [groups[|groups| - 1]];
    }
  }

  lemma AmongFirstIds(groups: seq<NodeGroup>, n: nat, i: nat)
    requires n <= |groups| && Identified(groups) && i < |groups|
    ensures groups[i].id.value in GroupIds(groups[..n]) <==> i < n
  {
    var ids := GroupIds(groups[..n]);
    GroupIdsOf(groups[..n]);
    if i < n {
      assert ids[i] == groups[i].id.value;
    } else {
      forall k | 0 <= k < |ids| ensures ids[k] != groups[i].id.value {
        assert ids[k] == groups[k].id.value;
      }
    }
  }

  lemma RetainedFirst(groups: seq<NodeGroup>, n: nat)
    requires n <= |groups| && Identified(groups)
    ensures Retained(groups, GroupIds(groups[..n])) == groups[..n]
  {
    var ids := GroupIds(groups[..n]);
    forall i | 0 <= i < |groups| ensures groups[i].id.Some? && (groups[i].id.value in ids <==> i < n) {
      AmongFirstIds(groups, n, i);
    }
    RetainedPrefix(groups, ids, n);
  }

  /** Shrinking without a per-shard configuration, when the recorded status mirrors the server:
      the request is built for every positive count, keeps exactly the first `n` node groups, and
      leaves no shard difference behind. It names as many as it counts exactly when the count fits
      32 bits. */
  lemma ScaleIn(d: Resource, l: Resource)
    requires d.spec.nodeGroupConfiguration == None && d.spec.numNodeGroups.Some?
    requires l.status.nodeGroups.Some? && d.spec.numNodeGroups.value < |l.status.nodeGroups.value|
    requires d.status.nodeGroups == l.status.nodeGroups && Identified(l.status.nodeGroups.value)
    ensures !ReshardRequest(d, l).Crashed?
    ensures ReshardRequest(d, l).Refused? <==> d.spec.numNodeGroups.value <= 0
    ensures d.spec.numNodeGroups.value > 0 ==>
              var n := d.spec.numNodeGroups.value; var groups := l.status.nodeGroups.value;
              var kept := ReshardRequest(d, l).request.retain.value;
              && |kept| == n
              && (forall i :: 0 <= i < n ==> groups[i].id == Some(kept[i]))
              && Retained(groups, kept) == groups[..n]
              && !ShardConfigurationsDiffer(d, l.(status := l.status.(nodeGroups := Some(Retained(groups, kept)))))
              && (ReshardRequest(d, l).request.nodeGroupCount == Some(|kept|) <==> n < 0x8000_0000)
  {
    var n, groups := d.spec.numNodeGroups.value, l.status.nodeGroups.value;
    if n > 0 {
      GroupIdsOf(groups[..n]);
      RetainedFirst(groups, n);
      WrapInt32Keeps(n);
    }
  }

  /** The configured shards that have no id. */
  function Anonymous(cfg: seq<NodeGroupConfiguration>): nat {
    |set i | 0 <= i < |cfg| && cfg[i].id == None|
  }

  lemma AnonymousLast(cfg: seq<NodeGroupConfiguration>)
    requires cfg != []
    ensures Anonymous(cfg) == Anonymous(cfg[..|cfg| - 1]) + (if cfg[|cfg| - 1].id == None then 1 else 0)
  {
    var n := |cfg| - 1;
    var before := set i | 0 <= i < n && cfg[..n][i].id == None;
    var now := set i | 0 <= i < |cfg| && cfg[i].id == None;
    assert now == if cfg[n].id == None then before + {n} else before;
  }

  lemma {:induction false} ConfiguredIdsCount(cfg: seq<NodeGroupConfiguration>)
    ensures |ConfiguredIds(cfg)| + Anonymous(cfg) == |cfg|
  {
    if cfg != [] {
      ConfiguredIdsCount(cfg[..|cfg| - 1]);
      AnonymousLast(cfg);
    }
  }

  lemma {:induction false} ConfiguredIdAt(cfg: seq<NodeGroupConfiguration>, i: nat)
    requires i < |cfg| && cfg[i].id.Some?
    ensures var p := |ConfiguredIds(cfg[..i])|;
            p < |ConfiguredIds(cfg)| && ConfiguredIds(cfg)[p] == cfg[i].id.value
  {
    var n := |cfg| - 1;
    if i < n {
      ConfiguredIdAt(cfg[..n], i);
      assert cfg[..n][..i] == cfg[..i];
    }
  }

  /** Shrinking with a per-shard configuration keeps every configured id, in order, whatever count is
      asked for: it names as many as it counts exactly when the entries without an id make up the
      surplus of entries over the count. */
  lemma ScaleInConfigured(d: Resource, l: Resource, n: int)
    requires d.spec.nodeGroupConfiguration.Some? && AsksFor(d.spec, n)
    requires l.status.nodeGroups.Some? && n < |l.status.nodeGroups.value|
    ensures var cfg := d.spec.nodeGroupConfiguration.value; var p := ReshardRequest(d, l);
            && (p.Crashed? <==> !ZonesSet(cfg))
            && (p.Refused? <==> ZonesSet(cfg) && Anonymous(cfg) == |cfg|)
            && (p.Built? ==>
                  && p.request.retain.Some?
                  && (|p.request.retain.value| == n <==> Anonymous(cfg) == |cfg| - n)
                  && forall i :: 0 <= i < |cfg| && cfg[i].id.Some? ==>
                       KeptAt(p.request.retain.value, |ConfiguredIds(cfg[..i])|, cfg[i].id.value))
  {
    var cfg := d.spec.nodeGroupConfiguration.value;
    ConfiguredIdsCount(cfg);
    forall i | 0 <= i < |cfg| && cfg[i].id.Some?
      ensures KeptAt(ConfiguredIds(cfg), |ConfiguredIds(cfg[..i])|, cfg[i].id.value)
    {
      ConfiguredIdAt(cfg, i);
    }
  }

  predicate KeptAt(ids: seq<string>, p: nat, id: string) {
    p < |ids| && ids[p] == id
  }

  // ------------------------------------------------ security groups

  /** The order of Go strings. */
  predicate Before(s: string, t: string) {
    if t == "" then false
    else if s == "" then true
    else s[0] < t[0] || (s[0] == t[0] && Before(s[1..], t[1..]))
  }

  lemma {:induction false} BeforeIsTotal(s: string, t: string)
    ensures Before(s, t) || Before(t, s) || s == t
    ensures !(Before(s, t) && Before(t, s)) && !Before(s, s)
  {
    if s != "" {
      BeforeIsTotal(s[1..], s[1..]);
      if t != "" {
        BeforeIsTotal(s[1..], t[1..]);
        if s[1..] == t[1..] && s[0] == t[0] {
          assert s == [s[0]] + s[1..] && t == [t[0]] + t[1..];
        }
      }
    }
  }

  lemma {:induction false} BeforeIsTransitive(s: string, t: string, u: string)
    requires !Before(t, s) && !Before(u, t)
    ensures !Before(u, s)
  {
    if s != "" && t != "" && u != "" && s[0] == t[0] == u[0] {
      BeforeIsTransitive(s[1..], t[1..], u[1..]);
    }
  }

  predicate Sorted(s: seq<string>) {
    forall i, j :: 0 <= i < j < |s| ==> !Before(s[j], s[i])
  }

  /** Sorts a list, and so stands for the library's sort. */
  method Sort(s: seq<string>) returns (r: seq<string>)
    ensures Sorted(r) && multiset(r) == multiset(s)
  {
    r := [];
    for i := 0 to |s|
      invariant Sorted(r) && multiset(r) == multiset(s[..i])
    {
      assert s[..i + 1] == s[..i] + [s[i]];
      r := Insert(r, s[i]);
    }
    assert s[..|s|] == s;
  }

  method Insert(s: seq<string>, x: string) returns (r: seq<string>)
    requires Sorted(s)
    ensures Sorted(r) && multiset(r) == multiset(s) + multiset{x}
  {
    var p := |s|;
    while p > 0 && Before(x, s[p - 1])
      invariant 0 <= p <= |s| && forall k :: p <= k < |s| ==> !Before(s[k], x)
    {
      p := p - 1;
      BeforeIsTotal(x, s[p]);
    }
    r := s[..p] + [x] + s[p..];
    InsertedInOrder(s, x, p);
    assert s == s[..p] + s[p..];
  }

  lemma InsertedInOrder(s: seq<string>, x: string, p: nat)
    requires Sorted(s) && p <= |s|
    requires p > 0 ==> !Before(x, s[p - 1])
    requires forall k :: p <= k < |s| ==> !Before(s[k], x)
    ensures Sorted(s[..p] + [x] + s[p..])
  {
    forall k | 0 <= k < p ensures !Before(x, s[k]) {
      if k < p - 1 { BeforeIsTransitive(s[k], s[p - 1], x); }
    }
  }

  lemma TailElements(s: seq<string>)
    requires s != []
    ensures multiset(s[1..]) == multiset(s) - multiset{s[0]}
  {
    assert s == [s[0]] + s[1..];
  }

  /** Two sorted lists of the same elements are the same list. */
  lemma {:induction false} SortedIsUnique(s: seq<string>, t: seq<string>)
    requires Sorted(s) && Sorted(t) && multiset(s) == multiset(t)
    ensures s == t
  {
    assert |multiset(s)| == |s| && |multiset(t)| == |t|;
    if s != [] {
      assert s[0] in multiset(s) && s[0] in t;
      SmallestFirst(s, t);
      SmallestFirst(t, s);
      BeforeIsTotal(s[0], t[0]);
      TailElements(s);
      TailElements(t);
      SortedIsUnique(s[1..], t[1..]);
    }
  }

  lemma SmallestFirst(s: seq<string>, t: seq<string>)
    requires Sorted(s) && s != [] && t != [] && multiset(s) == multiset(t)
    ensures !Before(t[0], s[0])
  {
    assert t[0] in multiset(t);
    var i :| 0 <= i < |s| && s[i] == t[0];
    BeforeIsTotal(s[0], t[0]);
  }

  /** The part of a cache cluster that the comparison reads. */
  datatype CacheCluster = CacheCluster(securityGroups: seq<Option<string>>)

  function ClusterIds(cluster: Option<CacheCluster>): seq<Option<string>> {
    if cluster.Some? then cluster.value.securityGroups else []
  }

  /** The given ids differ from the cluster's, order and nil ids apart. */
  predicate SecurityGroupsDiffer(s: Spec, cluster: Option<CacheCluster>) {
    s.securityGroupIDs.Some? && multiset(NonNil(s.securityGroupIDs.value)) != multiset(NonNil(ClusterIds(cluster)))
  }

  /** Compares the sorted lists element by element, which is comparing them as multisets. */
  method SecurityGroupIdsDiffer(s: Spec, cluster: Option<CacheCluster>) returns (differ: bool)
    ensures differ <==> SecurityGroupsDiffer(s, cluster)
    ensures differ <==>
              && s.securityGroupIDs.Some?
              && multiset(NonNil(s.securityGroupIDs.value))
                 != multiset(NonNil(if cluster.Some? then cluster.value.securityGroups else []))
  {
    if s.securityGroupIDs == None {
      return false;
    }
    var desiredIds := CollectNonNil(s.securityGroupIDs.value);
    desiredIds := Sort(desiredIds);
    var latestIds := CollectNonNil(ClusterIds(cluster));
    latestIds := Sort(latestIds);
    if multiset(desiredIds) == multiset(latestIds) {
      SortedIsUnique(desiredIds, latestIds);
    }
    var same := SameElements(desiredIds, latestIds);
    return !same;
  }

  method SameElements(s: seq<string>, t: seq<string>) returns (same: bool)
    ensures same <==> s == t
  {
    if |s| != |t| {
      return false;
    }
    for i := 0 to |s|
      invariant s[..i] == t[..i]
    {
      if s[i] != t[i] {
        return false;
      }
    }
    return true;
  }

  const CACHE_PARAMETER_GROUP_NAME: Path := ["Spec", "CacheParameterGroupName"]

  datatype ModifyRequest = ModifyRequest(
    groupID: Option<string>, securityGroupIDs: Option<seq<string>>, engineVersion: Option<string>,
    engine: Option<string>, cacheParameterGroupName: Option<string>)

  /** A modify request. A nil security group id, which the comparison skips, is dereferenced. */
  function ModifyingRequest(s: Spec, cluster: Option<CacheCluster>, delta: seq<Difference>): Payload<ModifyRequest> {
    if SecurityGroupsDiffer(s, cluster) && !AllSet(s.securityGroupIDs.value) then Crashed
    else
      Built(ModifyRequest(
        s.replicationGroupID,
        if SecurityGroupsDiffer(s, cluster) then Some(OrEmpty(s.securityGroupIDs.value)) else None,
        if DifferentAt(delta, ENGINE_VERSION) then s.engineVersion else None,
        if DifferentAt(delta, ENGINE) then s.engine else None,
        if DifferentAt(delta, CACHE_PARAMETER_GROUP_NAME) then s.cacheParameterGroupName else None))
  }

  method ModifyPayload(s: Spec, cluster: Option<CacheCluster>, delta: Delta) returns (p: Payload<ModifyRequest>)
    requires delta.Valid()
    ensures p == ModifyingRequest(s, cluster, delta.Differences())
  {
    var input := ModifyRequest(s.replicationGroupID, None, None, None, None);
    var differ := SecurityGroupIdsDiffer(s, cluster);
    if differ {
      var ids := CopyStrings(s.securityGroupIDs.value, true);
      if ids == None {
        return Crashed;
      }
      input := input.(securityGroupIDs := ids);
    }
    var at := delta.IsDifferentAt(ENGINE_VERSION);
    if at && s.engineVersion.Some? {
      input := input.(engineVersion := s.engineVersion);
    }
    at := delta.IsDifferentAt(ENGINE);
    if at && s.engine.Some? {
      input := input.(engine := s.engine);
    }
    at := delta.IsDifferentAt(CACHE_PARAMETER_GROUP_NAME);
    if at && s.cacheParameterGroupName.Some? {
      input := input.(cacheParameterGroupName := s.cacheParameterGroupName);
    }
    return Built(input);
  }

  /** The other fields of a group, and what a server makes of them on a modify request. */
  datatype Fields = Fields(
    engineVersion: Option<string>, engine: Option<string>, cacheParameterGroupName: Option<string>)

  function FieldsAfter(f: Fields, req: ModifyRequest): Fields {
    Fields(if req.engineVersion.Some? then req.engineVersion else f.engineVersion,
           if req.engine.Some? then req.engine else f.engine,
           if req.cacheParameterGroupName.Some? then req.cacheParameterGroupName else f.cacheParameterGroupName)
  }

  /** A modify request brings each field that differs to the spec's value, if it gives one, and leaves
      the others. */
  lemma ModifySettlesFields(s: Spec, cluster: Option<CacheCluster>, delta: seq<Difference>, f: Fields)
    requires ModifyingRequest(s, cluster, delta).Built?
    ensures var now := FieldsAfter(f, ModifyingRequest(s, cluster, delta).request);
            && now.engineVersion ==
                 (if DifferentAt(delta, ENGINE_VERSION) && s.engineVersion.Some?
                  then s.engineVersion else f.engineVersion)
            && now.engine == (if DifferentAt(delta, ENGINE) && s.engine.Some? then s.engine else f.engine)
            && now.cacheParameterGroupName ==
                 (if DifferentAt(delta, CACHE_PARAMETER_GROUP_NAME) && s.cacheParameterGroupName.Some?
                  then s.cacheParameterGroupName else f.cacheParameterGroupName)
  {
  }

  /** A cluster that took over the security groups of a request no longer differs, so they are
      sent once. */
  lemma SecurityGroupsSettle(s: Spec, cluster: Option<CacheCluster>, delta: seq<Difference>, after: seq<string>)
    requires ModifyingRequest(s, cluster, delta).Built?
    requires ModifyingRequest(s, cluster, delta).request.securityGroupIDs.Some?
    requires multiset(after) == multiset(ModifyingRequest(s, cluster, delta).request.securityGroupIDs.value)
    ensures !SecurityGroupsDiffer(s, Some(CacheCluster(seq(|after|, i requires 0 <= i < |after| => Some(after[i])))))
  {
    AllSetNonNil(s.securityGroupIDs.value);
    var ids := seq(|after|, i requires 0 <= i < |after| => Some(after[i]));
    AllSetNonNil(ids);
    assert OrEmpty(ids) == after;
  }
}
