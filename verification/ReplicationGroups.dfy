/** Replication groups as the update logic sees them, and the comparisons it rests on:
    readiness, replica counts, shard counts and the record of what was requested last
    (`pkg/resource/replication_group/hooks.go`). */
module ReplicationGroups {
  import opened Wrappers
  import opened GoNumbers

  /** A Go slice: its length fits an `int`. */
  type Slice<T> = s: seq<T> | |s| <= 0x7FFF_FFFF_FFFF_FFFF

  datatype NodeGroupMember = NodeGroupMember(cacheClusterID: Option<string>)

  datatype NodeGroup = NodeGroup(id: Option<string>, status: Option<string>, members: Slice<NodeGroupMember>)

  datatype NodeGroupConfiguration = NodeGroupConfiguration(
    id: Option<string>,
    primaryZone: Option<string>,
    primaryOutpostARN: Option<string>,
    replicaZones: Option<Slice<Option<string>>>,
    replicaCount: Option<int64>,
    replicaOutpostARNs: Option<Slice<Option<string>>>,
    slots: Option<string>)

  datatype Spec = Spec(
    replicationGroupID: Option<string>,
    numNodeGroups: Option<int64>,
    nodeGroupConfiguration: Option<Slice<NodeGroupConfiguration>>,
    replicasPerNodeGroup: Option<int64>,
    cacheNodeType: Option<string>,
    automaticFailoverEnabled: Option<bool>,
    multiAZEnabled: Option<bool>,
    securityGroupIDs: Option<seq<Option<string>>>,
    engine: Option<string>,
    engineVersion: Option<string>,
    cacheParameterGroupName: Option<string>,
    logDeliveryDocument: string)

  datatype Status = Status(
    status: Option<string>,
    nodeGroups: Option<Slice<NodeGroup>>,
    memberClusters: seq<string>,
    automaticFailover: Option<string>,
    multiAZ: Option<string>,
    allowedScaleUp: Option<seq<string>>)

  /** The value of an annotation: text, or the JSON document of a node-group configuration,
      represented by what it decodes to. */
  datatype AnnotationValue = Text(text: string) | Document(configuration: Slice<NodeGroupConfiguration>)

  type Annotations = map<string, AnnotationValue>

  datatype Resource = Resource(spec: Spec, status: Status, annotations: Annotations)

  const LAST_REQUESTED_LDCS := "elasticache.services.k8s.aws/last-requested-log-delivery-configurations"
  const LAST_REQUESTED_CNT := "elasticache.services.k8s.aws/last-requested-cache-node-type"
  const LAST_REQUESTED_NNG := "elasticache.services.k8s.aws/last-requested-num-node-groups"
  const LAST_REQUESTED_NGC := "elasticache.services.k8s.aws/last-requested-node-group-configuration"

  lemma AnnotationKeysDiffer()
    ensures LAST_REQUESTED_LDCS != LAST_REQUESTED_CNT
    ensures LAST_REQUESTED_LDCS != LAST_REQUESTED_NNG && LAST_REQUESTED_LDCS != LAST_REQUESTED_NGC
    ensures LAST_REQUESTED_CNT != LAST_REQUESTED_NNG && LAST_REQUESTED_CNT != LAST_REQUESTED_NGC
    ensures LAST_REQUESTED_NNG != LAST_REQUESTED_NGC
  {
    assert LAST_REQUESTED_LDCS[44] == 'l' && LAST_REQUESTED_CNT[44] == 'c' && LAST_REQUESTED_NNG[44] == 'n';
    assert LAST_REQUESTED_NGC[44] == 'n' && LAST_REQUESTED_NNG[45] == 'u' && LAST_REQUESTED_NGC[45] == 'o';
  }

  // ------------------------------------------------ readiness

  /** The response of an API call that describes a group. */
  datatype Response = Response(
    status: Option<string>, nodeGroups: Option<Slice<NodeGroup>>, memberClusters: seq<string>)

  /** The status a response leaves in the resource. */
  predicate Mirrors(s: Status, resp: Response) {
    s.status == resp.status && s.nodeGroups == resp.nodeGroups && s.memberClusters == resp.memberClusters
  }

  function Members(groups: seq<NodeGroup>): nat {
    if groups == [] then 0 else Members(groups[..|groups| - 1]) + |groups[|groups| - 1].members|
  }

  /** The members of all groups are counted once each, however the groups are split. */
  lemma {:induction false} MembersAdd(a: seq<NodeGroup>, b: seq<NodeGroup>)
    ensures Members(a + b) == Members(a) + Members(b)
    ensures |b| == 1 ==> Members(b) == |b[0].members|
  {
    if b == [] {
      assert a + b == a;
    } else {
      var n := |b| - 1;
      MembersAdd(a, b[..n]);
      assert (a + b)[..|a + b| - 1] == a + b[..n];
      if n == 0 {
        assert b[..0] == [];
      }
    }
  }

  predicate AllAvailable(groups: seq<NodeGroup>) {
    forall i :: 0 <= i < |groups| ==> groups[i].status == Some("available")
  }

  function Groups(groups: Option<Slice<NodeGroup>>): Slice<NodeGroup> {
    if groups.Some? then groups.value else []
  }

  /** A group can be modified: it and all its node groups are available, and every member
      cluster is accounted for by a node group. */
  predicate Ready(status: Option<string>, groups: seq<NodeGroup>, memberClusters: nat) {
    status == Some("available") && AllAvailable(groups) && memberClusters == Members(groups)
  }

  predicate IsReady(s: Status) {
    Ready(s.status, Groups(s.nodeGroups), |s.memberClusters|)
  }

  datatype Gate = Open | NotAvailable | MembersPending

  /** The gate of the update: one pass looks for a node group that is not available, another adds
      up the members. */
  method CheckGate(latest: Status) returns (g: Gate)
    ensures g == Open <==> IsReady(latest)
    ensures g == Open <==>
              && latest.status == Some("available")
              && (forall i :: 0 <= i < |Groups(latest.nodeGroups)| ==>
                    Groups(latest.nodeGroups)[i].status == Some("available"))
              && |latest.memberClusters| == Members(Groups(latest.nodeGroups))
    ensures g == NotAvailable <==> latest.status != Some("available") || !AllAvailable(Groups(latest.nodeGroups))
  {
    var allNodeGroupsAvailable, members := true, 0;
    if latest.nodeGroups.Some? {
      var groups := latest.nodeGroups.value;
      for i := 0 to |groups|
        invariant allNodeGroupsAvailable && AllAvailable(groups[..i])
      {
        if groups[i].status == None || groups[i].status.value != "available" {
          allNodeGroupsAvailable := false;
          break;
        }
      }
      for i := 0 to |groups|
        invariant members == Members(groups[..i])
      {
        assert groups[..i + 1][..i] == groups[..i];
        members := members + |groups[i].members|;
      }
      assert groups[..|groups|] == groups;
    }
    if latest.status == None || latest.status.value != "available" || !allNodeGroupsAvailable {
      return NotAvailable;
    }
    if |latest.memberClusters| != members {
      return MembersPending;
    }
    return Open;
  }

  datatype Synced = SyncedTrue | SyncedFalse | SyncedUnknown

  /** The synced condition computed from a response, with loops of its own. */
  method SyncStatus(resp: Response) returns (s: Synced)
    ensures s == SyncedUnknown <==> resp.status == None
    ensures s == SyncedTrue <==>
              resp.status == Some("create-failed") || Ready(resp.status, Groups(resp.nodeGroups), |resp.memberClusters|)
  {
    var allNodeGroupsAvailable, nodeGroupMembersCount := true, 0;
    if resp.nodeGroups.Some? {
      var groups := resp.nodeGroups.value;
      for i := 0 to |groups|
        invariant allNodeGroupsAvailable && AllAvailable(groups[..i])
      {
        if groups[i].status == None || groups[i].status.value != "available" {
          allNodeGroupsAvailable := false;
          break;
        }
      }
      for k := 0 to |groups|
        invariant nodeGroupMembersCount == Members(groups[..k])
      {
        assert groups[..k + 1][..k] == groups[..k];
        nodeGroupMembersCount := nodeGroupMembersCount + |groups[k].members|;
      }
      assert groups[..|groups|] == groups;
    }
    s := SyncedUnknown;
    if resp.status.Some? {
      if (resp.status.value == "available" && allNodeGroupsAvailable && |resp.memberClusters| == nodeGroupMembersCount)
         || resp.status.value == "create-failed" {
        s := SyncedTrue;
      } else {
        s := SyncedFalse;
      }
    }
  }

  /** The update proceeds exactly on the observations reported as synced, a failed creation
      aside: the two computations never disagree. */
  method GateMeetsSync(resp: Response, observed: Status) returns (g: Gate, s: Synced)
    requires Mirrors(observed, resp)
    ensures g == Open <==> s == SyncedTrue && resp.status != Some("create-failed")
  {
    g := CheckGate(observed);
    s := SyncStatus(resp);
  }

  // ------------------------------------------------ replica counts

  function Replicas(g: NodeGroup): int64 {
    if |g.members| > 0 then |g.members| - 1 else 0
  }

  /** The replicas of each identified node group. */
  function LatestCounts(groups: seq<NodeGroup>): map<string, int64> {
    if groups == [] then map[]
    else
      var g, m := groups[|groups| - 1], LatestCounts(groups[..|groups| - 1]);
      if g.id.Some? then m[g.id.value := Replicas(g)] else m
  }

  method CollectReplicaCounts(groups: Slice<NodeGroup>) returns (m: map<string, int64>)
    ensures m == LatestCounts(groups)
  {
    m := map[];
    for i := 0 to |groups|
      invariant m == LatestCounts(groups[..i])
    {
      assert groups[..i + 1][..i] == groups[..i];
      if groups[i].id == None {
        continue;
      }
      var count: int64 := 0;
      if |groups[i].members| > 0 {
        count := |groups[i].members| - 1;
      }
      m := m[groups[i].id.value := count];
    }
    assert groups[..|groups|] == groups;
  }

  /** An entry whose replica count can be compared with the server's. */
  predicate Comparable(c: NodeGroupConfiguration, counts: map<string, int64>) {
    c.id.Some? && c.replicaCount.Some? && c.id.value in counts
  }

  predicate Mismatched(c: NodeGroupConfiguration, counts: map<string, int64>) {
    Comparable(c, counts) && c.replicaCount.value != counts[c.id.value]
  }

  /** The difference of the first comparable entry that differs, 0 if there is none. */
  function FirstDifference(cfg: seq<NodeGroupConfiguration>, counts: map<string, int64>): int64 {
    if cfg == [] then 0
    else if Mismatched(cfg[0], counts) then WrapInt64(cfg[0].replicaCount.value - counts[cfg[0].id.value])
    else FirstDifference(cfg[1..], counts)
  }

  method DiffReplicasNodeGroupConfiguration(cfg: Slice<NodeGroupConfiguration>, groups: Slice<NodeGroup>)
    returns (d: int64)
    ensures d == FirstDifference(cfg, LatestCounts(groups))
  {
    var counts := CollectReplicaCounts(groups);
    for i := 0 to |cfg|
      invariant FirstDifference(cfg, counts) == FirstDifference(cfg[i..], counts)
    {
      assert cfg[i..][1..] == cfg[i + 1..];
      if cfg[i].id == None || cfg[i].replicaCount == None {
        continue;
      }
      if cfg[i].id.value !in counts {
        continue;
      }
      var desired: int := cfg[i].replicaCount.value;
      if desired != counts[cfg[i].id.value] {
        return WrapInt64(desired - counts[cfg[i].id.value]);
      }
    }
    return 0;
  }

  /** Entry `i` is the first that differs, and `diff` is its difference. */
  predicate FirstMismatch(cfg: seq<NodeGroupConfiguration>, counts: map<string, int64>, i: int, diff: int64) {
    && 0 <= i < |cfg| && Mismatched(cfg[i], counts)
    && diff == WrapInt64(cfg[i].replicaCount.value - counts[cfg[i].id.value])
    && forall k :: 0 <= k < i ==> !Mismatched(cfg[k], counts)
  }

  /** The difference is zero exactly when every comparable entry already matches; otherwise it is
      that of the first mismatch. */
  lemma {:induction false} FirstDifferenceMeaning(cfg: seq<NodeGroupConfiguration>, counts: map<string, int64>)
    ensures FirstDifference(cfg, counts) == 0 <==> forall i :: 0 <= i < |cfg| ==> !Mismatched(cfg[i], counts)
    ensures FirstDifference(cfg, counts) != 0 ==>
              exists i :: FirstMismatch(cfg, counts, i, FirstDifference(cfg, counts))
  {
    if cfg != [] {
      var c, diff := cfg[0], FirstDifference(cfg, counts);
      if Mismatched(c, counts) {
        WrappedDifference(c.replicaCount.value, counts[c.id.value]);
        assert FirstMismatch(cfg, counts, 0, diff);
      } else {
        var rest := cfg[1..];
        FirstDifferenceMeaning(rest, counts);
        assert forall i :: 0 < i < |cfg| ==> cfg[i] == rest[i - 1];
        if diff != 0 {
          var i :| FirstMismatch(rest, counts, i, diff);
          assert cfg[i + 1] == rest[i];
          assert FirstMismatch(cfg, counts, i + 1, diff);
        }
      }
    }
  }

  /** The replica difference between desired and observed; `None` is a nil dereference. */
  function ReplicaCountDifference(d: Resource, l: Resource): Option<int64> {
    if d.spec.replicasPerNodeGroup.Some? then
      if l.spec.replicasPerNodeGroup.Some?
      then Some(WrapInt64(d.spec.replicasPerNodeGroup.value - l.spec.replicasPerNodeGroup.value))
      else None
    else if d.spec.nodeGroupConfiguration.Some?
    then Some(FirstDifference(d.spec.nodeGroupConfiguration.value, LatestCounts(Groups(l.status.nodeGroups))))
    else Some(0)
  }

  // ------------------------------------------------ shard counts

  function DesiredShards(s: Spec): Option<int64> {
    if s.numNodeGroups.Some? then s.numNodeGroups
    else if s.nodeGroupConfiguration.Some? then Some(|s.nodeGroupConfiguration.value|)
    else None
  }

  function LatestShards(s: Status): Option<int64> {
    if s.nodeGroups.Some? then Some(|s.nodeGroups.value|) else None
  }

  predicate ShardConfigurationsDiffer(d: Resource, l: Resource) {
    DesiredShards(d.spec).Some? && DesiredShards(d.spec) != LatestShards(l.status)
  }

  // ------------------------------------------------ what was requested last

  /** JSON leaves out an empty list, so it comes back as no list. */
  function Normalized(c: NodeGroupConfiguration): NodeGroupConfiguration {
    c.(replicaZones := if c.replicaZones == Some([]) then None else c.replicaZones,
       replicaOutpostARNs := if c.replicaOutpostARNs == Some([]) then None else c.replicaOutpostARNs)
  }

  function Encoded(cfg: Option<Slice<NodeGroupConfiguration>>): AnnotationValue {
    if cfg == None then Text("null")
    else Document(seq(|cfg.value|, i requires 0 <= i < |cfg.value| => Normalized(cfg.value[i])))
  }

  /** A text that no configuration was written as decodes to nothing. */
  function Decoded(v: AnnotationValue): Option<Slice<NodeGroupConfiguration>> {
    if v.Document? then Some(v.configuration) else None
  }

  function NumNodeGroupsText(s: Spec): AnnotationValue {
    Text(if s.numNodeGroups.Some? then Itoa(s.numNodeGroups.value) else "null")
  }

  predicate Recorded(a: Annotations, key: string) {
    key in a && a[key] != Text("null")
  }

  predicate CacheNodeTypeRequiresUpdate(d: Resource) {
    if LAST_REQUESTED_CNT in d.annotations && d.spec.cacheNodeType.Some?
    then d.annotations[LAST_REQUESTED_CNT] != Text(d.spec.cacheNodeType.value)
    else true
  }

  /** Whether the shard configuration asked for is not the one requested last. A count that was
      recorded but is no longer given is dereferenced all the same: `None`. */
  function NodeGroupRequiresUpdate(s: Spec, a: Annotations): Option<bool> {
    if Recorded(a, LAST_REQUESTED_NNG) then
      var v := a[LAST_REQUESTED_NNG];
      if v.Document? || !ParseInt64(v.text).ok then Some(false)
      else if s.numNodeGroups == None then None
      else Some(ParseInt64(v.text).value != s.numNodeGroups.value)
    else if Recorded(a, LAST_REQUESTED_NGC) then
      Some(s.nodeGroupConfiguration != Decoded(a[LAST_REQUESTED_NGC]))
    else Some(true)
  }

  /** The annotations after a shard request succeeded. */
  function ShardsRecorded(s: Spec, a: Annotations): Annotations {
    a[LAST_REQUESTED_NGC := Encoded(s.nodeGroupConfiguration)][LAST_REQUESTED_NNG := NumNodeGroupsText(s)]
  }

  /** The annotations after a modify request succeeded. */
  function ModifyRecorded(s: Spec, a: Annotations): Annotations {
    var b := a[LAST_REQUESTED_LDCS := Text(s.logDeliveryDocument)];
    if s.cacheNodeType.Some? then b[LAST_REQUESTED_CNT := Text(s.cacheNodeType.value)] else b
  }

  /** A resource object whose annotation map may still be nil. */
  class ResourceObject {
    var annotations: Option<Annotations>

    constructor (annotations: Option<Annotations>)
      ensures this.annotations == annotations
    {
      this.annotations := annotations;
    }

    function All(): Annotations
      reads this
    {
      annotations.GetOr(map[])
    }
  }

  /** Gives `ko` an annotation map if it has none, copied from the desired resource key by key. */
  method GetAnnotationsFields(desired: Annotations, ko: ResourceObject)
    modifies ko
    ensures ko.annotations == Some(old(ko.annotations).GetOr(desired))
  {
    if ko.annotations.Some? {
      return;
    }
    var copy: Annotations := map[];
    var rest := desired.Keys;
    while rest != {}
      invariant rest <= desired.Keys && copy.Keys == desired.Keys - rest
      invariant forall k :: k in copy ==> copy[k] == desired[k]
      decreases |rest|
    {
      var k :| k in rest;
      rest := rest - {k};
      copy := copy[k := desired[k]];
    }
    assert copy == desired;
    ko.annotations := Some(copy);
  }

  method SetLastRequestedNodeGroupConfiguration(d: Resource, ko: ResourceObject)
    modifies ko
    ensures ko.annotations
         == Some(old(ko.annotations).GetOr(d.annotations)[LAST_REQUESTED_NGC := Encoded(d.spec.nodeGroupConfiguration)])
  {
    GetAnnotationsFields(d.annotations, ko);
    ko.annotations := Some(ko.All()[LAST_REQUESTED_NGC := Encoded(d.spec.nodeGroupConfiguration)]);
  }

  method SetLastRequestedNumNodeGroups(d: Resource, ko: ResourceObject)
    modifies ko
    ensures ko.annotations
         == Some(old(ko.annotations).GetOr(d.annotations)[LAST_REQUESTED_NNG := NumNodeGroupsText(d.spec)])
  {
    GetAnnotationsFields(d.annotations, ko);
    if d.spec.numNodeGroups.Some? {
      ko.annotations := Some(ko.All()[LAST_REQUESTED_NNG := Text(Itoa(d.spec.numNodeGroups.value))]);
    } else {
      ko.annotations := Some(ko.All()[LAST_REQUESTED_NNG := Text("null")]);
    }
  }

  method SetAnnotationsFields(d: Resource, ko: ResourceObject)
    modifies ko
    ensures ko.annotations == Some(ModifyRecorded(d.spec, old(ko.annotations).GetOr(d.annotations)))
  {
    GetAnnotationsFields(d.annotations, ko);
    ko.annotations := Some(ko.All()[LAST_REQUESTED_LDCS := Text(d.spec.logDeliveryDocument)]);
    if d.spec.cacheNodeType.Some? {
      ko.annotations := Some(ko.All()[LAST_REQUESTED_CNT := Text(d.spec.cacheNodeType.value)]);
    }
  }

  /** The recorded shard configuration compares equal to the one that was requested: the count
      if it is given, otherwise the per-shard configuration as it survives its encoding. */
  predicate Survives(s: Spec) {
    s.numNodeGroups.Some? ||
    (s.nodeGroupConfiguration.Some? ==>
       forall i :: 0 <= i < |s.nodeGroupConfiguration.value| ==>
         Normalized(s.nodeGroupConfiguration.value[i]) == s.nodeGroupConfiguration.value[i])
  }

  /** Right after a spec's shard configuration is recorded, it reads as requested already exactly
      when it is given and survives being recorded. */
  lemma RecordedReadsBack(s: Spec, a: Annotations)
    requires DesiredShards(s).Some?
    ensures NodeGroupRequiresUpdate(s, ShardsRecorded(s, a)) == Some(!Survives(s))
  {
    AnnotationKeysDiffer();
    var b := ShardsRecorded(s, a);
    if s.numNodeGroups.Some? {
      ParseItoa(s.numNodeGroups.value);
      ItoaIsNotNull(s.numNodeGroups.value);
    } else {
      var cfg := s.nodeGroupConfiguration.value;
      var back := Decoded(b[LAST_REQUESTED_NGC]).value;
      assert b[LAST_REQUESTED_NGC] == Encoded(s.nodeGroupConfiguration);
      assert back == cfg <==> forall i :: 0 <= i < |cfg| ==> Normalized(cfg[i]) == cfg[i];
    }
  }

  /** What a record made for one spec says of another. A recorded count calls for an update exactly
      when the count is another, and cannot be compared with none; without a recorded count, a
      recorded configuration does exactly when it is another than the one that reads back, whatever
      count is given now; and no record always does. */
  lemma RecordAgainst(s: Spec, t: Spec, a: Annotations)
    ensures var required := NodeGroupRequiresUpdate(t, ShardsRecorded(s, a));
            if s.numNodeGroups.Some? then
              required == if t.numNodeGroups.Some? then Some(t.numNodeGroups != s.numNodeGroups) else None
            else if s.nodeGroupConfiguration.Some? then
              required == Some(!ReadsBackAs(s.nodeGroupConfiguration.value, t.nodeGroupConfiguration))
            else required == Some(true)
  {
    AnnotationKeysDiffer();
    if s.numNodeGroups.Some? {
      ParseItoa(s.numNodeGroups.value);
      ItoaIsNotNull(s.numNodeGroups.value);
    } else if s.nodeGroupConfiguration.Some? {
      var cfg := s.nodeGroupConfiguration.value;
      var back := Decoded(ShardsRecorded(s, a)[LAST_REQUESTED_NGC]).value;
      assert t.nodeGroupConfiguration.Some? && t.nodeGroupConfiguration.value == back
        <==> ReadsBackAs(cfg, t.nodeGroupConfiguration);
    }
  }

  /** `now` is the configuration that `recorded` reads back as. */
  predicate ReadsBackAs(recorded: Slice<NodeGroupConfiguration>, now: Option<Slice<NodeGroupConfiguration>>) {
    && now.Some? && |now.value| == |recorded|
    && forall i :: 0 <= i < |recorded| ==> now.value[i] == Normalized(recorded[i])
  }

  lemma SurvivingReadsBack(s: Spec, now: Option<Slice<NodeGroupConfiguration>>)
    requires Survives(s) && s.numNodeGroups == None && s.nodeGroupConfiguration.Some?
    ensures ReadsBackAs(s.nodeGroupConfiguration.value, now) <==> now == s.nodeGroupConfiguration
  {
    var cfg := s.nodeGroupConfiguration.value;
    if ReadsBackAs(cfg, now) {
      assert now.value == cfg;
    }
  }

  /** A recorded node type calls for an update exactly when the spec gives another one, or none. */
  lemma NodeTypeAgainst(s: Spec, d: Resource, a: Annotations)
    requires s.cacheNodeType.Some? && d.annotations == ModifyRecorded(s, a)
    ensures CacheNodeTypeRequiresUpdate(d) <==> d.spec.cacheNodeType != s.cacheNodeType
  {
    AnnotationKeysDiffer();
  }

  /** Both records leave every annotation with another key as it is. */
  lemma OtherAnnotationsKept(s: Spec, a: Annotations, key: string)
    requires key != LAST_REQUESTED_LDCS && key != LAST_REQUESTED_CNT
    requires key != LAST_REQUESTED_NNG && key != LAST_REQUESTED_NGC
    ensures key in ShardsRecorded(s, a) <==> key in a
    ensures key in ModifyRecorded(s, a) <==> key in a
    ensures key in a ==> ShardsRecorded(s, a)[key] == ModifyRecorded(s, a)[key] == a[key]
  {
  }

  /** Recording a modify request does not touch the record of the shards. */
  lemma ModifyKeepsShardRecord(s: Spec, a: Annotations)
    ensures NodeGroupRequiresUpdate(s, ModifyRecorded(s, a)) == NodeGroupRequiresUpdate(s, a)
    ensures LAST_REQUESTED_LDCS in ModifyRecorded(s, a)
            && ModifyRecorded(s, a)[LAST_REQUESTED_LDCS] == Text(s.logDeliveryDocument)
  {
    AnnotationKeysDiffer();
  }
}
