/** What the update of a replication group means over whole runs: rounds that start from the
    annotations the round before left, for one spec and any observations and answers. */
module ReplicationRuns {
  import opened Wrappers
  import opened GoNumbers
  import opened Deltas
  import opened ReplicationGroups
  import opened ReplicationPayloads
  import opened ReplicationUpdate

  const NODE_GROUP_CONFIGURATION: Path := ["Spec", "NodeGroupConfiguration"]
  const NUM_NODE_GROUPS: Path := ["Spec", "NumNodeGroups"]

  function Next(spec: Spec, a: Annotations, r: Round): Annotations {
    if OutcomeOf(spec, a, r).Updated? then OutcomeOf(spec, a, r).annotations else a
  }

  function AllExchanges(spec: Spec, a: Annotations, rounds: seq<Round>): seq<Exchange>
    decreases |rounds|
  {
    if rounds == [] then []
    else Exchanges(spec, a, rounds[0]) + AllExchanges(spec, Next(spec, a, rounds[0]), rounds[1..])
  }

  /** Every round observes at least one node group, and something differs. */
  predicate Realistic(rounds: seq<Round>) {
    forall i :: 0 <= i < |rounds| ==> Groups(rounds[i].latest.status.nodeGroups) != [] && rounds[i].delta != []
  }

  // ------------------------------------------------ changing the shards

  /** The server changed the shards in this round. */
  predicate Resharded(spec: Spec, a: Annotations, r: Round) {
    exists k :: 0 <= k < |Exchanges(spec, a, r)| && Exchanges(spec, a, r)[k].request.Reshard?
      && Exchanges(spec, a, r)[k].answer != Failed
  }

  /** It did, but its answer held no group, so the change was not put on record. */
  predicate LostReshard(spec: Spec, a: Annotations, r: Round) {
    Resharded(spec, a, r) && r.answers.0 == WithoutGroup
  }

  function Reshardings(spec: Spec, a: Annotations, rounds: seq<Round>): nat
    decreases |rounds|
  {
    if rounds == [] then 0
    else (if Resharded(spec, a, rounds[0]) then 1 else 0) + Reshardings(spec, Next(spec, a, rounds[0]), rounds[1..])
  }

  function LostReshardings(spec: Spec, a: Annotations, rounds: seq<Round>): nat
    decreases |rounds|
  {
    if rounds == [] then 0
    else
      (if LostReshard(spec, a, rounds[0]) then 1 else 0)
      + LostReshardings(spec, Next(spec, a, rounds[0]), rounds[1..])
  }

  /** The shard configuration of the spec is on record as requested. */
  predicate Settled(spec: Spec, a: Annotations) {
    NodeGroupRequiresUpdate(spec, a) == Some(false)
  }

  lemma ReshardedPlan(spec: Spec, a: Annotations, r: Round)
    ensures Resharded(spec, a, r) <==>
              !DifferentAt(r.delta, TAGS) && PlanOf(spec, a, r).Send? && PlanOf(spec, a, r).request.Reshard?
              && r.answers.0 != Failed
  {
    var p := PlanOf(spec, a, r);
    if p.Send? && !DifferentAt(r.delta, TAGS) {
      assert Exchanges(spec, a, r)[0] == Exchange(p.request, r.answers.0);
    }
  }

  lemma ReshardRecords(spec: Spec, a: Annotations, r: Round)
    requires Resharded(spec, a, r) && !LostReshard(spec, a, r)
    ensures DesiredShards(spec).Some? && Next(spec, a, r) == ShardsRecorded(spec, a)
  {
    ReshardedPlan(spec, a, r);
    WhenShardsChange(DesiredIn(spec, a, r), r.latest, r.delta, r.described);
  }

  /** A change of shards that is answered with the group puts the configuration on record. */
  lemma ReshardSettles(spec: Spec, a: Annotations, r: Round)
    requires Survives(spec) && Resharded(spec, a, r) && !LostReshard(spec, a, r)
    ensures Settled(spec, Next(spec, a, r))
  {
    ReshardRecords(spec, a, r);
    RecordedReadsBack(spec, a);
  }

  /** Once on record it stays on record, and the shards are left alone. */
  lemma SettledStays(spec: Spec, a: Annotations, r: Round)
    requires Settled(spec, a)
    ensures !Resharded(spec, a, r) && Settled(spec, Next(spec, a, r))
  {
    ReshardedPlan(spec, a, r);
    var d := DesiredIn(spec, a, r);
    WhenShardsChange(d, r.latest, r.delta, r.described);
    ModifyKeepsShardRecord(spec, a);
    assert Next(spec, a, r) == a || Next(spec, a, r) == ModifyRecorded(spec, a);
  }

  lemma {:induction false} SettledRun(spec: Spec, a: Annotations, rounds: seq<Round>)
    requires Settled(spec, a)
    ensures Reshardings(spec, a, rounds) == 0
    decreases |rounds|
  {
    if rounds != [] {
      SettledStays(spec, a, rounds[0]);
      SettledRun(spec, Next(spec, a, rounds[0]), rounds[1..]);
    }
  }

  /** From any annotations and over any run, the shards are changed at most once for one spec, not
      counting the changes whose answer held no group. */
  lemma {:induction false} ReshardsAtMostOnce(spec: Spec, a: Annotations, rounds: seq<Round>)
    requires Survives(spec)
    ensures Reshardings(spec, a, rounds) <= 1 + LostReshardings(spec, a, rounds)
    decreases |rounds|
  {
    if rounds != [] {
      var next := Next(spec, a, rounds[0]);
      if Resharded(spec, a, rounds[0]) && !LostReshard(spec, a, rounds[0]) {
        ReshardSettles(spec, a, rounds[0]);
        SettledRun(spec, next, rounds[1..]);
      } else {
        ReshardsAtMostOnce(spec, next, rounds[1..]);
      }
    }
  }

  /** A group created from a spec starts with that spec's shards on record, so they are never
      changed for it. */
  lemma CreatedNeverReshards(spec: Spec, a: Annotations, rounds: seq<Round>)
    requires Survives(spec)
    ensures Reshardings(spec, ShardsRecorded(spec, a), rounds) == 0
  {
    if DesiredShards(spec).Some? {
      RecordedReadsBack(spec, a);
      SettledRun(spec, ShardsRecorded(spec, a), rounds);
    } else {
      UnsendableRun(spec, ShardsRecorded(spec, a), rounds);
    }
  }

  // ------------------------------------------------ a spec that was edited

  /** A ready round with its tags in place, in which nothing comes before the shards. */
  predicate ShardsAreNext(d: Resource, r: Round) {
    && IsReady(r.latest.status) && !DifferentAt(r.delta, TAGS)
    && (DifferentAt(r.delta, CACHE_NODE_TYPE) ==> CacheNodeTypeRequiresUpdate(d))
    && NothingToSwitchOff(d, r.latest) && !ScalesUp(d, r.delta)
    && ReplicaCountDifference(d, r.latest) == Some(0)
    && ShardConfigurationsDiffer(d, r.latest) && ReshardRequest(d, r.latest).Built?
    && r.answers.0 != Failed
  }

  lemma RequiredIsActedOn(t: Spec, a: Annotations, r: Round)
    requires ShardsAreNext(DesiredIn(t, a, r), r) && NodeGroupRequiresUpdate(t, a).Some?
    ensures Resharded(t, a, r) <==> NodeGroupRequiresUpdate(t, a) == Some(true)
    ensures NodeGroupRequiresUpdate(t, a) == Some(false) ==> OutcomeOf(t, a, r) == Rejected(NodeGroups)
  {
    ReshardedPlan(t, a, r);
    WhenShardsChange(DesiredIn(t, a, r), r.latest, r.delta, r.described);
  }

  /** With the count of one spec on record, a round of another spec changes the shards exactly when it
      gives another count; for the same count it reports a rolled-back change. */
  lemma EditedCountIsActedOn(s: Spec, t: Spec, a: Annotations, r: Round)
    requires s.numNodeGroups.Some? && t.numNodeGroups.Some?
    requires ShardsAreNext(DesiredIn(t, ShardsRecorded(s, a), r), r)
    ensures Resharded(t, ShardsRecorded(s, a), r) <==> t.numNodeGroups != s.numNodeGroups
    ensures t.numNodeGroups == s.numNodeGroups ==> OutcomeOf(t, ShardsRecorded(s, a), r) == Rejected(NodeGroups)
  {
    RecordAgainst(s, t, a);
    RequiredIsActedOn(t, ShardsRecorded(s, a), r);
  }

  /** With a per-shard configuration on record and no count, exactly when the configuration is
      another; a count given since then is not looked at. */
  lemma EditedConfigurationIsActedOn(s: Spec, t: Spec, a: Annotations, r: Round)
    requires s.numNodeGroups == None && s.nodeGroupConfiguration.Some? && Survives(s)
    requires ShardsAreNext(DesiredIn(t, ShardsRecorded(s, a), r), r)
    ensures Resharded(t, ShardsRecorded(s, a), r) <==> t.nodeGroupConfiguration != s.nodeGroupConfiguration
    ensures t.nodeGroupConfiguration == s.nodeGroupConfiguration ==>
              OutcomeOf(t, ShardsRecorded(s, a), r) == Rejected(NodeGroups)
  {
    RecordAgainst(s, t, a);
    SurvivingReadsBack(s, t.nodeGroupConfiguration);
    RequiredIsActedOn(t, ShardsRecorded(s, a), r);
  }

  // ------------------------------------------------ when nothing limits the changes

  /** Some observed number of node groups makes the spec ask for a change of shards that can be
      sent: its zones are given, and it can grow, which takes two shards, or shrink, which takes a
      node group to keep. */
  predicate Sendable(s: Spec) {
    && DesiredShards(s).Some? && ZonesGiven(s)
    && (|| DesiredShards(s).value >= 2
        || (s.nodeGroupConfiguration.Some? && ConfiguredIds(s.nodeGroupConfiguration.value) != [])
        || (s.nodeGroupConfiguration == None && DesiredShards(s).value == 1))
  }

  /** Without it no round changes the shards. */
  lemma UnsendableRound(spec: Spec, a: Annotations, r: Round)
    requires !Sendable(spec)
    requires Groups(r.latest.status.nodeGroups) != [] || DesiredShards(spec) == None
    ensures !Resharded(spec, a, r)
  {
    ReshardedPlan(spec, a, r);
    WhenShardsChange(DesiredIn(spec, a, r), r.latest, r.delta, r.described);
  }

  lemma {:induction false} UnsendableRun(spec: Spec, a: Annotations, rounds: seq<Round>)
    requires !Sendable(spec) && (Realistic(rounds) || DesiredShards(spec) == None)
    ensures Reshardings(spec, a, rounds) == 0
    decreases |rounds|
  {
    if rounds != [] {
      UnsendableRound(spec, a, rounds[0]);
      UnsendableRun(spec, Next(spec, a, rounds[0]), rounds[1..]);
    }
  }

  function Shard(id: Option<string>): NodeGroup {
    NodeGroup(id, Some("available"), [NodeGroupMember(None)])
  }

  /** One node group if the spec can grow from there, else two. A per-shard configuration finds none
      of its ids among them. */
  function ShardsSeen(s: Spec): Slice<NodeGroup> {
    var ids := if s.nodeGroupConfiguration.Some? then [None, None] else [Some("0001"), Some("0002")];
    if DesiredShards(s).GetOr(0) >= 2 then [Shard(ids[0])] else [Shard(ids[0]), Shard(ids[1])]
  }

  /** A ready group with those node groups, free to take the node type the spec gives. */
  function StatusSeen(s: Spec): Status {
    Status(Some("available"), Some(ShardsSeen(s)), seq(|ShardsSeen(s)|, _ => "member"), None, None,
           if s.cacheNodeType.Some? then Some([s.cacheNodeType.value]) else None)
  }

  /** A round that finds it so, with a difference at one path. */
  function Seen(s: Spec, path: Path, answer: Answer): Round {
    Round(StatusSeen(s), Resource(s, StatusSeen(s), map[]), [Difference(path, Other, Other)], Unreadable,
          (answer, answer))
  }

  function ShardPath(s: Spec): Path {
    if s.nodeGroupConfiguration.Some? then NODE_GROUP_CONFIGURATION else NUM_NODE_GROUPS
  }

  lemma SeenIsReady(s: Spec)
    ensures IsReady(StatusSeen(s)) && Groups(StatusSeen(s).nodeGroups) != []
  {
    var groups := ShardsSeen(s);
    var one := [groups[0]];
    assert one[..0] == [] && Members(one) == 1;
    assert groups == one || (groups[..1] == one && Members(groups) == 2);
  }

  lemma OnlyAt(path: Path, p: Path)
    requires |path| == |p| == 2
    ensures DifferentAt([Difference(path, Other, Other)], p) <==> p == path
  {
    assert [Difference(path, Other, Other)][0].path == path;
  }

  lemma PathsApart()
    ensures NODE_GROUP_CONFIGURATION != TAGS && NUM_NODE_GROUPS != TAGS && CACHE_NODE_TYPE != TAGS
    ensures NODE_GROUP_CONFIGURATION != CACHE_NODE_TYPE && NUM_NODE_GROUPS != CACHE_NODE_TYPE
    ensures CACHE_NODE_TYPE != REPLICAS_PER_NODE_GROUP
  {
    assert |TAGS[1]| == 4 && |CACHE_NODE_TYPE[1]| == 13 && |NODE_GROUP_CONFIGURATION[1]| == 22;
    assert |NUM_NODE_GROUPS[1]| == 13 && NUM_NODE_GROUPS[1][0] == 'N' && CACHE_NODE_TYPE[1][0] == 'C';
    assert |REPLICAS_PER_NODE_GROUP[1]| == 20;
  }

  lemma {:induction false} NothingComparable(cfg: seq<NodeGroupConfiguration>)
    ensures FirstDifference(cfg, map[]) == 0
  {
    if cfg != [] {
      NothingComparable(cfg[1..]);
    }
  }

  lemma SeenHasNoReplicaDifference(s: Spec, d: Resource)
    requires d.spec == s
    ensures ReplicaCountDifference(d, Resource(s, StatusSeen(s), map[])) == Some(0)
  {
    if s.replicasPerNodeGroup == None && s.nodeGroupConfiguration.Some? {
      var groups := ShardsSeen(s);
      LastIdentifiedNone(groups);
      NothingComparable(s.nodeGroupConfiguration.value);
    }
  }

  lemma LastIdentifiedNone(groups: seq<NodeGroup>)
    requires forall i :: 0 <= i < |groups| ==> groups[i].id == None
    ensures LatestCounts(groups) == map[]
  {
    forall id ensures id !in LatestCounts(groups) {
      LastIdentified(groups, id);
    }
  }

  lemma SeenBuilds(s: Spec, a: Annotations)
    requires Sendable(s)
    ensures var d := Resource(s, StatusSeen(s), a); var l := Resource(s, StatusSeen(s), map[]);
            ShardConfigurationsDiffer(d, l) && ReshardRequest(d, l).Built?
  {
    if s.nodeGroupConfiguration == None && DesiredShards(s).value == 1 {
      var first := ShardsSeen(s)[..1];
      assert first == [Shard(Some("0001"))] && first[..0] == [];
    }
  }

  /** In that round the shards are changed; without a group in the answer the annotations stay as
      they were, and the rolled-back change of an earlier round goes unnoticed. */
  lemma SeenReshards(s: Spec, a: Annotations, answer: Answer)
    requires Sendable(s) && answer != Failed && NodeGroupRequiresUpdate(s, a) == Some(true)
    ensures var r := Seen(s, ShardPath(s), answer);
            && Realistic([r]) && Resharded(s, a, r) && !ReportsRollback(s, a, r)
            && Next(s, a, r) == if answer == WithGroup then ShardsRecorded(s, a) else a
  {
    var r := Seen(s, ShardPath(s), answer);
    var d := DesiredIn(s, a, r);
    SeenIsReady(s);
    PathsApart();
    OnlyAt(ShardPath(s), TAGS);
    OnlyAt(ShardPath(s), CACHE_NODE_TYPE);
    SeenHasNoReplicaDifference(s, d);
    SeenBuilds(s, a);
    WhenShardsChange(d, r.latest, r.delta, r.described);
    ReshardedPlan(s, a, r);
    assert Exchanges(s, a, r) != [];
  }

  /** Runs of any length that change the shards in every round: always when the answers hold no
      group, and even when they do if the configuration does not survive being recorded. */
  lemma {:induction false} ReshardsWithoutLimit(s: Spec, a: Annotations, answer: Answer, n: nat)
    returns (rounds: seq<Round>)
    requires Sendable(s) && answer != Failed && NodeGroupRequiresUpdate(s, a) == Some(true)
    requires answer == WithoutGroup || !Survives(s)
    ensures |rounds| == n && Realistic(rounds)
    ensures forall i :: 0 <= i < n ==> rounds[i] == Seen(s, ShardPath(s), answer)
    ensures Reshardings(s, a, rounds) == n
    ensures LostReshardings(s, a, rounds) == if answer == WithoutGroup then n else 0
    decreases n
  {
    rounds := [];
    if n > 0 {
      var r := Seen(s, ShardPath(s), answer);
      SeenReshards(s, a, answer);
      RecordedReadsBack(s, a);
      var rest := ReshardsWithoutLimit(s, Next(s, a, r), answer, n - 1);
      rounds := [r] + rest;
      assert rounds[1..] == rest;
      assert forall i :: 0 < i < n ==> rounds[i] == rest[i - 1];
      assert Groups([r][0].latest.status.nodeGroups) != [] && [r][0].delta != [];
    }
  }

  /** Exactly when the shards are changed at most once, over every run that observes node groups
      and differences. With answers of any kind that takes a spec that can send no change at all;
      when no answer lacks the group, a spec that survives being recorded is enough. */
  lemma ReshardsOnceExactlyWhen(spec: Spec)
    ensures (forall a, rounds :: Realistic(rounds) ==> Reshardings(spec, a, rounds) <= 1) <==> !Sendable(spec)
    ensures (forall a, rounds :: Realistic(rounds) && LostReshardings(spec, a, rounds) == 0 ==>
               Reshardings(spec, a, rounds) <= 1) <==> Survives(spec) || !Sendable(spec)
  {
    if !Sendable(spec) {
      forall a, rounds | Realistic(rounds) ensures Reshardings(spec, a, rounds) <= 1 {
        UnsendableRun(spec, a, rounds);
      }
    } else {
      var rounds := ReshardsWithoutLimit(spec, map[], WithoutGroup, 2);
      assert Reshardings(spec, map[], rounds) == 2;
      if Survives(spec) {
        forall a, rounds | LostReshardings(spec, a, rounds) == 0 ensures Reshardings(spec, a, rounds) <= 1 {
          ReshardsAtMostOnce(spec, a, rounds);
        }
      } else {
        var again := ReshardsWithoutLimit(spec, map[], WithGroup, 2);
        assert Reshardings(spec, map[], again) == 2 && LostReshardings(spec, map[], again) == 0;
      }
    }
  }

  /** A configuration that does not survive being recorded can always be sent, unless it has a nil
      zone or is a single shard without an id. */
  lemma UnrecordableIsSendable(spec: Spec)
    requires !Survives(spec)
    ensures var cfg := spec.nodeGroupConfiguration.value;
            Sendable(spec) <==> ZonesSet(cfg) && !(|cfg| == 1 && cfg[0].id == None)
  {
    var cfg := spec.nodeGroupConfiguration.value;
    assert cfg != [];
    if |cfg| == 1 {
      assert cfg[..0] == [];
      assert ConfiguredIds(cfg) == if cfg[0].id.Some? then [cfg[0].id.value] else [];
    }
  }

  // ------------------------------------------------ reporting a change that was rolled back

  /** If the group is ready, its tags are in place and the number of shards is still another, the
      round reports a change that was rolled back, and sends nothing. */
  predicate ReportsRollback(spec: Spec, a: Annotations, r: Round) {
    IsReady(r.latest.status) && !DifferentAt(r.delta, TAGS)
    && ShardConfigurationsDiffer(DesiredIn(spec, a, r), r.latest) ==>
      OutcomeOf(spec, a, r).Rejected? && Exchanges(spec, a, r) == []
  }

  lemma SettledRejects(spec: Spec, a: Annotations, r: Round)
    requires Settled(spec, a)
    ensures ReportsRollback(spec, a, r)
  {
  }

  predicate AllReportRollback(spec: Spec, a: Annotations, rounds: seq<Round>)
    decreases |rounds|
  {
    rounds == []
    || (ReportsRollback(spec, a, rounds[0]) && AllReportRollback(spec, Next(spec, a, rounds[0]), rounds[1..]))
  }

  /** Every round after the first change of shards, lost ones counted or not, reports a rolled-back
      change where it finds another number of shards. */
  predicate ReportedAfterReshard(spec: Spec, a: Annotations, rounds: seq<Round>, lost: bool)
    decreases |rounds|
  {
    rounds == [] ||
    if Resharded(spec, a, rounds[0]) && (lost || !LostReshard(spec, a, rounds[0]))
    then AllReportRollback(spec, Next(spec, a, rounds[0]), rounds[1..])
    else ReportedAfterReshard(spec, Next(spec, a, rounds[0]), rounds[1..], lost)
  }

  lemma {:induction false} SettledRunReports(spec: Spec, a: Annotations, rounds: seq<Round>)
    requires Settled(spec, a)
    ensures AllReportRollback(spec, a, rounds)
    decreases |rounds|
  {
    if rounds != [] {
      SettledRejects(spec, a, rounds[0]);
      SettledStays(spec, a, rounds[0]);
      SettledRunReports(spec, Next(spec, a, rounds[0]), rounds[1..]);
    }
  }

  /** Over any run: once the shards were changed and the answer held the group, a number of shards
      that still differs is reported in every later round, and never acted on again. */
  lemma {:induction false} LaterRoundsReject(spec: Spec, a: Annotations, rounds: seq<Round>)
    requires Survives(spec)
    ensures ReportedAfterReshard(spec, a, rounds, false)
    decreases |rounds|
  {
    if rounds != [] {
      var next := Next(spec, a, rounds[0]);
      if Resharded(spec, a, rounds[0]) && !LostReshard(spec, a, rounds[0]) {
        ReshardSettles(spec, a, rounds[0]);
        SettledRunReports(spec, next, rounds[1..]);
      } else {
        LaterRoundsReject(spec, next, rounds[1..]);
      }
    }
  }

  lemma {:induction false} UnsendableReports(spec: Spec, a: Annotations, rounds: seq<Round>)
    requires !Sendable(spec) && Realistic(rounds)
    ensures ReportedAfterReshard(spec, a, rounds, true)
    decreases |rounds|
  {
    if rounds != [] {
      UnsendableRound(spec, a, rounds[0]);
      UnsendableReports(spec, Next(spec, a, rounds[0]), rounds[1..]);
    }
  }

  /** A change whose answer held no group is not reported but made again: with those counted, the
      reports come over every run exactly when the spec can send no change at all. */
  lemma LostChangesAreReportedExactlyWhen(spec: Spec)
    ensures (forall a, rounds :: Realistic(rounds) ==> ReportedAfterReshard(spec, a, rounds, true)) <==> !Sendable(spec)
  {
    if !Sendable(spec) {
      forall a, rounds | Realistic(rounds) ensures ReportedAfterReshard(spec, a, rounds, true) {
        UnsendableReports(spec, a, rounds);
      }
    } else {
      var r := Seen(spec, ShardPath(spec), WithoutGroup);
      SeenReshards(spec, map[], WithoutGroup);
      var rounds := ReshardsWithoutLimit(spec, map[], WithoutGroup, 2);
      assert rounds == [r, r] && rounds[1..] == [r];
      assert !AllReportRollback(spec, map[], [r]);
      assert !ReportedAfterReshard(spec, map[], rounds, true);
    }
  }

  // ------------------------------------------------ a count that is no longer given

  /** A recorded shard count that the spec no longer gives stops the group for good: no request is
      sent in any later round. */
  lemma {:induction false} RemovedCountNeverRecovers(spec: Spec, a: Annotations, rounds: seq<Round>)
    requires CountRecorded(a) && spec.numNodeGroups == None
    ensures AllExchanges(spec, a, rounds) == []
    decreases |rounds|
  {
    if rounds != [] {
      RemovedCountCrashes(spec, a, rounds[0]);
      RemovedCountNeverRecovers(spec, a, rounds[1..]);
    }
  }

  // ------------------------------------------------ the node type

  lemma GeneratedInRound(spec: Spec, a: Annotations, r: Round)
    ensures forall e :: e in Exchanges(spec, a, r) && e.request.Generated? ==>
              e.request.cacheNodeType == spec.cacheNodeType
  {
    var p := PlanOf(spec, a, r);
    assert p.Send? ==> !p.request.Generated?;
  }

  /** Every generated request carries the spec's node type, whatever differs. */
  lemma {:induction false} GeneratedCarriesNodeType(spec: Spec, a: Annotations, rounds: seq<Round>)
    ensures forall e :: e in AllExchanges(spec, a, rounds) && e.request.Generated? ==>
              e.request.cacheNodeType == spec.cacheNodeType
    decreases |rounds|
  {
    if rounds != [] {
      GeneratedInRound(spec, a, rounds[0]);
      GeneratedCarriesNodeType(spec, Next(spec, a, rounds[0]), rounds[1..]);
    }
  }

  /** The round asked for a change of node type, one that is reported to differ, and was not
      refused. */
  predicate NodeTypeChanged(spec: Spec, a: Annotations, r: Round) {
    spec.cacheNodeType.Some? && DifferentAt(r.delta, CACHE_NODE_TYPE)
    && r.answers.1 != Failed && Exchange(Generated(spec.cacheNodeType), r.answers.1) in Exchanges(spec, a, r)
  }

  /** It did, but the answer held no group, so the node type was not put on record. */
  predicate LostNodeType(spec: Spec, a: Annotations, r: Round) {
    NodeTypeChanged(spec, a, r) && r.answers.1 == WithoutGroup
  }

  function NodeTypeChanges(spec: Spec, a: Annotations, rounds: seq<Round>): nat
    decreases |rounds|
  {
    if rounds == [] then 0
    else
      (if NodeTypeChanged(spec, a, rounds[0]) then 1 else 0)
      + NodeTypeChanges(spec, Next(spec, a, rounds[0]), rounds[1..])
  }

  function LostNodeTypes(spec: Spec, a: Annotations, rounds: seq<Round>): nat
    decreases |rounds|
  {
    if rounds == [] then 0
    else
      (if LostNodeType(spec, a, rounds[0]) then 1 else 0)
      + LostNodeTypes(spec, Next(spec, a, rounds[0]), rounds[1..])
  }

  predicate NodeTypeOnRecord(spec: Spec, a: Annotations) {
    spec.cacheNodeType.Some? && LAST_REQUESTED_CNT in a && a[LAST_REQUESTED_CNT] == Text(spec.cacheNodeType.value)
  }

  lemma NodeTypeRecorded(spec: Spec, a: Annotations, r: Round)
    requires NodeTypeChanged(spec, a, r) && !LostNodeType(spec, a, r)
    ensures NodeTypeOnRecord(spec, Next(spec, a, r))
  {
    assert PlanOf(spec, a, r) != Send(Generated(spec.cacheNodeType));
  }

  /** A node type on record stays there, and a difference is reported instead of being acted on. */
  lemma NodeTypeStays(spec: Spec, a: Annotations, r: Round)
    requires NodeTypeOnRecord(spec, a)
    ensures !NodeTypeChanged(spec, a, r) && NodeTypeOnRecord(spec, Next(spec, a, r))
    ensures IsReady(r.latest.status) && !DifferentAt(r.delta, TAGS) && DifferentAt(r.delta, CACHE_NODE_TYPE) ==>
              OutcomeOf(spec, a, r) == Rejected(CacheNodeType)
  {
    AnnotationKeysDiffer();
    assert PlanOf(spec, a, r) != Send(Generated(spec.cacheNodeType));
  }

  /** A ready round with its tags in place, in which a node type that differs has its turn. */
  predicate NodeTypeIsNext(d: Resource, r: Round) {
    && IsReady(r.latest.status) && !DifferentAt(r.delta, TAGS) && DifferentAt(r.delta, CACHE_NODE_TYPE)
    && NodeGroupRequiresUpdate(d.spec, d.annotations).Some?
    && (NodeGroupRequiresUpdate(d.spec, d.annotations) == Some(false) ==> !ShardConfigurationsDiffer(d, r.latest))
    && NothingToSwitchOff(d, r.latest) && ReplicaCountDifference(d, r.latest) == Some(0)
    && (|| ScalesUp(d, r.delta)
        || (!ShardConfigurationsDiffer(d, r.latest) && PlanModify(d, r.delta, r.described) == Defer))
    && r.answers.1 != Failed
  }

  /** With the node type of one spec on record, a round of another spec asks for its node type exactly
      when it is another; for the same one it reports a rolled-back change. */
  lemma EditedNodeTypeIsActedOn(s: Spec, t: Spec, a: Annotations, r: Round)
    requires s.cacheNodeType.Some? && t.cacheNodeType.Some?
    requires NodeTypeIsNext(DesiredIn(t, ModifyRecorded(s, a), r), r)
    ensures NodeTypeChanged(t, ModifyRecorded(s, a), r) <==> t.cacheNodeType != s.cacheNodeType
    ensures t.cacheNodeType == s.cacheNodeType ==> OutcomeOf(t, ModifyRecorded(s, a), r) == Rejected(CacheNodeType)
  {
    var b := ModifyRecorded(s, a);
    NodeTypeAgainst(s, DesiredIn(t, b, r), a);
    if t.cacheNodeType != s.cacheNodeType {
      assert PlanOf(t, b, r) == Defer;
      assert Exchanges(t, b, r)[0] == Exchange(Generated(t.cacheNodeType), r.answers.1);
    }
  }

  lemma {:induction false} NodeTypeStaysOverRun(spec: Spec, a: Annotations, rounds: seq<Round>)
    requires NodeTypeOnRecord(spec, a)
    ensures NodeTypeChanges(spec, a, rounds) == 0
    decreases |rounds|
  {
    if rounds != [] {
      NodeTypeStays(spec, a, rounds[0]);
      NodeTypeStaysOverRun(spec, Next(spec, a, rounds[0]), rounds[1..]);
    }
  }

  /** Over any run a node type that differs is requested at most once, not counting the requests
      whose answer held no group. */
  lemma {:induction false} NodeTypeChangesAtMostOnce(spec: Spec, a: Annotations, rounds: seq<Round>)
    ensures NodeTypeChanges(spec, a, rounds) <= 1 + LostNodeTypes(spec, a, rounds)
    decreases |rounds|
  {
    if rounds != [] {
      var next := Next(spec, a, rounds[0]);
      if NodeTypeChanged(spec, a, rounds[0]) && !LostNodeType(spec, a, rounds[0]) {
        NodeTypeRecorded(spec, a, rounds[0]);
        NodeTypeStaysOverRun(spec, next, rounds[1..]);
      } else {
        NodeTypeChangesAtMostOnce(spec, next, rounds[1..]);
      }
    }
  }

  lemma SeenChangesNodeType(s: Spec)
    requires s.cacheNodeType.Some?
    ensures var r := Seen(s, CACHE_NODE_TYPE, WithoutGroup);
            Realistic([r]) && LostNodeType(s, map[], r) && Next(s, map[], r) == map[]
  {
    var r := Seen(s, CACHE_NODE_TYPE, WithoutGroup);
    var d := DesiredIn(s, map[], r);
    SeenIsReady(s);
    PathsApart();
    OnlyAt(CACHE_NODE_TYPE, TAGS);
    OnlyAt(CACHE_NODE_TYPE, CACHE_NODE_TYPE);
    SeenHasNoReplicaDifference(s, d);
    assert PlanOf(s, map[], r) == Defer;
    assert Exchanges(s, map[], r)[0] == Exchange(Generated(s.cacheNodeType), WithoutGroup);
  }

  /** Runs of any length that request the same node type in every round, no answer holding a
      group. */
  lemma {:induction false} NodeTypeWithoutLimit(s: Spec, n: nat) returns (rounds: seq<Round>)
    requires s.cacheNodeType.Some?
    ensures |rounds| == n && Realistic(rounds)
    ensures NodeTypeChanges(s, map[], rounds) == LostNodeTypes(s, map[], rounds) == n
    decreases n
  {
    rounds := [];
    if n > 0 {
      var r := Seen(s, CACHE_NODE_TYPE, WithoutGroup);
      SeenChangesNodeType(s);
      var rest := NodeTypeWithoutLimit(s, n - 1);
      rounds := [r] + rest;
      assert rounds[1..] == rest;
      assert Groups([r][0].latest.status.nodeGroups) != [] && [r][0].delta != [];
    }
  }

  /** With answers of any kind, "at most once" holds exactly for a spec that gives no node type. */
  lemma NodeTypeOnceExactlyWhen(spec: Spec)
    ensures (forall a, rounds :: Realistic(rounds) ==> NodeTypeChanges(spec, a, rounds) <= 1) <==>
            spec.cacheNodeType == None
  {
    if spec.cacheNodeType == None {
      forall a, rounds ensures NodeTypeChanges(spec, a, rounds) <= 1 {
        NoNodeType(spec, a, rounds);
      }
    } else {
      var rounds := NodeTypeWithoutLimit(spec, 2);
      assert NodeTypeChanges(spec, map[], rounds) == 2;
    }
  }

  lemma {:induction false} NoNodeType(spec: Spec, a: Annotations, rounds: seq<Round>)
    requires spec.cacheNodeType == None
    ensures NodeTypeChanges(spec, a, rounds) == 0
    decreases |rounds|
  {
    if rounds != [] {
      NoNodeType(spec, Next(spec, a, rounds[0]), rounds[1..]);
    }
  }

  // ------------------------------------------------ changing the replicas

  predicate ChangesReplicas(p: Decision) {
    p.Send? && (p.request.Increase? || p.request.Decrease?)
  }

  predicate ForReplicas(e: Exchange) {
    e.request.Increase? || e.request.Decrease?
  }

  /** With the shards on record, a replica request leaves exactly in a round that reports the
      uniform count to differ, and then only with the shards agreeing and a difference that can be
      sent. Where none leaves, a difference that is not reported so is rejected. */
  lemma SettledReplicas(spec: Spec, a: Annotations, r: Round)
    requires Settled(spec, a)
    ensures var d := DesiredIn(spec, a, r); var diff := ReplicaCountDifference(d, r.latest);
            && (ChangesReplicas(PlanOf(spec, a, r)) <==>
                  && IsReady(r.latest.status) && ReplicasOpen(d, r.latest, r.delta)
                  && DifferentAt(r.delta, REPLICAS_PER_NODE_GROUP)
                  && !ShardConfigurationsDiffer(d, r.latest) && !SwitchesOff(d, r.latest)
                  && diff.Some? && diff.value != 0 && (diff.value < 0 ==> ZonesGiven(spec)))
            && (IsReady(r.latest.status) && !DifferentAt(r.delta, TAGS) && !DifferentAt(r.delta, CACHE_NODE_TYPE)
                && !ShardConfigurationsDiffer(d, r.latest) && !DifferentAt(r.delta, REPLICAS_PER_NODE_GROUP)
                && diff.Some? && diff.value != 0 ==>
                  OutcomeOf(spec, a, r) == Rejected(NodeGroupConfigurations))
  {
    WhenReplicasChange(DesiredIn(spec, a, r), r.latest, r.delta, r.described);
  }

  predicate UniformCountAgrees(rounds: seq<Round>) {
    forall i :: 0 <= i < |rounds| ==> !DifferentAt(rounds[i].delta, REPLICAS_PER_NODE_GROUP)
  }

  lemma {:induction false} SettledRunLeavesReplicas(spec: Spec, a: Annotations, rounds: seq<Round>)
    requires Settled(spec, a) && UniformCountAgrees(rounds)
    ensures forall e :: e in AllExchanges(spec, a, rounds) ==> !ForReplicas(e)
    decreases |rounds|
  {
    if rounds != [] {
      var r := rounds[0];
      assert !DifferentAt(r.delta, REPLICAS_PER_NODE_GROUP);
      SettledReplicas(spec, a, r);
      SettledStays(spec, a, r);
      SettledRunLeavesReplicas(spec, Next(spec, a, r), rounds[1..]);
    }
  }

  /** A group created with a shard count, and later given per-shard replica counts under that same
      count, never has its replicas changed, over any run in which no uniform count differs. */
  lemma ShardReplicasNeverChange(created: Spec, edited: Spec, a: Annotations, rounds: seq<Round>)
    requires created.numNodeGroups.Some? && edited.numNodeGroups == created.numNodeGroups
    requires UniformCountAgrees(rounds)
    ensures forall e :: e in AllExchanges(edited, ShardsRecorded(created, a), rounds) ==> !ForReplicas(e)
  {
    AnnotationKeysDiffer();
    ParseItoa(created.numNodeGroups.value);
    ItoaIsNotNull(created.numNodeGroups.value);
    SettledRunLeavesReplicas(edited, ShardsRecorded(created, a), rounds);
  }

  /** The round sent a replica request, and the server applied it, leaving the node groups `after`. */
  ghost predicate ReplicasChanged(d: Resource, r: Round, p: Decision, after: Slice<NodeGroup>) {
    && ChangesReplicas(p) && p == Plan(d, r.latest, r.delta, r.described)
    && Acceptable(p.request.replicas, Groups(r.latest.status.nodeGroups))
    && ReplicasApplied(Groups(r.latest.status.nodeGroups), p.request.replicas, after)
  }

  /** One replica request is enough: when it was applied, no later round of the same spec that
      still finds those node groups sends another, exactly when the configuration can be met;
      otherwise a difference stays. */
  lemma OneReplicaRequest(d: Resource, r: Round, p: Decision, after: Slice<NodeGroup>, e: Resource, s: Round)
    requires ReplicasChanged(d, r, p, after) && d.spec.replicasPerNodeGroup == None
    requires e.spec == d.spec && s.latest.status.nodeGroups == Some(after)
    ensures ReplicaCountDifference(e, s.latest) == Some(0) <==>
            Consistent(d.spec.nodeGroupConfiguration.GetOr([]), LatestCounts(Groups(r.latest.status.nodeGroups)))
    ensures ReplicaCountDifference(e, s.latest) == Some(0) ==> !ChangesReplicas(Plan(e, s.latest, s.delta, s.described))
  {
    WhenReplicasChange(d, r.latest, r.delta, r.described);
    WhenReplicasChange(e, s.latest, s.delta, s.described);
    ListedReplicasConverge(p.request.replicas, d.spec.nodeGroupConfiguration.value,
                           Groups(r.latest.status.nodeGroups), after);
  }

  /** The same for a uniform count, as reading the group reports it: the condition is that it fits
      the 32 bits of the request. */
  lemma OneUniformReplicaRequest(d: Resource, r: Round, p: Decision, after: Slice<NodeGroup>, e: Resource, s: Round)
    requires ReplicasChanged(d, r, p, after) && |after| > 0
    requires d.spec.replicasPerNodeGroup.Some?
    requires e.spec == d.spec
    requires s.latest.spec.replicasPerNodeGroup == ObservedReplicas(d.spec.replicasPerNodeGroup.value, Some(after))
    ensures ReplicaCountDifference(e, s.latest) == Some(0) <==>
            WrapInt32(d.spec.replicasPerNodeGroup.value) == d.spec.replicasPerNodeGroup.value
    ensures ReplicaCountDifference(e, s.latest) == Some(0) ==> !ChangesReplicas(Plan(e, s.latest, s.delta, s.described))
  {
    WhenReplicasChange(d, r.latest, r.delta, r.described);
    WhenReplicasChange(e, s.latest, s.delta, s.described);
    UniformReplicasConverge(d, r.latest, p.request.replicas, after);
  }
}
