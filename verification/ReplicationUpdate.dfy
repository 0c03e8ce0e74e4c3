/** The update of a replication group: which request a round sends, what it records, and what
    that means for whole runs (`CustomModifyReplicationGroup` in
    `pkg/resource/replication_group/hooks.go`, `sdkUpdate` in
    `pkg/resource/replication_group/sdk.go`). */
module ReplicationUpdate {
  import opened Wrappers
  import opened GoNumbers
  import opened Deltas
  import opened ReplicationGroups
  import opened ReplicationPayloads
  import opened StringLists
  import T = Tags

  const CACHE_NODE_TYPE: Path := ["Spec", "CacheNodeType"]
  const REPLICAS_PER_NODE_GROUP: Path := ["Spec", "ReplicasPerNodeGroup"]

  /** A request that changes the group. `Generated` is the modify request made from the whole
      spec when the specialised update has nothing to send; of its contents only the node type
      is kept, which it carries whenever the spec gives one. */
  datatype Request =
    | Increase(replicas: ReplicaRequest)
    | Decrease(replicas: ReplicaRequest)
    | Reshard(shards: ShardRequest)
    | Modify(fields: ModifyRequest)
    | Generated(cacheNodeType: Option<string>)

  datatype RolledBackField = CacheNodeType | NodeGroups | NodeGroupConfigurations

  /** What a round decides. `Crash` is a nil or out-of-bounds access. */
  datatype Decision =
    | Wait
    | Reject(field: RolledBackField)
    | Crash
    | RefuseValue
    | DescribeFailed
    | Send(request: Request)
    | Defer

  /** Finding the group's cache cluster. */
  datatype Described = Unreadable | Found(cluster: Option<CacheCluster>)

  // ------------------------------------------------ the plan

  function SendingDecrease(p: Payload<ReplicaRequest>): Decision {
    match p
    case Built(r) => Send(Decrease(r))
    case Refused => RefuseValue
    case Crashed => Crash
  }

  function SendingReshard(p: Payload<ShardRequest>): Decision {
    match p
    case Built(r) => Send(Reshard(r))
    case Refused => RefuseValue
    case Crashed => Crash
  }

  function SendingModify(p: Payload<ModifyRequest>): Decision {
    match p
    case Built(r) => Send(Modify(r))
    case Refused => RefuseValue
    case Crashed => Crash
  }

  /** A change that was requested before and is still not there was rolled back by the server. */
  function RolledBack(d: Resource, l: Resource, delta: seq<Difference>): (p: Option<Decision>)
    ensures p.Some? ==> p.value.Reject? || p.value.Crash?
  {
    if !CacheNodeTypeRequiresUpdate(d) && DifferentAt(delta, CACHE_NODE_TYPE) then Some(Reject(CacheNodeType))
    else if NodeGroupRequiresUpdate(d.spec, d.annotations) == None then Some(Crash)
    else if NodeGroupRequiresUpdate(d.spec, d.annotations).value then None
    else if ShardConfigurationsDiffer(d, l) then Some(Reject(NodeGroups))
    else if ReplicaCountDifference(d, l) == None then Some(Crash)
    else if ReplicaCountDifference(d, l).value != 0 && !DifferentAt(delta, REPLICAS_PER_NODE_GROUP)
    then Some(Reject(NodeGroupConfigurations))
    else None
  }

  /** Automatic failover or multi-AZ is to be switched off, which comes before anything else. */
  predicate SwitchesOff(d: Resource, l: Resource) {
    (d.spec.automaticFailoverEnabled == Some(false) && l.status.automaticFailover == Some("enabled"))
    || (d.spec.multiAZEnabled == Some(false) && l.status.multiAZ == Some("enabled"))
  }

  /** A larger node type is to be taken before the shards change. */
  predicate ScalesUp(d: Resource, delta: seq<Difference>) {
    DifferentAt(delta, CACHE_NODE_TYPE) && d.status.allowedScaleUp.Some? && d.spec.cacheNodeType.Some?
    && d.spec.cacheNodeType.value in d.status.allowedScaleUp.value
  }

  /** Something that the specialised modify request is for differs. */
  predicate FieldsDiffer(d: Resource, delta: seq<Difference>, cluster: Option<CacheCluster>) {
    SecurityGroupsDiffer(d.spec, cluster) || DifferentAt(delta, ENGINE_VERSION)
    || DifferentAt(delta, ENGINE) || DifferentAt(delta, CACHE_PARAMETER_GROUP_NAME)
  }

  function PlanModify(d: Resource, delta: seq<Difference>, described: Described): Decision {
    if d.spec.securityGroupIDs == None && d.spec.engineVersion == None then Defer
    else if described == Unreadable then DescribeFailed
    else if FieldsDiffer(d, delta, described.cluster)
    then SendingModify(ModifyingRequest(d.spec, described.cluster, delta))
    else Defer
  }

  function Plan(d: Resource, l: Resource, delta: seq<Difference>, described: Described): Decision {
    if !IsReady(l.status) then Wait
    else if RolledBack(d, l, delta).Some? then RolledBack(d, l, delta).value
    else if SwitchesOff(d, l) then PlanModify(d, delta, described)
    else if ReplicaCountDifference(d, l) == None then Crash
    else if ReplicaCountDifference(d, l).value > 0 then Send(Increase(IncreaseRequest(d, l)))
    else if ReplicaCountDifference(d, l).value < 0 then SendingDecrease(DecreaseRequest(d))
    else if ScalesUp(d, delta) then Defer
    else if ShardConfigurationsDiffer(d, l) then SendingReshard(ReshardRequest(d, l))
    else PlanModify(d, delta, described)
  }

  /** How a server answers a request: with an error, with the group, or with no group at all. */
  datatype Answer = Failed | WithGroup | WithoutGroup

  datatype Exchange = Exchange(request: Request, answer: Answer)

  datatype Outcome =
    | Requeued
    | Rejected(field: RolledBackField)
    | Panicked
    | ValueRefused
    | ApiError
    | NothingDone
    | Updated(annotations: Annotations)
    | TagsPending

  /** What the specialised update comes to. It dereferences the group of a shard or modify answer;
      a replica answer without one counts as nothing done. */
  function Outcomes(d: Resource, p: Decision, answer: Answer): Outcome {
    match p
    case Wait => Requeued
    case Reject(f) => Rejected(f)
    case Crash => Panicked
    case RefuseValue => ValueRefused
    case DescribeFailed => ApiError
    case Defer => NothingDone
    case Send(r) =>
      match answer
      case Failed => ApiError
      case WithGroup => Updated(if r.Reshard? then ShardsRecorded(d.spec, d.annotations) else d.annotations)
      case WithoutGroup => if r.Increase? || r.Decrease? then NothingDone else Panicked
  }

  function Sent(p: Decision, answer: Answer): seq<Exchange> {
    if p.Send? then [Exchange(p.request, answer)] else []
  }

  /** The requests AWS receives, each answered in some way. */
  class Api {
    var log: seq<Exchange>

    constructor ()
      ensures log == []
    {
      log := [];
    }

    method Call(request: Request) returns (answer: Answer)
      modifies this
      ensures log == old(log) + [Exchange(request, answer)]
    {
      answer := *;
      log := log + [Exchange(request, answer)];
    }
  }

  method AnyFieldDiffers(d: Resource, delta: Delta, cluster: Option<CacheCluster>) returns (differ: bool)
    requires delta.Valid()
    ensures differ <==> FieldsDiffer(d, delta.Differences(), cluster)
  {
    var groups := SecurityGroupIdsDiffer(d.spec, cluster);
    var version := delta.IsDifferentAt(ENGINE_VERSION);
    var engine := delta.IsDifferentAt(ENGINE);
    var parameters := delta.IsDifferentAt(CACHE_PARAMETER_GROUP_NAME);
    return groups || version || engine || parameters;
  }

  /** The modify request, once the cache cluster has been found. */
  method ModifyFields(api: Api, d: Resource, delta: Delta, cluster: Option<CacheCluster>)
    returns (o: Outcome, ghost answer: Answer)
    requires delta.Valid()
    modifies api
    ensures var p := SendingModify(ModifyingRequest(d.spec, cluster, delta.Differences()));
            o == Outcomes(d, p, answer) && api.log == old(api.log) + Sent(p, answer)
  {
    answer := Failed;
    var input := ModifyPayload(d.spec, cluster, delta);
    if input.Crashed? {
      return Panicked, answer;
    }
    ghost var ds := delta.Differences();
    var a := api.Call(Modify(input.request));
    assert delta.Differences() == ds;
    answer := a;
    o := match a case Failed => ApiError case WithGroup => Updated(d.annotations) case WithoutGroup => Panicked;
  }

  method ModifyReplicationGroup(api: Api, d: Resource, delta: Delta, described: Described)
    returns (o: Outcome, ghost answer: Answer)
    requires delta.Valid()
    modifies api
    ensures var p := PlanModify(d, delta.Differences(), described);
            o == Outcomes(d, p, answer) && api.log == old(api.log) + Sent(p, answer)
  {
    answer := Failed;
    if d.spec.securityGroupIDs == None && d.spec.engineVersion == None {
      return NothingDone, answer;
    }
    if described == Unreadable {
      return ApiError, answer;
    }
    ghost var ds := delta.Differences();
    var differ := AnyFieldDiffers(d, delta, described.cluster);
    if differ {
      o, answer := ModifyFields(api, d, delta, described.cluster);
      assert delta.Differences() == ds;
      return;
    }
    return NothingDone, answer;
  }

  method UpdateReplicaCount(api: Api, d: Resource, l: Resource, diff: int64)
    returns (o: Outcome, ghost answer: Answer)
    requires diff != 0
    modifies api
    ensures var p := if diff > 0 then Send(Increase(IncreaseRequest(d, l))) else SendingDecrease(DecreaseRequest(d));
            o == Outcomes(d, p, answer) && api.log == old(api.log) + Sent(p, answer)
  {
    answer := Failed;
    var a;
    if diff > 0 {
      var input := IncreasePayload(d, l);
      a := api.Call(Increase(input));
    } else {
      var input := DecreasePayload(d);
      if input.Crashed? {
        return Panicked, answer;
      }
      a := api.Call(Decrease(input.request));
    }
    answer := a;
    o := match a case Failed => ApiError case WithGroup => Updated(d.annotations) case WithoutGroup => NothingDone;
  }

  method UpdateShardConfiguration(api: Api, d: Resource, l: Resource)
    returns (o: Outcome, ghost answer: Answer)
    modifies api
    ensures var p := SendingReshard(ReshardRequest(d, l));
            o == Outcomes(d, p, answer) && api.log == old(api.log) + Sent(p, answer)
  {
    answer := Failed;
    var input := ReshardPayload(d, l);
    if input.Crashed? {
      return Panicked, answer;
    }
    if input.Refused? {
      return ValueRefused, answer;
    }
    var a := api.Call(Reshard(input.request));
    answer := a;
    if a == Failed {
      return ApiError, answer;
    }
    if a == WithoutGroup {
      return Panicked, answer;
    }
    var ko := new ResourceObject(Some(d.annotations));
    SetLastRequestedNodeGroupConfiguration(d, ko);
    SetLastRequestedNumNodeGroups(d, ko);
    return Updated(ko.All()), answer;
  }

  method ReplicaDifference(d: Resource, l: Resource) returns (diff: Option<int64>)
    ensures diff == ReplicaCountDifference(d, l)
  {
    if d.spec.replicasPerNodeGroup.Some? {
      if l.spec.replicasPerNodeGroup == None {
        return None;
      }
      return Some(WrapInt64(d.spec.replicasPerNodeGroup.value - l.spec.replicasPerNodeGroup.value));
    }
    if d.spec.nodeGroupConfiguration.Some? {
      var first := DiffReplicasNodeGroupConfiguration(d.spec.nodeGroupConfiguration.value, Groups(l.status.nodeGroups));
      return Some(first);
    }
    return Some(0);
  }

  /** Looks for a change that the server rolled back. */
  method CheckRolledBack(d: Resource, l: Resource, delta: Delta, diff: Option<int64>) returns (p: Option<Decision>)
    requires delta.Valid() && diff == ReplicaCountDifference(d, l)
    ensures p == RolledBack(d, l, delta.Differences())
  {
    var nodeType := delta.IsDifferentAt(CACHE_NODE_TYPE);
    if !CacheNodeTypeRequiresUpdate(d) && nodeType {
      return Some(Reject(CacheNodeType));
    }
    var required := NodeGroupRequiresUpdate(d.spec, d.annotations);
    if required == None {
      return Some(Crash);
    }
    if !required.value && ShardConfigurationsDiffer(d, l) {
      return Some(Reject(NodeGroups));
    }
    if !required.value {
      if diff == None {
        return Some(Crash);
      }
      var uniform := delta.IsDifferentAt(REPLICAS_PER_NODE_GROUP);
      if diff.value != 0 && !uniform {
        return Some(Reject(NodeGroupConfigurations));
      }
    }
    return None;
  }

  /** One round of the specialised update. */
  method CustomModifyReplicationGroup(api: Api, d: Resource, l: Resource, delta: Delta, described: Described)
    returns (o: Outcome, ghost answer: Answer)
    requires delta.Valid()
    modifies api
    ensures var p := Plan(d, l, delta.Differences(), described);
            o == Outcomes(d, p, answer) && api.log == old(api.log) + Sent(p, answer)
  {
    answer := Failed;
    var gate := CheckGate(l.status);
    if gate != Open {
      return Requeued, answer;
    }
    var diff := ReplicaDifference(d, l);
    var rolledBack := CheckRolledBack(d, l, delta, diff);
    if rolledBack.Some? {
      return if rolledBack.value.Reject? then Rejected(rolledBack.value.field) else Panicked, answer;
    }
    if SwitchesOff(d, l) {
      o, answer := ModifyReplicationGroup(api, d, delta, described);
      return;
    }
    if diff == None {
      return Panicked, answer;
    }
    if diff.value != 0 {
      o, answer := UpdateReplicaCount(api, d, l, diff.value);
      return;
    }
    var nodeType := delta.IsDifferentAt(CACHE_NODE_TYPE);
    if nodeType && d.status.allowedScaleUp.Some? && d.spec.cacheNodeType.Some?
       && d.spec.cacheNodeType.value in d.status.allowedScaleUp.value {
      return NothingDone, answer;
    }
    if ShardConfigurationsDiffer(d, l) {
      o, answer := UpdateShardConfiguration(api, d, l);
      return;
    }
    o, answer := ModifyReplicationGroup(api, d, delta, described);
  }

  // ------------------------------------------------ a round

  /** What a round starts from, besides the spec and the annotations, and how its requests are
      answered: `answers.0` is for the specialised request, `answers.1` for the generated one. */
  datatype Round = Round(
    status: Status, latest: Resource, delta: seq<Difference>, described: Described, answers: (Answer, Answer))

  function DesiredIn(spec: Spec, a: Annotations, r: Round): Resource {
    Resource(spec, r.status, a)
  }

  function PlanOf(spec: Spec, a: Annotations, r: Round): Decision {
    Plan(DesiredIn(spec, a, r), r.latest, r.delta, r.described)
  }

  function Specialised(spec: Spec, a: Annotations, r: Round): Outcome {
    Outcomes(DesiredIn(spec, a, r), PlanOf(spec, a, r), r.answers.0)
  }

  function OutcomeOf(spec: Spec, a: Annotations, r: Round): Outcome {
    if DifferentAt(r.delta, TAGS) then TagsPending
    else if Specialised(spec, a, r) != NothingDone then Specialised(spec, a, r)
    else
      match r.answers.1
      case Failed => ApiError
      case WithGroup => Updated(ModifyRecorded(spec, a))
      case WithoutGroup => Panicked
  }

  function Exchanges(spec: Spec, a: Annotations, r: Round): seq<Exchange> {
    if DifferentAt(r.delta, TAGS) then []
    else
      Sent(PlanOf(spec, a, r), r.answers.0)
      + (if Specialised(spec, a, r) == NothingDone then [Exchange(Generated(spec.cacheNodeType), r.answers.1)] else [])
  }

  /** The whole update: tags first, then the specialised update, then the generated request. */
  method SdkUpdate(api: Api, tagging: T.TagServer, spec: Spec, annotations: Annotations, status: Status,
                   latest: Resource, delta: Delta, described: Described,
                   desiredTags: seq<T.Tag>, latestTags: seq<T.Tag>)
    returns (o: Outcome, ghost answers: (Answer, Answer))
    requires delta.Valid()
    modifies api, tagging
    ensures var r := Round(status, latest, delta.Differences(), described, answers);
            && (|| o == OutcomeOf(spec, annotations, r)
                || (o == ApiError && OutcomeOf(spec, annotations, r) == TagsPending))
            && api.log == old(api.log) + Exchanges(spec, annotations, r)
    ensures old(tagging.log) <= tagging.log
    ensures DifferentAt(delta.Differences(), TAGS) ==>
              && (o == TagsPending || o == ApiError)
              && tagging.refused == old(tagging.refused) + (if o == ApiError then 1 else 0)
              && |tagging.log| == |old(tagging.log)| + (if T.ToMap(desiredTags) == T.ToMap(latestTags) then 0 else 1)
              && (|tagging.log| > |old(tagging.log)| ==>
                    T.IsRoundRequest(tagging.log[|old(tagging.log)|], T.ToMap(latestTags), T.ToMap(desiredTags)))
              && (old(tagging.tags) == T.ToMap(latestTags) ==>
                    tagging.tags == if o == ApiError then old(tagging.tags)
                                    else T.AfterRound(T.ToMap(latestTags), T.ToMap(desiredTags)))
    ensures !DifferentAt(delta.Differences(), TAGS) ==>
              tagging.log == old(tagging.log) && tagging.tags == old(tagging.tags)
  {
    answers := (Failed, Failed);
    var tagsDiffer := delta.IsDifferentAt(TAGS);
    if tagsDiffer {
      var err := T.SyncTags(tagging, desiredTags, latestTags);
      return if err == T.TagApiFailed then ApiError else TagsPending, answers;
    }
    var d := Resource(spec, status, annotations);
    ghost var first;
    o, first := CustomModifyReplicationGroup(api, d, latest, delta, described);
    answers := (first, Failed);
    if o != NothingDone {
      return;
    }
    var a := api.Call(Generated(spec.cacheNodeType));
    answers := (first, a);
    if a == Failed {
      return ApiError, answers;
    }
    if a == WithoutGroup {
      return Panicked, answers;
    }
    var ko := new ResourceObject(Some(annotations));
    SetAnnotationsFields(d, ko);
    return Updated(ko.All()), answers;
  }

  // ------------------------------------------------ step safety

  predicate IsRequestOf(request: Request, d: Resource, l: Resource, delta: seq<Difference>, described: Described) {
    match request
    case Increase(q) => q == IncreaseRequest(d, l)
    case Decrease(q) => DecreaseRequest(d) == Built(q)
    case Reshard(q) => ReshardRequest(d, l) == Built(q)
    case Modify(q) => described.Found? && ModifyingRequest(d.spec, described.cluster, delta) == Built(q)
    case Generated(_) => false
  }

  lemma PlanModifySends(d: Resource, l: Resource, delta: seq<Difference>, described: Described)
    ensures var p := PlanModify(d, delta, described); p.Send? ==> IsRequestOf(p.request, d, l, delta, described)
  {
  }

  /** What the specialised update sends is one of the four requests, and only for a ready group. */
  lemma PlanSends(d: Resource, l: Resource, delta: seq<Difference>, described: Described)
    requires Plan(d, l, delta, described).Send?
    ensures IsReady(l.status) && IsRequestOf(Plan(d, l, delta, described).request, d, l, delta, described)
  {
    PlanModifySends(d, l, delta, described);
    if SwitchesOff(d, l) {
      assert Plan(d, l, delta, described) == PlanModify(d, delta, described);
    } else if ReplicaCountDifference(d, l).value > 0 {
      assert Plan(d, l, delta, described) == Send(Increase(IncreaseRequest(d, l)));
    } else if ReplicaCountDifference(d, l).value < 0 {
      assert Plan(d, l, delta, described) == SendingDecrease(DecreaseRequest(d));
    } else if ShardConfigurationsDiffer(d, l) {
      assert Plan(d, l, delta, described) == SendingReshard(ReshardRequest(d, l));
    } else {
      assert Plan(d, l, delta, described) == PlanModify(d, delta, described);
    }
  }

  /** A round sends one request at most, and none unless the group is ready and its tags agree.
      The exception is a replica request answered without a group, which is taken for no
      request at all. */
  lemma OneRequestARound(spec: Spec, a: Annotations, r: Round)
    ensures Exchanges(spec, a, r) != [] ==> IsReady(r.latest.status) && !DifferentAt(r.delta, TAGS)
    ensures |Exchanges(spec, a, r)| <= 2
    ensures |Exchanges(spec, a, r)| == 2 <==>
              && !DifferentAt(r.delta, TAGS)
              && PlanOf(spec, a, r).Send?
              && (PlanOf(spec, a, r).request.Increase? || PlanOf(spec, a, r).request.Decrease?)
              && r.answers.0 == WithoutGroup
  {
    if PlanOf(spec, a, r).Send? {
      PlanSends(DesiredIn(spec, a, r), r.latest, r.delta, r.described);
    }
  }

  /** When the generated request is sent: exactly when the specialised update leaves the round to it,
      or takes a replica answer without a group for nothing done. */
  lemma WhenGenerated(spec: Spec, a: Annotations, r: Round)
    ensures var p := PlanOf(spec, a, r);
            (exists e :: e in Exchanges(spec, a, r) && e.request.Generated?) <==>
              && !DifferentAt(r.delta, TAGS)
              && (|| p == Defer
                  || (p.Send? && (p.request.Increase? || p.request.Decrease?) && r.answers.0 == WithoutGroup))
  {
    if PlanOf(spec, a, r).Send? {
      PlanSends(DesiredIn(spec, a, r), r.latest, r.delta, r.described);
    }
    if !DifferentAt(r.delta, TAGS) && Specialised(spec, a, r) == NothingDone {
      assert Exchange(Generated(spec.cacheNodeType), r.answers.1) in Exchanges(spec, a, r);
    }
  }

  /** How a round ends: by its last answer if it sent a request, else by its decision. */
  lemma RoundOutcome(spec: Spec, a: Annotations, r: Round)
    requires !DifferentAt(r.delta, TAGS)
    ensures var o, p, sent := OutcomeOf(spec, a, r), PlanOf(spec, a, r), Exchanges(spec, a, r);
            if sent != [] then
              var last := sent[|sent| - 1].answer;
              && (o.Updated? <==> last == WithGroup) && (o == ApiError <==> last == Failed)
              && (o == Panicked <==> last == WithoutGroup)
            else
              && (o == Requeued <==> p == Wait) && (o == Panicked <==> p == Crash)
              && (o == ValueRefused <==> p == RefuseValue) && (o == ApiError <==> p == DescribeFailed)
              && (p.Reject? ==> o == Rejected(p.field)) && (o.Rejected? ==> p.Reject?)
              && !o.Updated?
  {
  }

  /** Nothing that was requested before is asked for again. */
  predicate Untried(d: Resource, delta: seq<Difference>) {
    && (DifferentAt(delta, CACHE_NODE_TYPE) ==> CacheNodeTypeRequiresUpdate(d))
    && NodeGroupRequiresUpdate(d.spec, d.annotations) == Some(true)
  }

  /** Exactly when the shards are changed: the group is ready, this configuration was not asked
      for before, nothing is to be switched off or scaled up first, and, since both take zones, the
      replica counts already agree. */
  lemma WhenShardsChange(d: Resource, l: Resource, delta: seq<Difference>, described: Described)
    ensures Plan(d, l, delta, described).Send? && Plan(d, l, delta, described).request.Reshard? <==>
              && IsReady(l.status) && Untried(d, delta) && NothingToSwitchOff(d, l) && !ScalesUp(d, delta)
              && ReplicaCountDifference(d, l) == Some(0)
              && ShardConfigurationsDiffer(d, l) && ReshardRequest(d, l).Built?
    ensures Plan(d, l, delta, described).Send? && Plan(d, l, delta, described).request.Reshard? ==>
              Plan(d, l, delta, described).request.shards == ReshardRequest(d, l).request
  {
    var p := Plan(d, l, delta, described);
    if SwitchesOff(d, l) {
      assert p.Send? ==> !p.request.Reshard?;
    }
  }

  /** A replica difference may be acted on: the shards are not on record as requested, or they
      are, their number agrees, and the uniform count is reported to differ. */
  predicate ReplicasOpen(d: Resource, l: Resource, delta: seq<Difference>) {
    var required := NodeGroupRequiresUpdate(d.spec, d.annotations);
    && (DifferentAt(delta, CACHE_NODE_TYPE) ==> CacheNodeTypeRequiresUpdate(d))
    && (required == Some(true)
        || (required == Some(false) && !ShardConfigurationsDiffer(d, l) && DifferentAt(delta, REPLICAS_PER_NODE_GROUP)))
  }

  lemma DifferencePasses(d: Resource, l: Resource, delta: seq<Difference>)
    requires ReplicaCountDifference(d, l).Some? && ReplicaCountDifference(d, l).value != 0
    ensures RolledBack(d, l, delta) == None <==> ReplicasOpen(d, l, delta)
  {
  }

  /** Exactly when replicas change, and in which direction. */
  lemma WhenReplicasChange(d: Resource, l: Resource, delta: seq<Difference>, described: Described)
    ensures var p := Plan(d, l, delta, described);
            var pass := IsReady(l.status) && ReplicasOpen(d, l, delta) && NothingToSwitchOff(d, l);
            var diff := ReplicaCountDifference(d, l);
            && (p.Send? && p.request.Increase? <==> pass && diff.Some? && diff.value > 0)
            && (p.Send? && p.request.Decrease? <==>
                  pass && diff.Some? && diff.value < 0
                  && (d.spec.nodeGroupConfiguration.Some? ==> ZonesSet(d.spec.nodeGroupConfiguration.value)))
  {
    if ReplicaCountDifference(d, l).Some? && ReplicaCountDifference(d, l).value != 0 {
      DifferencePasses(d, l, delta);
    }
  }

  /** The generated request comes last: it is left to it only when replicas and shards already
      agree, or something is switched off or scaled up first; and the specialised modify request
      comes before it unless the spec gives neither of the fields that one is made for. */
  lemma GeneratedComesLast(d: Resource, l: Resource, delta: seq<Difference>, described: Described)
    requires Plan(d, l, delta, described) == Defer
    ensures IsReady(l.status)
    ensures DifferentAt(delta, CACHE_NODE_TYPE) ==> CacheNodeTypeRequiresUpdate(d)
    ensures !SwitchesOff(d, l) ==> ReplicaCountDifference(d, l) == Some(0)
    ensures !SwitchesOff(d, l) && !ScalesUp(d, delta) ==> !ShardConfigurationsDiffer(d, l)
    ensures d.spec.securityGroupIDs.Some? || d.spec.engineVersion.Some? ==>
              || (described.Found? && !SecurityGroupsDiffer(d.spec, described.cluster)
                  && !DifferentAt(delta, ENGINE_VERSION) && !DifferentAt(delta, ENGINE)
                  && !DifferentAt(delta, CACHE_PARAMETER_GROUP_NAME))
              || (!SwitchesOff(d, l) && ScalesUp(d, delta))
  {
  }

  /** Neither failover nor multi-AZ is on while the spec wants it off. */
  predicate NothingToSwitchOff(d: Resource, l: Resource) {
    && (d.spec.automaticFailoverEnabled == Some(false) ==> l.status.automaticFailover != Some("enabled"))
    && (d.spec.multiAZEnabled == Some(false) ==> l.status.multiAZ != Some("enabled"))
  }

  /** Exactly when the specialised modify request is sent: nothing was rolled back, what comes first
      is done unless something is to be switched off, the spec gives one of its two main fields, the
      cluster was found, something differs, and no id is nil where the ids differ. */
  lemma WhenModified(d: Resource, l: Resource, delta: seq<Difference>, described: Described)
    ensures var p := Plan(d, l, delta, described);
            var turn := || !NothingToSwitchOff(d, l)
                        || (ReplicaCountDifference(d, l) == Some(0) && !ScalesUp(d, delta)
                            && !ShardConfigurationsDiffer(d, l));
            var given := d.spec.securityGroupIDs.Some? || d.spec.engineVersion.Some?;
            var due := IsReady(l.status) && RolledBack(d, l, delta) == None && turn && given;
            && (p.Send? && p.request.Modify? <==>
                  && due && described.Found? && FieldsDiffer(d, delta, described.cluster)
                  && (SecurityGroupsDiffer(d.spec, described.cluster) ==> IdsGiven(d.spec)))
            && (p == DescribeFailed <==> due && described == Unreadable)
  {
  }

  /** The other rounds that send nothing of their own: those that wait, those whose request is
      refused before it is sent, and those that leave it to the generated request. */
  lemma WhenNothingIsSent(d: Resource, l: Resource, delta: seq<Difference>, described: Described)
    ensures var p := Plan(d, l, delta, described);
            && (p == Wait <==> !IsReady(l.status))
            && (p == RefuseValue <==>
                  && IsReady(l.status) && Untried(d, delta) && NothingToSwitchOff(d, l) && !ScalesUp(d, delta)
                  && ReplicaCountDifference(d, l) == Some(0) && ShardConfigurationsDiffer(d, l)
                  && !ReshardCrashes(d, l) && Shrinks(d, l) && Kept(d) == [])
            && (p.Reject? <==>
                  && IsReady(l.status)
                  && var required := NodeGroupRequiresUpdate(d.spec, d.annotations);
                     || (DifferentAt(delta, CACHE_NODE_TYPE) && !CacheNodeTypeRequiresUpdate(d))
                     || (required == Some(false) && ShardConfigurationsDiffer(d, l))
                     || (required == Some(false) && ReplicaCountDifference(d, l).Some?
                         && ReplicaCountDifference(d, l).value != 0 && !DifferentAt(delta, REPLICAS_PER_NODE_GROUP)))
  {
  }

  /** Scaling up comes before the shards exactly when the type differs and is one the status allows. */
  lemma ScalingUpDefers(d: Resource, l: Resource, delta: seq<Difference>, described: Described)
    requires IsReady(l.status) && Untried(d, delta) && NothingToSwitchOff(d, l)
    requires ReplicaCountDifference(d, l) == Some(0) && ShardConfigurationsDiffer(d, l)
    ensures Plan(d, l, delta, described) == Defer <==>
              && DifferentAt(delta, CACHE_NODE_TYPE) && d.spec.cacheNodeType.Some?
              && d.status.allowedScaleUp.Some? && d.spec.cacheNodeType.value in d.status.allowedScaleUp.value
  {
  }

  /** Replicas are added when more are desired than there are, taken away when fewer: for a uniform
      count, or for the first configured shard that differs. */
  lemma ReplicaDirection(d: Resource, l: Resource)
    requires ReplicaCountDifference(d, l).Some? && ReplicaCountDifference(d, l).value != 0
    requires d.spec.replicasPerNodeGroup.Some? ==>
               d.spec.replicasPerNodeGroup.value >= 0 && l.spec.replicasPerNodeGroup.value >= 0
    requires d.spec.nodeGroupConfiguration.Some? ==>
               forall i :: 0 <= i < |d.spec.nodeGroupConfiguration.value| ==>
                 d.spec.nodeGroupConfiguration.value[i].replicaCount.GetOr(0) >= 0
    ensures d.spec.replicasPerNodeGroup.Some? ==>
              (ReplicaCountDifference(d, l).value > 0 <==>
                 d.spec.replicasPerNodeGroup.value > l.spec.replicasPerNodeGroup.value)
    ensures d.spec.replicasPerNodeGroup == None ==>
              && d.spec.nodeGroupConfiguration.Some?
              && var cfg, counts := d.spec.nodeGroupConfiguration.value, LatestCounts(Groups(l.status.nodeGroups));
                 exists i :: FirstMismatch(cfg, counts, i, ReplicaCountDifference(d, l).value)
                   && (ReplicaCountDifference(d, l).value > 0 <==>
                         cfg[i].replicaCount.value > counts[cfg[i].id.value])
  {
    if d.spec.replicasPerNodeGroup.Some? {
      WrappedDifference(d.spec.replicasPerNodeGroup.value, l.spec.replicasPerNodeGroup.value);
    } else {
      var cfg, groups := d.spec.nodeGroupConfiguration.value, Groups(l.status.nodeGroups);
      var counts := LatestCounts(groups);
      FirstDifferenceMeaning(cfg, counts);
      var i :| FirstMismatch(cfg, counts, i, ReplicaCountDifference(d, l).value);
      assert cfg[i].replicaCount.GetOr(0) >= 0;
      LastIdentified(groups, cfg[i].id.value);
      WrappedDifference(cfg[i].replicaCount.value, counts[cfg[i].id.value]);
    }
  }

  function GroupOf(r: Request): Option<string>
    requires !r.Generated?
  {
    match r
    case Increase(q) => q.groupID
    case Decrease(q) => q.groupID
    case Reshard(q) => q.groupID
    case Modify(q) => q.groupID
  }

  /** Every specialised request names the spec's own group. */
  lemma RequestsNameTheGroup(d: Resource, l: Resource, delta: seq<Difference>, described: Described)
    requires Plan(d, l, delta, described).Send?
    ensures !Plan(d, l, delta, described).request.Generated?
    ensures GroupOf(Plan(d, l, delta, described).request) == d.spec.replicationGroupID
  {
    PlanSends(d, l, delta, described);
  }

  // ------------------------------------------------ crashes

  predicate IdsGiven(s: Spec) {
    s.securityGroupIDs.Some? ==> AllSet(s.securityGroupIDs.value)
  }

  predicate ZonesGiven(s: Spec) {
    s.nodeGroupConfiguration.Some? ==> ZonesSet(s.nodeGroupConfiguration.value)
  }

  /** What an update of this desired and observed state reads without a check is there. A state
      that is not ready, or is rejected for its number of shards, is not read any further. */
  predicate NeverCrashes(d: Resource, l: Resource) {
    var required := NodeGroupRequiresUpdate(d.spec, d.annotations);
    var diff := ReplicaCountDifference(d, l);
    IsReady(l.status) ==>
      && required.Some?
      && (required == Some(true) || !ShardConfigurationsDiffer(d, l) ==>
            && (diff == None ==> required == Some(true) && SwitchesOff(d, l))
            && (SwitchesOff(d, l) ==> IdsGiven(d.spec))
            && (!SwitchesOff(d, l) && diff.Some? ==>
                  && (diff.value < 0 ==> ZonesGiven(d.spec))
                  && (diff.value == 0 && ShardConfigurationsDiffer(d, l) ==> !ReshardCrashes(d, l))
                  && (diff.value == 0 && !ShardConfigurationsDiffer(d, l) ==> IdsGiven(d.spec))))
  }

  /** A cluster whose security groups are not the spec's. */
  function OtherCluster(s: Spec): Option<CacheCluster> {
    if s.securityGroupIDs.Some? && NonNil(s.securityGroupIDs.value) == [] then Some(CacheCluster([Some("sg")]))
    else None
  }

  lemma OtherClusterDiffers(s: Spec)
    requires s.securityGroupIDs.Some?
    ensures SecurityGroupsDiffer(s, OtherCluster(s))
  {
    var ids, others := NonNil(s.securityGroupIDs.value), NonNil(ClusterIds(OtherCluster(s)));
    if ids == [] {
      assert [Some("sg")][..0] == [];
      assert others == ["sg"];
      assert "sg" in multiset(others);
    } else {
      assert ids[0] in multiset(ids);
    }
  }

  /** Nothing but the uniform replica count is reported to differ. */
  function UniformDelta(): seq<Difference> {
    [Difference(REPLICAS_PER_NODE_GROUP, Other, Other)]
  }

  lemma UniformDeltaOnly(p: Path)
    ensures DifferentAt(UniformDelta(), p) <==> p <= REPLICAS_PER_NODE_GROUP
  {
    assert Contains(UniformDelta()[0].path, p) <==> p <= REPLICAS_PER_NODE_GROUP;
  }

  /** Exactly the states that no update crashes on, whatever differs and whatever cluster is
      found. */
  lemma CrashesExactlyUnless(d: Resource, l: Resource)
    ensures (forall delta, described :: Plan(d, l, delta, described) != Crash) <==> NeverCrashes(d, l)
  {
    if NeverCrashes(d, l) {
      forall delta, described
        ensures Plan(d, l, delta, described) != Crash
      {
        NoCrash(d, l, delta, described);
      }
    } else {
      CrashWitness(d, l);
      assert Plan(d, l, UniformDelta(), Found(OtherCluster(d.spec))) == Crash;
    }
  }

  lemma NoCrash(d: Resource, l: Resource, delta: seq<Difference>, described: Described)
    requires NeverCrashes(d, l)
    ensures Plan(d, l, delta, described) != Crash
  {
  }

  lemma ModifyCrashes(d: Resource)
    requires !IdsGiven(d.spec)
    ensures PlanModify(d, UniformDelta(), Found(OtherCluster(d.spec))) == Crash
  {
    OtherClusterDiffers(d.spec);
  }

  lemma UniformDeltaPasses(d: Resource, l: Resource)
    ensures !ScalesUp(d, UniformDelta())
    ensures var required := NodeGroupRequiresUpdate(d.spec, d.annotations);
            RolledBack(d, l, UniformDelta()) ==
              if required == None then Some(Crash)
              else if required.value then None
              else if ShardConfigurationsDiffer(d, l) then Some(Reject(NodeGroups))
              else if ReplicaCountDifference(d, l) == None then Some(Crash)
              else None
  {
    UniformDeltaOnly(CACHE_NODE_TYPE);
    UniformDeltaOnly(REPLICAS_PER_NODE_GROUP);
    assert |CACHE_NODE_TYPE[1]| == 13 && |REPLICAS_PER_NODE_GROUP[1]| == 20;
  }

  lemma CrashWitness(d: Resource, l: Resource)
    requires !NeverCrashes(d, l)
    ensures Plan(d, l, UniformDelta(), Found(OtherCluster(d.spec))) == Crash
  {
    UniformDeltaPasses(d, l);
    if !IdsGiven(d.spec) {
      ModifyCrashes(d);
    }
  }

  /** The shard count was recorded as a number. */
  predicate CountRecorded(a: Annotations) {
    Recorded(a, LAST_REQUESTED_NNG) && a[LAST_REQUESTED_NNG].Text? && ParseInt64(a[LAST_REQUESTED_NNG].text).ok
  }

  /** When a recorded shard count is no longer given, every ready round ends in a crash or a
      rejection. */
  lemma RemovedCountCrashes(spec: Spec, a: Annotations, r: Round)
    requires CountRecorded(a) && spec.numNodeGroups == None
    ensures Exchanges(spec, a, r) == []
    ensures !OutcomeOf(spec, a, r).Updated?
    ensures IsReady(r.latest.status) && !DifferentAt(r.delta, TAGS) ==>
              OutcomeOf(spec, a, r) == Panicked || OutcomeOf(spec, a, r) == Rejected(CacheNodeType)
  {
  }
}
