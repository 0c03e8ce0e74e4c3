/** The phased update of a serverless cache: one field per round, by a fixed priority, and a
    requeue after each (`pkg/resource/serverless_cache/hooks.go`). */
module ServerlessCaches {
  import opened Wrappers
  import opened GoNumbers
  import T = Tags

  datatype DataStorage = DataStorage(maximum: Option<int64>, minimum: Option<int64>, unit: Option<string>)

  datatype ECPUPerSecond = ECPUPerSecond(maximum: Option<int64>, minimum: Option<int64>)

  datatype CacheUsageLimits = CacheUsageLimits(dataStorage: Option<DataStorage>, ecpu: Option<ECPUPerSecond>)

  /** The updatable fields of the desired spec. */
  datatype Spec = Spec(
    description: Option<string>,
    tags: seq<T.Tag>,
    dailySnapshotTime: Option<string>,
    snapshotRetentionLimit: Option<int64>,
    securityGroupIDs: seq<string>,
    userGroupID: Option<string>,
    cacheUsageLimits: Option<CacheUsageLimits>,
    engine: Option<string>,
    majorEngineVersion: Option<string>)

  /** The same fields as the server holds them and a read shows them. */
  datatype State = State(
    description: Option<string>,
    tags: T.TagMap,
    dailySnapshotTime: Option<string>,
    snapshotRetentionLimit: Option<int64>,
    securityGroupIDs: seq<string>,
    userGroupID: Option<string>,
    cacheUsageLimits: Option<CacheUsageLimits>,
    engine: Option<string>,
    majorEngineVersion: Option<string>)

  /** What a round may change, in order of priority. Engine and version go together. */
  datatype Field =
    | Description | TagSet | DailySnapshotTime | SnapshotRetentionLimit
    | SecurityGroupIDs | UserGroupID | UsageLimits | EngineAndVersion

  function Position(f: Field): nat {
    match f
    case Description => 0 case TagSet => 1 case DailySnapshotTime => 2 case SnapshotRetentionLimit => 3
    case SecurityGroupIDs => 4 case UserGroupID => 5 case UsageLimits => 6 case EngineAndVersion => 7
  }

  // ------------------------------------------------ what differs

  /** The comparison of desired and observed fields. Group lists are compared up to order. */
  predicate Differs(f: Field, d: Spec, s: State) {
    match f
    case Description => d.description != s.description
    case TagSet => T.ToMap(d.tags) != s.tags
    case DailySnapshotTime => d.dailySnapshotTime != s.dailySnapshotTime
    case SnapshotRetentionLimit => d.snapshotRetentionLimit != s.snapshotRetentionLimit
    case SecurityGroupIDs => multiset(d.securityGroupIDs) != multiset(s.securityGroupIDs)
    case UserGroupID => d.userGroupID != s.userGroupID
    case UsageLimits => d.cacheUsageLimits != s.cacheUsageLimits
    case EngineAndVersion => d.engine != s.engine || d.majorEngineVersion != s.majorEngineVersion
  }

  /** The differing field of highest priority. */
  function Top(d: Spec, s: State): (r: Option<Field>)
    ensures r == None ==> forall f :: !Differs(f, d, s)
    ensures r.Some? ==> Differs(r.value, d, s) && forall f :: Position(f) < Position(r.value) ==> !Differs(f, d, s)
  {
    if Differs(Description, d, s) then Some(Description)
    else if Differs(TagSet, d, s) then Some(TagSet)
    else if Differs(DailySnapshotTime, d, s) then Some(DailySnapshotTime)
    else if Differs(SnapshotRetentionLimit, d, s) then Some(SnapshotRetentionLimit)
    else if Differs(SecurityGroupIDs, d, s) then Some(SecurityGroupIDs)
    else if Differs(UserGroupID, d, s) then Some(UserGroupID)
    else if Differs(UsageLimits, d, s) then Some(UsageLimits)
    else if Differs(EngineAndVersion, d, s) then Some(EngineAndVersion)
    else None
  }

  predicate Agrees(d: Spec, s: State) {
    Top(d, s) == None
  }

  /** The desired and the observed state agree exactly when every field does, group lists up to
      order. */
  lemma AgreesMeaning(d: Spec, s: State)
    ensures Agrees(d, s) <==>
              && d.description == s.description && T.ToMap(d.tags) == s.tags
              && d.dailySnapshotTime == s.dailySnapshotTime && d.snapshotRetentionLimit == s.snapshotRetentionLimit
              && multiset(d.securityGroupIDs) == multiset(s.securityGroupIDs) && d.userGroupID == s.userGroupID
              && d.cacheUsageLimits == s.cacheUsageLimits
              && d.engine == s.engine && d.majorEngineVersion == s.majorEngineVersion
  {
  }

  // ------------------------------------------------ requests

  /** The modify request: a field that is not given is left as it is on the server. */
  datatype ModifyInput = ModifyInput(
    description: Option<string>,
    dailySnapshotTime: Option<string>,
    snapshotRetentionLimit: Option<int64>,
    securityGroupIds: seq<string>,
    userGroupId: Option<string>,
    cacheUsageLimits: Option<CacheUsageLimits>,
    engine: Option<string>,
    majorEngineVersion: Option<string>)

  const EMPTY_INPUT := ModifyInput(None, None, None, [], None, None, None, None)

  /** The limits as they reach the server and are read back: numbers narrowed to 32 bits, and
      an empty unit the same as none. */
  function SentLimits(l: CacheUsageLimits): CacheUsageLimits {
    CacheUsageLimits(
      if l.dataStorage.Some? then
        var ds := l.dataStorage.value;
        Some(DataStorage(Int32OrNil(ds.maximum), Int32OrNil(ds.minimum), if ds.unit == Some("") then None else ds.unit))
      else None,
      if l.ecpu.Some? then Some(ECPUPerSecond(Int32OrNil(l.ecpu.value.maximum), Int32OrNil(l.ecpu.value.minimum)))
      else None)
  }

  /** The input built for one field. */
  function InputFor(f: Field, d: Spec): ModifyInput
    requires f != TagSet
  {
    match f
    case Description => EMPTY_INPUT.(description := d.description)
    case DailySnapshotTime => EMPTY_INPUT.(dailySnapshotTime := d.dailySnapshotTime)
    case SnapshotRetentionLimit => EMPTY_INPUT.(snapshotRetentionLimit := Int32OrNil(d.snapshotRetentionLimit))
    case SecurityGroupIDs => EMPTY_INPUT.(securityGroupIds := d.securityGroupIDs)
    case UserGroupID => EMPTY_INPUT.(userGroupId := d.userGroupID)
    case UsageLimits =>
      EMPTY_INPUT.(cacheUsageLimits :=
        if d.cacheUsageLimits.Some? then Some(SentLimits(d.cacheUsageLimits.value)) else None)
    case EngineAndVersion => EMPTY_INPUT.(engine := d.engine, majorEngineVersion := d.majorEngineVersion)
  }

  function Over<A>(given: Option<A>, current: Option<A>): Option<A> {
    if given.Some? then given else current
  }

  /** The server's side of a modify request. */
  function Modified(s: State, i: ModifyInput): State {
    s.(description := Over(i.description, s.description),
       dailySnapshotTime := Over(i.dailySnapshotTime, s.dailySnapshotTime),
       snapshotRetentionLimit := Over(i.snapshotRetentionLimit, s.snapshotRetentionLimit),
       securityGroupIDs := if i.securityGroupIds != [] then i.securityGroupIds else s.securityGroupIDs,
       userGroupID := Over(i.userGroupId, s.userGroupID),
       cacheUsageLimits := Over(i.cacheUsageLimits, s.cacheUsageLimits),
       engine := Over(i.engine, s.engine),
       majorEngineVersion := Over(i.majorEngineVersion, s.majorEngineVersion))
  }

  /** The server after a round whose request, if any, was applied. */
  ghost function AfterRound(d: Spec, s: State): State {
    match Top(d, s)
    case None => s
    case Some(TagSet) => s.(tags := T.AfterRound(s.tags, T.ToMap(d.tags)))
    case Some(f) => Modified(s, InputFor(f, d))
  }

  // ------------------------------------------------ the update, call by call

  datatype Outcome = RequeueDeleting | RequeueCreating | RequeueModifying | RequeueTags | UpdateFailed

  predicate Busy(status: Option<string>) {
    status == Some("creating") || status == Some("deleting") || status == Some("modifying")
  }

  class ServerlessServer {
    const tagging: T.TagServer
    var settings: State
    var log: seq<ModifyInput>
    ghost var refused: nat

    constructor (s: State)
      ensures fresh(tagging) && Current() == s
      ensures log == [] && tagging.log == [] && Refusals() == 0
    {
      tagging := new T.TagServer(s.tags);
      settings := s;
      log := [];
      refused := 0;
    }

    ghost function Current(): State
      reads this, tagging
    {
      settings.(tags := tagging.tags)
    }

    ghost function Refusals(): nat
      reads this, tagging
    {
      refused + tagging.refused
    }

    /** The request is recorded, and is either applied or refused; refusals are counted. */
    method ModifyServerlessCache(input: ModifyInput) returns (ok: bool)
      modifies this
      ensures log == old(log) + [input]
      ensures settings == if ok then Modified(old(settings), input) else old(settings)
      ensures refused == old(refused) + (if ok then 0 else 1)
    {
      log := log + [input];
      ok := *;
      if ok {
        settings := Modified(settings, input);
      } else {
        refused := refused + 1;
      }
    }
  }

  method SnapshotRetentionLimitInput(desired: Spec) returns (input: ModifyInput)
    ensures input == InputFor(SnapshotRetentionLimit, desired)
  {
    input := EMPTY_INPUT;
    if desired.snapshotRetentionLimit.Some? {
      var copy := WrapInt32(desired.snapshotRetentionLimit.value);
      input := input.(snapshotRetentionLimit := Some(copy));
    }
  }

  method CacheUsageLimitsInput(desired: Spec) returns (input: ModifyInput)
    ensures input == InputFor(UsageLimits, desired)
  {
    input := EMPTY_INPUT;
    if desired.cacheUsageLimits.Some? {
      var limits := desired.cacheUsageLimits.value;
      var f0 := CacheUsageLimits(None, None);
      if limits.dataStorage.Some? {
        var f0f0 := DataStorage(None, None, None);
        if limits.dataStorage.value.maximum.Some? {
          f0f0 := f0f0.(maximum := Some(WrapInt32(limits.dataStorage.value.maximum.value)));
        }
        if limits.dataStorage.value.minimum.Some? {
          f0f0 := f0f0.(minimum := Some(WrapInt32(limits.dataStorage.value.minimum.value)));
        }
        if limits.dataStorage.value.unit.Some? && limits.dataStorage.value.unit.value != "" {
          f0f0 := f0f0.(unit := limits.dataStorage.value.unit);
        }
        f0 := f0.(dataStorage := Some(f0f0));
      }
      if limits.ecpu.Some? {
        var f0f1 := ECPUPerSecond(None, None);
        if limits.ecpu.value.maximum.Some? {
          f0f1 := f0f1.(maximum := Some(WrapInt32(limits.ecpu.value.maximum.value)));
        }
        if limits.ecpu.value.minimum.Some? {
          f0f1 := f0f1.(minimum := Some(WrapInt32(limits.ecpu.value.minimum.value)));
        }
        f0 := f0.(ecpu := Some(f0f1));
      }
      input := input.(cacheUsageLimits := Some(f0));
    }
  }

  /** The modify request of a round: the field of highest priority that differs, if that is not the
      tags. */
  function RequestFor(d: Spec, s: State): seq<ModifyInput> {
    match Top(d, s)
    case None => []
    case Some(TagSet) => []
    case Some(f) => [InputFor(f, d)]
  }

  /** Sends the input built for the field that the round is for. */
  method SyncField(server: ServerlessServer, input: ModifyInput, ghost desired: Spec, ghost latest: State,
                   ghost f: Field)
    returns (ok: bool)
    requires latest == server.Current() && Top(desired, latest) == Some(f) && f != TagSet
    requires input == InputFor(f, desired)
    modifies server
    ensures server.Current() == if ok then AfterRound(desired, latest) else latest
    ensures server.log == old(server.log) + RequestFor(desired, latest)
    ensures server.refused == old(server.refused) + (if ok then 0 else 1)
  {
    ok := server.ModifyServerlessCache(input);
  }

  /** The fields that come after the snapshot settings, in their order. */
  method SyncLaterFields(server: ServerlessServer, desired: Spec, latest: State) returns (ok: bool)
    requires latest == server.Current()
    requires Top(desired, latest).Some? ==> Position(Top(desired, latest).value) >= Position(SecurityGroupIDs)
    modifies server
    ensures server.Current() == if ok then AfterRound(desired, latest) else latest
    ensures server.log == old(server.log) + RequestFor(desired, latest)
    ensures server.refused == old(server.refused) + (if ok then 0 else 1)
  {
    ok := true;
    if multiset(desired.securityGroupIDs) != multiset(latest.securityGroupIDs) {
      var input := EMPTY_INPUT.(securityGroupIds := desired.securityGroupIDs);
      ok := SyncField(server, input, desired, latest, SecurityGroupIDs);
    } else if desired.userGroupID != latest.userGroupID {
      ok := SyncField(server, EMPTY_INPUT.(userGroupId := desired.userGroupID), desired, latest, UserGroupID);
    } else if desired.cacheUsageLimits != latest.cacheUsageLimits {
      var input := CacheUsageLimitsInput(desired);
      ok := SyncField(server, input, desired, latest, UsageLimits);
    } else if desired.engine != latest.engine || desired.majorEngineVersion != latest.majorEngineVersion {
      var input := EMPTY_INPUT.(engine := desired.engine, majorEngineVersion := desired.majorEngineVersion);
      ok := SyncField(server, input, desired, latest, EngineAndVersion);
    }
  }

  /** One round. While the cache is being created, deleted or modified nothing is sent. Otherwise
      the highest-priority differing field, and only that, is sent. Every outcome asks for
      another round or is an error: no round reports that the update is complete. */
  method CustomUpdateServerlessCache(server: ServerlessServer, desired: Spec, latest: State,
                                     latestTags: seq<T.Tag>, status: Option<string>)
    returns (outcome: Outcome)
    requires latest == server.Current() && latest.tags == T.ToMap(latestTags)
    modifies server, server.tagging
    ensures server.Refusals() == old(server.Refusals()) + (if outcome == UpdateFailed then 1 else 0)
    ensures Busy(status) ==>
              && server.Current() == latest && server.log == old(server.log)
              && server.tagging.log == old(server.tagging.log)
              && outcome == (if status == Some("deleting") then RequeueDeleting
                             else if status == Some("creating") then RequeueCreating else RequeueModifying)
    ensures !Busy(status) ==>
              && server.Current() == (if outcome == UpdateFailed then latest else AfterRound(desired, latest))
              && server.log == old(server.log) + RequestFor(desired, latest)
              && |server.tagging.log| ==
                   |old(server.tagging.log)| + (if Top(desired, latest) == Some(TagSet) then 1 else 0)
              && (outcome != UpdateFailed ==>
                    outcome == if Top(desired, latest) == Some(TagSet) then RequeueTags else RequeueModifying)
  {
    if status == Some("deleting") {
      return RequeueDeleting;
    }
    if status == Some("creating") {
      return RequeueCreating;
    }
    if status == Some("modifying") {
      return RequeueModifying;
    }
    var ok := true;
    if desired.description != latest.description {
      ok := SyncField(server, EMPTY_INPUT.(description := desired.description), desired, latest, Description);
    } else if T.ToMap(desired.tags) != latest.tags {
      var err := SyncTags(server, desired, latestTags);
      return if err == T.TagApiFailed then UpdateFailed else RequeueTags;
    } else if desired.dailySnapshotTime != latest.dailySnapshotTime {
      var input := EMPTY_INPUT.(dailySnapshotTime := desired.dailySnapshotTime);
      ok := SyncField(server, input, desired, latest, DailySnapshotTime);
    } else if desired.snapshotRetentionLimit != latest.snapshotRetentionLimit {
      var input := SnapshotRetentionLimitInput(desired);
      ok := SyncField(server, input, desired, latest, SnapshotRetentionLimit);
    } else {
      ok := SyncLaterFields(server, desired, latest);
    }
    return if ok then RequeueModifying else UpdateFailed;
  }

  /** Tags that differ always lead to exactly one tagging request. */
  method SyncTags(server: ServerlessServer, desired: Spec, latestTags: seq<T.Tag>) returns (err: T.SyncError)
    requires server.tagging.tags == T.ToMap(latestTags) != T.ToMap(desired.tags)
    modifies server.tagging
    ensures |server.tagging.log| == |old(server.tagging.log)| + 1
    ensures server.tagging.refused == old(server.tagging.refused) + (if err == T.TagApiFailed then 1 else 0)
    ensures server.tagging.tags ==
      if err == T.TagApiFailed then old(server.tagging.tags)
      else T.AfterRound(old(server.tagging.tags), T.ToMap(desired.tags))
  {
    T.TagRoundProgress(server.tagging.tags, T.ToMap(desired.tags));
    err := T.SyncTags(server.tagging, desired.tags, latestTags);
  }

  // ------------------------------------------------ progress

  predicate Fits32(x: Option<int64>) {
    x == None || -0x8000_0000 <= x.value < 0x8000_0000
  }

  predicate LimitsFit(l: CacheUsageLimits) {
    && (l.dataStorage.Some? ==>
          && Fits32(l.dataStorage.value.maximum)
          && Fits32(l.dataStorage.value.minimum)
          && l.dataStorage.value.unit != Some(""))
    && (l.ecpu.Some? ==> Fits32(l.ecpu.value.maximum) && Fits32(l.ecpu.value.minimum))
  }

  /** Whether a request can bring the server's field to the desired value. A value that is not
      given cannot be unset, numbers must fit 32 bits, and a group list cannot be emptied. */
  predicate Expressible(f: Field, d: Spec, s: State) {
    match f
    case Description => d.description.Some?
    case TagSet => true
    case DailySnapshotTime => d.dailySnapshotTime.Some?
    case SnapshotRetentionLimit => d.snapshotRetentionLimit.Some? && Fits32(d.snapshotRetentionLimit)
    case SecurityGroupIDs => d.securityGroupIDs != []
    case UserGroupID => d.userGroupID.Some?
    case UsageLimits => d.cacheUsageLimits.Some? && LimitsFit(d.cacheUsageLimits.value)
    case EngineAndVersion =>
      && (d.engine.Some? || s.engine == None)
      && (d.majorEngineVersion.Some? || s.majorEngineVersion == None)
  }

  ghost predicate AllExpressible(d: Spec, s: State) {
    forall f :: Differs(f, d, s) ==> Expressible(f, d, s)
  }

  predicate SameField(f: Field, s: State, t: State) {
    match f
    case Description => s.description == t.description
    case TagSet => s.tags == t.tags
    case DailySnapshotTime => s.dailySnapshotTime == t.dailySnapshotTime
    case SnapshotRetentionLimit => s.snapshotRetentionLimit == t.snapshotRetentionLimit
    case SecurityGroupIDs => s.securityGroupIDs == t.securityGroupIDs
    case UserGroupID => s.userGroupID == t.userGroupID
    case UsageLimits => s.cacheUsageLimits == t.cacheUsageLimits
    case EngineAndVersion => s.engine == t.engine && s.majorEngineVersion == t.majorEngineVersion
  }

  /** A round touches no field but the one of highest priority that differs. */
  lemma RoundChangesOnlyTop(d: Spec, s: State, f: Field)
    requires Top(d, s) != Some(f)
    ensures SameField(f, s, AfterRound(d, s))
    ensures Differs(f, d, AfterRound(d, s)) <==> Differs(f, d, s)
  {
  }

  /** The steps a field is away from agreement; tags may take an addition and a removal. */
  ghost function Distance(f: Field, d: Spec, s: State): nat {
    if f == TagSet then T.TagDistance(s.tags, T.ToMap(d.tags))
    else if Differs(f, d, s) then 1 else 0
  }

  ghost function Measure(d: Spec, s: State): nat {
    Distance(Description, d, s) + Distance(TagSet, d, s) + Distance(DailySnapshotTime, d, s)
    + Distance(SnapshotRetentionLimit, d, s) + Distance(SecurityGroupIDs, d, s) + Distance(UserGroupID, d, s)
    + Distance(UsageLimits, d, s) + Distance(EngineAndVersion, d, s)
  }

  lemma WrapKeeps(x: Option<int64>)
    ensures Int32OrNil(x) == x <==> Fits32(x)
  {
    if x.Some? { WrapInt32Keeps(x.value); }
  }

  lemma LimitsArrive(l: CacheUsageLimits)
    ensures SentLimits(l) == l <==> LimitsFit(l)
  {
    if l.dataStorage.Some? {
      WrapKeeps(l.dataStorage.value.maximum);
      WrapKeeps(l.dataStorage.value.minimum);
    }
    if l.ecpu.Some? {
      WrapKeeps(l.ecpu.value.maximum);
      WrapKeeps(l.ecpu.value.minimum);
    }
  }

  /** The field sent comes to agree exactly when it is expressible; a tag round always comes
      one step nearer. Whether a field is expressible does not change. */
  lemma TopField(d: Spec, s: State, f: Field)
    requires Top(d, s) == Some(f)
    ensures f != TagSet ==> (Differs(f, d, AfterRound(d, s)) <==> !Expressible(f, d, s))
    ensures Distance(f, d, AfterRound(d, s)) == Distance(f, d, s) - 1 <==> Expressible(f, d, s)
    ensures Expressible(f, d, AfterRound(d, s)) <==> Expressible(f, d, s)
  {
    T.TagRoundProgress(s.tags, T.ToMap(d.tags));
    if f == SnapshotRetentionLimit {
      WrapKeeps(d.snapshotRetentionLimit);
    }
    if f == UsageLimits && d.cacheUsageLimits.Some? {
      LimitsArrive(d.cacheUsageLimits.value);
    }
  }

  lemma SameFieldSameDistance(f: Field, d: Spec, s: State, t: State)
    requires SameField(f, s, t)
    ensures Distance(f, d, s) == Distance(f, d, t)
    ensures Expressible(f, d, s) <==> Expressible(f, d, t)
  {
  }

  /** Every effective round brings an expressible difference one step nearer to agreement, and
      keeps the remaining differences expressible. */
  lemma RoundDecreases(d: Spec, s: State)
    requires AllExpressible(d, s)
    ensures Measure(d, s) == 0 <==> Agrees(d, s)
    ensures !Agrees(d, s) ==> Measure(d, AfterRound(d, s)) == Measure(d, s) - 1
    ensures AllExpressible(d, AfterRound(d, s))
    ensures Measure(d, s) <= 9
  {
    DistanceMeaning(d, s);
    MeasureDrops(d, s);
    forall f: Field | Differs(f, d, AfterRound(d, s))
      ensures Expressible(f, d, AfterRound(d, s))
    {
      FieldAfterRound(d, s, f);
    }
  }

  lemma MeasureDrops(d: Spec, s: State)
    requires AllExpressible(d, s)
    ensures Measure(d, AfterRound(d, s)) == Measure(d, s) - (if Agrees(d, s) then 0 else 1)
  {
    FieldAfterRound(d, s, Description);
    FieldAfterRound(d, s, TagSet);
    FieldAfterRound(d, s, DailySnapshotTime);
    FieldAfterRound(d, s, SnapshotRetentionLimit);
    FieldAfterRound(d, s, SecurityGroupIDs);
    FieldAfterRound(d, s, UserGroupID);
    FieldAfterRound(d, s, UsageLimits);
    FieldAfterRound(d, s, EngineAndVersion);
  }

  /** What an effective round does to any one field. */
  lemma FieldAfterRound(d: Spec, s: State, f: Field)
    requires AllExpressible(d, s)
    ensures Distance(f, d, AfterRound(d, s)) == Distance(f, d, s) - (if Top(d, s) == Some(f) then 1 else 0)
    ensures Differs(f, d, AfterRound(d, s)) ==> Expressible(f, d, AfterRound(d, s))
  {
    if Top(d, s) == Some(f) {
      TopField(d, s, f);
    } else {
      RoundChangesOnlyTop(d, s, f);
      SameFieldSameDistance(f, d, s, AfterRound(d, s));
    }
  }

  lemma DistanceMeaning(d: Spec, s: State)
    ensures forall f :: Distance(f, d, s) == 0 <==> !Differs(f, d, s)
    ensures Distance(TagSet, d, s) <= 2 && forall f :: f != TagSet ==> Distance(f, d, s) <= 1
  {
    T.TagRoundProgress(s.tags, T.ToMap(d.tags));
  }

  // ------------------------------------------------ whole runs

  /** What a round meets: the status observed, and whether a request would be applied. */
  datatype Round = Round(status: Option<string>, applied: bool)

  ghost function Step(d: Spec, s: State, r: Round): State {
    if Busy(r.status) || !r.applied then s else AfterRound(d, s)
  }

  ghost function Run(d: Spec, s: State, rounds: seq<Round>): State
    decreases |rounds|
  {
    if rounds == [] then s else Run(d, Step(d, s, rounds[0]), rounds[1..])
  }

  /** The rounds in which a request would be applied. */
  function Effective(rounds: seq<Round>): nat {
    if rounds == [] then 0
    else (if Busy(rounds[0].status) || !rounds[0].applied then 0 else 1) + Effective(rounds[1..])
  }

  /** The requests a run gets applied. */
  ghost function AppliedCalls(d: Spec, s: State, rounds: seq<Round>): nat
    decreases |rounds|
  {
    if rounds == [] then 0
    else
      (if Busy(rounds[0].status) || !rounds[0].applied || Agrees(d, s) then 0 else 1)
      + AppliedCalls(d, Step(d, s, rounds[0]), rounds[1..])
  }

  /** With every difference expressible, a run applies exactly as many requests as it has
      effective rounds, up to the measure of what differed, which is at most nine; once it has
      that many the cache is as desired and stays so. */
  lemma {:induction false} RunConverges(d: Spec, s: State, rounds: seq<Round>)
    requires AllExpressible(d, s)
    ensures AppliedCalls(d, s, rounds)
         == if Effective(rounds) <= Measure(d, s) then Effective(rounds) else Measure(d, s)
    ensures Measure(d, Run(d, s, rounds)) == Measure(d, s) - AppliedCalls(d, s, rounds)
    ensures Agrees(d, Run(d, s, rounds)) <==> Effective(rounds) >= Measure(d, s)
    ensures AppliedCalls(d, s, rounds) <= 9
    decreases |rounds|
  {
    RoundDecreases(d, s);
    if rounds != [] {
      RunConverges(d, Step(d, s, rounds[0]), rounds[1..]);
    }
  }

  /** A difference that cannot be expressed never goes away, and no field of lower priority is
      touched while it lasts, which is forever. */
  lemma {:induction false} InexpressibleBlocks(d: Spec, s: State, rounds: seq<Round>, f: Field, g: Field)
    requires Differs(f, d, s) && !Expressible(f, d, s) && Position(f) < Position(g)
    ensures var end := Run(d, s, rounds);
            Differs(f, d, end) && !Expressible(f, d, end) && SameField(g, s, end)
    decreases |rounds|
  {
    if rounds != [] {
      var next := Step(d, s, rounds[0]);
      RoundChangesOnlyTop(d, s, g);
      if Top(d, s) == Some(f) {
        TopField(d, s, f);
      } else {
        RoundChangesOnlyTop(d, s, f);
        SameFieldSameDistance(f, d, s, AfterRound(d, s));
      }
      InexpressibleBlocks(d, next, rounds[1..], f, g);
    }
  }

  lemma {:induction false} InexpressibleStays(d: Spec, s: State, rounds: seq<Round>, f: Field)
    requires Differs(f, d, s) && !Expressible(f, d, s)
    ensures Differs(f, d, Run(d, s, rounds))
    decreases |rounds|
  {
    if rounds != [] {
      if Top(d, s) == Some(f) {
        TopField(d, s, f);
      } else {
        RoundChangesOnlyTop(d, s, f);
        SameFieldSameDistance(f, d, s, AfterRound(d, s));
      }
      InexpressibleStays(d, Step(d, s, rounds[0]), rounds[1..], f);
    }
  }

  /** The run ends in the desired state. */
  ghost predicate Reaches(d: Spec, s: State, rounds: seq<Round>) {
    Agrees(d, Run(d, s, rounds))
  }

  lemma SomeRunAgrees(d: Spec, s: State) returns (rounds: seq<Round>)
    requires AllExpressible(d, s)
    ensures Reaches(d, s, rounds)
  {
    rounds := seq(Measure(d, s), i => Round(Some("available"), true));
    AllEffective(rounds);
    RunConverges(d, s, rounds);
  }

  /** Reconciliation can reach the desired state exactly when every difference is expressible. */
  lemma ConvergesExactlyWhenExpressible(d: Spec, s: State)
    ensures (exists rounds :: Reaches(d, s, rounds)) <==> AllExpressible(d, s)
  {
    if AllExpressible(d, s) {
      var rounds := SomeRunAgrees(d, s);
    } else {
      var f :| Differs(f, d, s) && !Expressible(f, d, s);
      forall rounds
        ensures !Reaches(d, s, rounds)
      {
        InexpressibleStays(d, s, rounds, f);
      }
    }
  }

  lemma {:induction false} AllEffective(rounds: seq<Round>)
    requires forall i :: 0 <= i < |rounds| ==> rounds[i] == Round(Some("available"), true)
    ensures Effective(rounds) == |rounds|
  {
    if rounds != [] {
      AllEffective(rounds[1..]);
    }
  }
}
