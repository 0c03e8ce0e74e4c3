/** Resolution of references to other Kubernetes resources in a replication group's spec, and
    its undoing (`pkg/resource/replication_group/references.go`). */
module References {
  import opened Wrappers

  datatype From = From(name: Option<string>, namespace: Option<string>)

  datatype Reference = Reference(from: Option<From>)

  datatype Kind = CacheParameterGroup | CacheSubnetGroup | KMSKey | Topic | SecurityGroup | Snapshot | UserGroup

  type IdList = Option<seq<Option<string>>>

  /** The seven reference fields of the spec and the fields they resolve into. */
  datatype Spec = Spec(
    cacheParameterGroupRef: Option<Reference>, cacheParameterGroupName: Option<string>,
    cacheSubnetGroupRef: Option<Reference>, cacheSubnetGroupName: Option<string>,
    kmsKeyRef: Option<Reference>, kmsKeyID: Option<string>,
    notificationTopicRef: Option<Reference>, notificationTopicARN: Option<string>,
    securityGroupRefs: seq<Option<Reference>>, securityGroupIDs: IdList,
    snapshotRef: Option<Reference>, snapshotName: Option<string>,
    userGroupRefs: seq<Option<Reference>>, userGroupIDs: IdList)

  // ------------------------------------------------ the referenced resources

  datatype ConditionKind = Terminal | ResourceSynced | Unmanaged

  datatype Condition = Condition(kind: ConditionKind, isTrue: bool)

  /** A referenced resource: its conditions and the field a reference takes from it. */
  datatype Object = Object(conditions: seq<Condition>, target: Option<string>)

  datatype RefError =
    | NameMissing(kind: Kind)
    | NamespaceRefused
    | NotReadable
    | ReferenceTerminal
    | ReferenceNotSynced
    | TargetMissing
    | ReferenceAndIDGiven(kind: Kind)

  /** Finding a resource by kind, name and optional namespace. */
  type Lookup = (Kind, string, Option<string>) -> Result<Object, RefError>

  predicate Usable(o: Object) {
    && (forall i :: 0 <= i < |o.conditions| ==> !(o.conditions[i].kind == Terminal && o.conditions[i].isTrue))
    && (exists i :: 0 <= i < |o.conditions| && o.conditions[i].kind == ResourceSynced && o.conditions[i].isTrue)
    && o.target.Some?
  }

  function CheckFailure(o: Object): Option<RefError> {
    if exists i :: 0 <= i < |o.conditions| && o.conditions[i].kind == Terminal && o.conditions[i].isTrue
    then Some(ReferenceTerminal)
    else if !exists i :: 0 <= i < |o.conditions| && o.conditions[i].kind == ResourceSynced && o.conditions[i].isTrue
    then Some(ReferenceNotSynced)
    else if o.target == None then Some(TargetMissing) else None
  }

  /** A referenced resource is accepted exactly when it is synced, not terminal, and has the
      field that is asked of it; what is reported is the first of these that fails. */
  method CheckReferenced(o: Object) returns (err: Option<RefError>)
    ensures err == None <==> Usable(o)
    ensures err == CheckFailure(o)
  {
    for i := 0 to |o.conditions|
      invariant forall k :: 0 <= k < i ==> !(o.conditions[k].kind == Terminal && o.conditions[k].isTrue)
    {
      if o.conditions[i].kind == Terminal && o.conditions[i].isTrue {
        return Some(ReferenceTerminal);
      }
    }
    var synced := false;
    for i := 0 to |o.conditions|
      invariant synced <==> exists k :: 0 <= k < i && o.conditions[k].kind == ResourceSynced && o.conditions[k].isTrue
    {
      if o.conditions[i].kind == ResourceSynced && o.conditions[i].isTrue {
        synced := true;
      }
    }
    if !synced {
      return Some(ReferenceNotSynced);
    }
    return if o.target == None then Some(TargetMissing) else None;
  }

  predicate Given(r: Option<Reference>) {
    r.Some? && r.value.from.Some?
  }

  /** The value a reference stands for, if it can be used. */
  function Target(kind: Kind, r: Option<Reference>, lookup: Lookup): Option<string>
    requires Given(r)
  {
    var f := r.value.from.value;
    if f.name == None || f.name == Some("") then None
    else
      var found := lookup(kind, f.name.value, f.namespace);
      if found.Ok? && Usable(found.value) then found.value.target else None
  }

  /** Why it cannot be used. */
  function Failure(kind: Kind, r: Option<Reference>, lookup: Lookup): Option<RefError>
    requires Given(r)
  {
    var f := r.value.from.value;
    if f.name == None || f.name == Some("") then Some(NameMissing(kind))
    else
      var found := lookup(kind, f.name.value, f.namespace);
      if found.Err? then Some(found.error) else CheckFailure(found.value)
  }

  function FieldFailure(kind: Kind, r: Option<Reference>, lookup: Lookup): Option<RefError> {
    if Given(r) then Failure(kind, r, lookup) else None
  }

  /** The failure of the first reference of a list that cannot be used. */
  function ListFailure(kind: Kind, refs: seq<Option<Reference>>, lookup: Lookup): Option<RefError> {
    if refs == [] then None
    else
      var front := ListFailure(kind, refs[..|refs| - 1], lookup);
      if front.Some? then front else FieldFailure(kind, refs[|refs| - 1], lookup)
  }

  /** The targets of the references before it. */
  function ListTargets(kind: Kind, refs: seq<Option<Reference>>, lookup: Lookup): seq<Option<string>> {
    if refs == [] then []
    else
      var n := |refs| - 1;
      var front := ListTargets(kind, refs[..n], lookup);
      if ListFailure(kind, refs, lookup).Some? || !Given(refs[n]) then front
      else front + [Target(kind, refs[n], lookup)]
  }

  // ------------------------------------------------ resolving

  method ResolveOne(kind: Kind, r: Option<Reference>, lookup: Lookup)
    returns (value: Option<string>, err: Option<RefError>)
    requires Given(r)
    ensures value == Target(kind, r, lookup)
    ensures err == None <==> value.Some?
    ensures err == Failure(kind, r, lookup)
  {
    var from := r.value.from.value;
    if from.name == None || from.name.value == "" {
      return None, Some(NameMissing(kind));
    }
    var found := lookup(kind, from.name.value, from.namespace);
    if found.Err? {
      return None, Some(found.error);
    }
    err := CheckReferenced(found.value);
    value := if err == None then found.value.target else None;
  }

  function GivenRefs(refs: seq<Option<Reference>>): (g: seq<Option<Reference>>)
    ensures forall i :: 0 <= i < |g| ==> Given(g[i])
  {
    if refs == [] then []
    else GivenRefs(refs[..|refs| - 1]) + (if Given(refs[|refs| - 1]) then [refs[|refs| - 1]] else [])
  }

  function Ids(ids: IdList): seq<Option<string>> {
    ids.GetOr([])
  }

  predicate FieldResolved(kind: Kind, r: Option<Reference>, before: Option<string>, after: Option<string>,
                          lookup: Lookup)
  {
    if Given(r) then after.Some? && after == Target(kind, r, lookup) else after == before
  }

  /** The ids gained are the targets of the given references, in order. */
  predicate ListResolved(kind: Kind, refs: seq<Option<Reference>>, before: IdList, after: IdList, lookup: Lookup) {
    var given := GivenRefs(refs);
    && |Ids(after)| == |Ids(before)| + |given| && Ids(before) <= Ids(after)
    && forall i :: 0 <= i < |given| ==>
         Target(kind, given[i], lookup).Some? && Ids(after)[|Ids(before)| + i] == Target(kind, given[i], lookup)
  }

  predicate FieldUsable(kind: Kind, r: Option<Reference>, lookup: Lookup) {
    Given(r) ==> Target(kind, r, lookup).Some?
  }

  predicate ListUsable(kind: Kind, refs: seq<Option<Reference>>, lookup: Lookup) {
    forall i :: 0 <= i < |GivenRefs(refs)| ==> Target(kind, GivenRefs(refs)[i], lookup).Some?
  }

  /** A single reference that is given replaces the field by its target. */
  method ResolveField(kind: Kind, r: Option<Reference>, current: Option<string>, lookup: Lookup)
    returns (value: Option<string>, has: bool, err: Option<RefError>)
    ensures has <==> Given(r)
    ensures !Given(r) ==> value == current && err == None
    ensures err == None <==> FieldUsable(kind, r, lookup)
    ensures err == FieldFailure(kind, r, lookup)
    ensures err == None ==> FieldResolved(kind, r, current, value, lookup)
    ensures err.Some? ==> value == current
  {
    value, has, err := current, false, None;
    if r.Some? && r.value.from.Some? {
      has := true;
      var target;
      target, err := ResolveOne(kind, r, lookup);
      if err == None {
        value := target;
      }
    }
  }

  /** The outcome of resolving a list: an error exactly when some given reference cannot be used, and
      then that of the first; the targets before it appended, all of them if there is none. */
  ghost predicate ListOutcome(kind: Kind, refs: seq<Option<Reference>>, current: IdList, ids: IdList, has: bool,
                              err: Option<RefError>, lookup: Lookup)
  {
    && (has <==> GivenRefs(refs) != [])
    && (!has ==> ids == current && err == None)
    && (err == None <==> ListUsable(kind, refs, lookup))
    && err == ListFailure(kind, refs, lookup)
    && Ids(ids) == Ids(current) + ListTargets(kind, refs, lookup)
    && (err == None ==> ListResolved(kind, refs, current, ids, lookup))
  }

  /** A list of references appends the targets of those given, in order, to the id list; it
      stops at the first that cannot be used, keeping what was appended. */
  method ResolveList(kind: Kind, refs: seq<Option<Reference>>, current: IdList, lookup: Lookup)
    returns (ids: IdList, has: bool, err: Option<RefError>)
    ensures ListOutcome(kind, refs, current, ids, has, err, lookup)
  {
    ids, has, err := current, false, None;
    for i := 0 to |refs|
      invariant err == None && ListSoFar(kind, refs[..i], current, ids, has, lookup)
    {
      if refs[i].Some? && refs[i].value.from.Some? {
        var target;
        target, err := ResolveOne(kind, refs[i], lookup);
        if err.Some? {
          ListFailsAt(kind, refs, i, current, ids, has, lookup);
          has := true;
          return;
        }
        ListResolvesAt(kind, refs, i, current, ids, has, lookup);
        has := true;
        ids := Some(Ids(ids) + [target]);
      } else {
        ListSkips(kind, refs, i, current, ids, has, lookup);
      }
    }
    assert refs[..|refs|] == refs;
    ListIsDone(kind, refs, current, ids, has, lookup);
  }

  /** All given references of the list were resolved, and their targets appended. */
  ghost predicate ListSoFar(kind: Kind, refs: seq<Option<Reference>>, current: IdList, ids: IdList, has: bool,
                            lookup: Lookup)
  {
    && (has <==> GivenRefs(refs) != []) && (!has ==> ids == current)
    && ListFailure(kind, refs, lookup) == None
    && Ids(ids) == Ids(current) + ListTargets(kind, refs, lookup)
  }

  lemma ListSkips(kind: Kind, refs: seq<Option<Reference>>, i: nat, current: IdList, ids: IdList, has: bool,
                  lookup: Lookup)
    requires i < |refs| && !Given(refs[i]) && ListSoFar(kind, refs[..i], current, ids, has, lookup)
    ensures ListSoFar(kind, refs[..i + 1], current, ids, has, lookup)
  {
    assert refs[..i + 1][..i] == refs[..i];
  }

  lemma ListResolvesAt(kind: Kind, refs: seq<Option<Reference>>, i: nat, current: IdList, ids: IdList, has: bool,
                       lookup: Lookup)
    requires i < |refs| && Given(refs[i]) && Failure(kind, refs[i], lookup) == None
    requires ListSoFar(kind, refs[..i], current, ids, has, lookup)
    ensures ListSoFar(kind, refs[..i + 1], current, Some(Ids(ids) + [Target(kind, refs[i], lookup)]), true, lookup)
  {
    assert refs[..i + 1][..i] == refs[..i];
    assert ListFailure(kind, refs[..i + 1], lookup) == None;
  }

  lemma ListFailsAt(kind: Kind, refs: seq<Option<Reference>>, i: nat, current: IdList, ids: IdList, has: bool,
                    lookup: Lookup)
    requires i < |refs| && Given(refs[i]) && Failure(kind, refs[i], lookup).Some?
    requires ListSoFar(kind, refs[..i], current, ids, has, lookup)
    ensures ListOutcome(kind, refs, current, ids, true, Failure(kind, refs[i], lookup), lookup)
  {
    assert refs[..i + 1][..i] == refs[..i];
    GivenRefAt(refs, i);
    FailureStays(kind, refs, i + 1, lookup);
    ListFailureMeaning(kind, refs, lookup);
  }

  lemma ListIsDone(kind: Kind, refs: seq<Option<Reference>>, current: IdList, ids: IdList, has: bool, lookup: Lookup)
    requires ListSoFar(kind, refs, current, ids, has, lookup)
    ensures ListOutcome(kind, refs, current, ids, has, None, lookup)
  {
    ListFailureMeaning(kind, refs, lookup);
    ListTargetsMeaning(kind, refs, lookup);
  }

  lemma FailureMeaning(kind: Kind, r: Option<Reference>, lookup: Lookup)
    requires Given(r)
    ensures Failure(kind, r, lookup) == None <==> Target(kind, r, lookup).Some?
  {
  }

  lemma {:induction false} ListFailureMeaning(kind: Kind, refs: seq<Option<Reference>>, lookup: Lookup)
    ensures ListFailure(kind, refs, lookup) == None <==> ListUsable(kind, refs, lookup)
  {
    if refs != [] {
      var n := |refs| - 1;
      var front, given := GivenRefs(refs[..n]), GivenRefs(refs);
      ListFailureMeaning(kind, refs[..n], lookup);
      assert forall i :: 0 <= i < |front| ==> given[i] == front[i];
      if Given(refs[n]) {
        FailureMeaning(kind, refs[n], lookup);
        assert given[|front|] == refs[n];
      }
    }
  }

  lemma {:induction false} ListTargetsMeaning(kind: Kind, refs: seq<Option<Reference>>, lookup: Lookup)
    requires ListFailure(kind, refs, lookup) == None
    ensures |ListTargets(kind, refs, lookup)| == |GivenRefs(refs)|
    ensures forall i :: 0 <= i < |GivenRefs(refs)| ==>
              ListTargets(kind, refs, lookup)[i] == Target(kind, GivenRefs(refs)[i], lookup)
  {
    if refs != [] {
      ListTargetsMeaning(kind, refs[..|refs| - 1], lookup);
    }
  }

  lemma {:induction false} GivenRefAt(refs: seq<Option<Reference>>, i: nat)
    requires i < |refs| && Given(refs[i])
    ensures |GivenRefs(refs[..i])| < |GivenRefs(refs)| && GivenRefs(refs)[|GivenRefs(refs[..i])|] == refs[i]
  {
    var n := |refs| - 1;
    if i < n {
      GivenRefAt(refs[..n], i);
      assert refs[..n][..i] == refs[..i];
    }
  }

  /** A resolved list holds the target of each given reference after those of the references before
      it. */
  lemma ResolvedInOrder(kind: Kind, refs: seq<Option<Reference>>, before: IdList, after: IdList, lookup: Lookup, i: nat)
    requires ListResolved(kind, refs, before, after, lookup) && i < |refs| && Given(refs[i])
    ensures var p := |Ids(before)| + |GivenRefs(refs[..i])|;
            p < |Ids(after)| && Ids(after)[p] == Target(kind, refs[i], lookup)
  {
    GivenRefAt(refs, i);
    var k := |GivenRefs(refs[..i])|;
    assert Target(kind, GivenRefs(refs)[k], lookup).Some?;
  }

  /** Nothing after a failure counts. */
  lemma {:induction false} FailureStays(kind: Kind, refs: seq<Option<Reference>>, i: nat, lookup: Lookup)
    requires i <= |refs| && ListFailure(kind, refs[..i], lookup).Some?
    ensures ListFailure(kind, refs, lookup) == ListFailure(kind, refs[..i], lookup)
    ensures ListTargets(kind, refs, lookup) == ListTargets(kind, refs[..i], lookup)
  {
    if i == |refs| {
      assert refs[..i] == refs;
    } else {
      var n := |refs| - 1;
      assert refs[..n][..i] == refs[..i];
      FailureStays(kind, refs[..n], i, lookup);
    }
  }

  /** The first field given both as a reference and as a value. */
  function ValidateReferenceFields(s: Spec): Option<RefError> {
    if s.cacheParameterGroupRef.Some? && s.cacheParameterGroupName.Some?
    then Some(ReferenceAndIDGiven(CacheParameterGroup))
    else if s.cacheSubnetGroupRef.Some? && s.cacheSubnetGroupName.Some? then Some(ReferenceAndIDGiven(CacheSubnetGroup))
    else if s.kmsKeyRef.Some? && s.kmsKeyID.Some? then Some(ReferenceAndIDGiven(KMSKey))
    else if s.notificationTopicRef.Some? && s.notificationTopicARN.Some? then Some(ReferenceAndIDGiven(Topic))
    else if |s.securityGroupRefs| > 0 && |Ids(s.securityGroupIDs)| > 0 then Some(ReferenceAndIDGiven(SecurityGroup))
    else if s.snapshotRef.Some? && s.snapshotName.Some? then Some(ReferenceAndIDGiven(Snapshot))
    else if |s.userGroupRefs| > 0 && |Ids(s.userGroupIDs)| > 0 then Some(ReferenceAndIDGiven(UserGroup))
    else None
  }

  class ReplicationGroup {
    var spec: Spec

    constructor (spec: Spec)
      ensures this.spec == spec
    {
      this.spec := spec;
    }
  }

  /** Whether some reference is given at all. */
  predicate HasReferences(s: Spec) {
    Given(s.cacheParameterGroupRef) || Given(s.cacheSubnetGroupRef) || Given(s.kmsKeyRef)
    || Given(s.notificationTopicRef) || GivenRefs(s.securityGroupRefs) != [] || Given(s.snapshotRef)
    || GivenRefs(s.userGroupRefs) != []
  }

  predicate NamesResolved(s: Spec, t: Spec, lookup: Lookup) {
    && FieldResolved(CacheParameterGroup, s.cacheParameterGroupRef, s.cacheParameterGroupName,
                     t.cacheParameterGroupName, lookup)
    && FieldResolved(CacheSubnetGroup, s.cacheSubnetGroupRef, s.cacheSubnetGroupName, t.cacheSubnetGroupName, lookup)
    && FieldResolved(KMSKey, s.kmsKeyRef, s.kmsKeyID, t.kmsKeyID, lookup)
    && FieldResolved(Topic, s.notificationTopicRef, s.notificationTopicARN, t.notificationTopicARN, lookup)
  }

  predicate AllResolved(s: Spec, t: Spec, lookup: Lookup) {
    && NamesResolved(s, t, lookup)
    && ListResolved(SecurityGroup, s.securityGroupRefs, s.securityGroupIDs, t.securityGroupIDs, lookup)
    && FieldResolved(Snapshot, s.snapshotRef, s.snapshotName, t.snapshotName, lookup)
    && ListResolved(UserGroup, s.userGroupRefs, s.userGroupIDs, t.userGroupIDs, lookup)
  }

  /** Every given reference can be used. */
  predicate AllUsable(s: Spec, lookup: Lookup) {
    && FieldUsable(CacheParameterGroup, s.cacheParameterGroupRef, lookup)
    && FieldUsable(CacheSubnetGroup, s.cacheSubnetGroupRef, lookup)
    && FieldUsable(KMSKey, s.kmsKeyRef, lookup)
    && FieldUsable(Topic, s.notificationTopicRef, lookup)
    && ListUsable(SecurityGroup, s.securityGroupRefs, lookup)
    && FieldUsable(Snapshot, s.snapshotRef, lookup)
    && ListUsable(UserGroup, s.userGroupRefs, lookup)
  }

  /** `t` may differ from `s` only in fields for which `s` gives a reference. */
  predicate OnlyReferencedChange(s: Spec, t: Spec) {
    && t == s.(cacheParameterGroupName := t.cacheParameterGroupName, cacheSubnetGroupName := t.cacheSubnetGroupName,
               kmsKeyID := t.kmsKeyID, notificationTopicARN := t.notificationTopicARN,
               securityGroupIDs := t.securityGroupIDs, snapshotName := t.snapshotName, userGroupIDs := t.userGroupIDs)
    && (s.cacheParameterGroupRef == None ==> t.cacheParameterGroupName == s.cacheParameterGroupName)
    && (s.cacheSubnetGroupRef == None ==> t.cacheSubnetGroupName == s.cacheSubnetGroupName)
    && (s.kmsKeyRef == None ==> t.kmsKeyID == s.kmsKeyID)
    && (s.notificationTopicRef == None ==> t.notificationTopicARN == s.notificationTopicARN)
    && (s.securityGroupRefs == [] ==> t.securityGroupIDs == s.securityGroupIDs)
    && (s.snapshotRef == None ==> t.snapshotName == s.snapshotName)
    && (s.userGroupRefs == [] ==> t.userGroupIDs == s.userGroupIDs)
  }

  /** The failure of the first of the four. */
  function NamesFailure(s: Spec, lookup: Lookup): Option<RefError> {
    var a := FieldFailure(CacheParameterGroup, s.cacheParameterGroupRef, lookup);
    var b := FieldFailure(CacheSubnetGroup, s.cacheSubnetGroupRef, lookup);
    var c := FieldFailure(KMSKey, s.kmsKeyRef, lookup);
    if a.Some? then a else if b.Some? then b else if c.Some? then c
    else FieldFailure(Topic, s.notificationTopicRef, lookup)
  }

  /** The failure of the first reference that cannot be used, or else of the validation. */
  function FirstFailure(s: Spec, lookup: Lookup): Option<RefError> {
    var names := NamesFailure(s, lookup);
    var groups := ListFailure(SecurityGroup, s.securityGroupRefs, lookup);
    var snapshot := FieldFailure(Snapshot, s.snapshotRef, lookup);
    var users := ListFailure(UserGroup, s.userGroupRefs, lookup);
    if names.Some? then names else if groups.Some? then groups else if snapshot.Some? then snapshot
    else if users.Some? then users else ValidateReferenceFields(s)
  }

  predicate ResolvedOrKept(kind: Kind, r: Option<Reference>, before: Option<string>, after: Option<string>,
                           lookup: Lookup)
  {
    after == before || FieldResolved(kind, r, before, after, lookup)
  }

  predicate NamesResolvedOrKept(s: Spec, t: Spec, lookup: Lookup) {
    && ResolvedOrKept(CacheParameterGroup, s.cacheParameterGroupRef, s.cacheParameterGroupName,
                      t.cacheParameterGroupName, lookup)
    && ResolvedOrKept(CacheSubnetGroup, s.cacheSubnetGroupRef, s.cacheSubnetGroupName, t.cacheSubnetGroupName, lookup)
    && ResolvedOrKept(KMSKey, s.kmsKeyRef, s.kmsKeyID, t.kmsKeyID, lookup)
    && ResolvedOrKept(Topic, s.notificationTopicRef, s.notificationTopicARN, t.notificationTopicARN, lookup)
  }

  /** Each field is as it was or resolved; a list gained the targets before its first failure, or
      nothing. */
  predicate EachResolvedOrKept(s: Spec, t: Spec, lookup: Lookup) {
    && NamesResolvedOrKept(s, t, lookup)
    && ResolvedOrKept(Snapshot, s.snapshotRef, s.snapshotName, t.snapshotName, lookup)
    && (|| t.securityGroupIDs == s.securityGroupIDs
        || Ids(t.securityGroupIDs) == Ids(s.securityGroupIDs) + ListTargets(SecurityGroup, s.securityGroupRefs, lookup))
    && (|| t.userGroupIDs == s.userGroupIDs
        || Ids(t.userGroupIDs) == Ids(s.userGroupIDs) + ListTargets(UserGroup, s.userGroupRefs, lookup))
  }

  /** The first four references, each into its own field; stops at the first that fails. */
  method ResolveNames(ko: ReplicationGroup, lookup: Lookup) returns (hasReferences: bool, failed: Option<RefError>)
    modifies ko
    ensures var s, t := old(ko.spec), ko.spec;
            && OnlyReferencedChange(s, t)
            && t.securityGroupIDs == s.securityGroupIDs && t.snapshotName == s.snapshotName
            && t.userGroupIDs == s.userGroupIDs
            && (failed == None <==>
                  && FieldUsable(CacheParameterGroup, s.cacheParameterGroupRef, lookup)
                  && FieldUsable(CacheSubnetGroup, s.cacheSubnetGroupRef, lookup)
                  && FieldUsable(KMSKey, s.kmsKeyRef, lookup)
                  && FieldUsable(Topic, s.notificationTopicRef, lookup))
            && (failed == None ==> NamesResolved(s, t, lookup))
            && (failed == None ==>
                  (hasReferences <==> Given(s.cacheParameterGroupRef) || Given(s.cacheSubnetGroupRef)
                                      || Given(s.kmsKeyRef) || Given(s.notificationTopicRef)))
            && (failed.Some? ==> hasReferences && HasReferences(s))
            && failed == NamesFailure(s, lookup)
            && NamesResolvedOrKept(s, t, lookup)
  {
    var has, value;
    hasReferences := false;

    value, has, failed :=
      ResolveField(CacheParameterGroup, ko.spec.cacheParameterGroupRef, ko.spec.cacheParameterGroupName, lookup);
    ko.spec := ko.spec.(cacheParameterGroupName := value);
    hasReferences := hasReferences || has;
    if failed.Some? {
      return hasReferences, failed;
    }
    value, has, failed :=
      ResolveField(CacheSubnetGroup, ko.spec.cacheSubnetGroupRef, ko.spec.cacheSubnetGroupName, lookup);
    ko.spec := ko.spec.(cacheSubnetGroupName := value);
    hasReferences := hasReferences || has;
    if failed.Some? {
      return hasReferences, failed;
    }
    value, has, failed := ResolveField(KMSKey, ko.spec.kmsKeyRef, ko.spec.kmsKeyID, lookup);
    ko.spec := ko.spec.(kmsKeyID := value);
    hasReferences := hasReferences || has;
    if failed.Some? {
      return hasReferences, failed;
    }
    value, has, failed := ResolveField(Topic, ko.spec.notificationTopicRef, ko.spec.notificationTopicARN, lookup);
    ko.spec := ko.spec.(notificationTopicARN := value);
    hasReferences := hasReferences || has;
    if failed.Some? {
      return hasReferences, failed;
    }
  }

  /** Resolves the fields one by one, in place on the given object, and stops at the first that
      fails. A failed validation does not stop it: that error is only returned at the end. */
  method ResolveReferences(ko: ReplicationGroup, lookup: Lookup) returns (hasReferences: bool, err: Option<RefError>)
    modifies ko
    ensures OnlyReferencedChange(old(ko.spec), ko.spec)
    ensures err == None <==> ValidateReferenceFields(old(ko.spec)) == None && AllUsable(old(ko.spec), lookup)
    ensures AllUsable(old(ko.spec), lookup) ==>
              && err == ValidateReferenceFields(old(ko.spec))
              && AllResolved(old(ko.spec), ko.spec, lookup)
              && (hasReferences <==> HasReferences(old(ko.spec)))
    ensures !AllUsable(old(ko.spec), lookup) ==> hasReferences && HasReferences(old(ko.spec))
    ensures err == FirstFailure(old(ko.spec), lookup) && EachResolvedOrKept(old(ko.spec), ko.spec, lookup)
  {
    var invalid := ValidateReferenceFields(ko.spec);
    var has, failed, value, ids;
    hasReferences, failed := ResolveNames(ko, lookup);
    if failed.Some? {
      return hasReferences, failed;
    }
    ids, has, failed := ResolveList(SecurityGroup, ko.spec.securityGroupRefs, ko.spec.securityGroupIDs, lookup);
    ko.spec := ko.spec.(securityGroupIDs := ids);
    hasReferences := hasReferences || has;
    if failed.Some? {
      return hasReferences, failed;
    }
    value, has, failed := ResolveField(Snapshot, ko.spec.snapshotRef, ko.spec.snapshotName, lookup);
    ko.spec := ko.spec.(snapshotName := value);
    hasReferences := hasReferences || has;
    if failed.Some? {
      return hasReferences, failed;
    }
    ids, has, failed := ResolveList(UserGroup, ko.spec.userGroupRefs, ko.spec.userGroupIDs, lookup);
    ko.spec := ko.spec.(userGroupIDs := ids);
    hasReferences := hasReferences || has;
    if failed.Some? {
      return hasReferences, failed;
    }
    return hasReferences, invalid;
  }

  // ------------------------------------------------ clearing

  function Cleared(s: Spec): Spec {
    s.(cacheParameterGroupName := if s.cacheParameterGroupRef.Some? then None else s.cacheParameterGroupName,
       cacheSubnetGroupName := if s.cacheSubnetGroupRef.Some? then None else s.cacheSubnetGroupName,
       kmsKeyID := if s.kmsKeyRef.Some? then None else s.kmsKeyID,
       notificationTopicARN := if s.notificationTopicRef.Some? then None else s.notificationTopicARN,
       securityGroupIDs := if |s.securityGroupRefs| > 0 then None else s.securityGroupIDs,
       snapshotName := if s.snapshotRef.Some? then None else s.snapshotName,
       userGroupIDs := if |s.userGroupRefs| > 0 then None else s.userGroupIDs)
  }

  /** Works on a copy: the given object is not in the frame. */
  method ClearResolvedReferences(res: ReplicationGroup) returns (ko: ReplicationGroup)
    ensures fresh(ko) && ko.spec == Cleared(res.spec)
  {
    ko := new ReplicationGroup(res.spec);
    if ko.spec.cacheParameterGroupRef.Some? {
      ko.spec := ko.spec.(cacheParameterGroupName := None);
    }
    if ko.spec.cacheSubnetGroupRef.Some? {
      ko.spec := ko.spec.(cacheSubnetGroupName := None);
    }
    if ko.spec.kmsKeyRef.Some? {
      ko.spec := ko.spec.(kmsKeyID := None);
    }
    if ko.spec.notificationTopicRef.Some? {
      ko.spec := ko.spec.(notificationTopicARN := None);
    }
    if |ko.spec.securityGroupRefs| > 0 {
      ko.spec := ko.spec.(securityGroupIDs := None);
    }
    if ko.spec.snapshotRef.Some? {
      ko.spec := ko.spec.(snapshotName := None);
    }
    if |ko.spec.userGroupRefs| > 0 {
      ko.spec := ko.spec.(userGroupIDs := None);
    }
  }

  /** Specs that differ only in writing an absent id list as nil or as empty. */
  predicate SameSpec(s: Spec, t: Spec) {
    && Ids(s.securityGroupIDs) == Ids(t.securityGroupIDs)
    && Ids(s.userGroupIDs) == Ids(t.userGroupIDs)
    && s.(securityGroupIDs := None, userGroupIDs := None) == t.(securityGroupIDs := None, userGroupIDs := None)
  }

  /** Clearing gives back the spec that resolution started from, whether or not it succeeded,
      exactly when the spec passes validation. Otherwise a value the user gave is lost. */
  lemma ClearingUndoesResolving(s: Spec, t: Spec)
    requires OnlyReferencedChange(s, t)
    ensures Cleared(t) == Cleared(s)
    ensures SameSpec(Cleared(t), s) <==> ValidateReferenceFields(s) == None
  {
  }

  /** Resolving, clearing and resolving again. Whatever the first resolution did, clearing gives
      back the user's spec exactly when that spec is valid; and if the first succeeded, so does
      the second, with the same result. */
  method ResolveClearResolve(ko: ReplicationGroup, lookup: Lookup)
    returns (cleared: ReplicationGroup, ghost user: Spec, first: Option<RefError>, second: Option<RefError>)
    modifies ko
    ensures fresh(cleared)
    ensures user == Cleared(ko.spec)
    ensures SameSpec(user, old(ko.spec)) <==> ValidateReferenceFields(old(ko.spec)) == None
    ensures first == None ==>
              && AllResolved(old(ko.spec), ko.spec, lookup)
              && second == None && SameSpec(cleared.spec, ko.spec)
  {
    ghost var s := ko.spec;
    var has;
    has, first := ResolveReferences(ko, lookup);
    ClearingUndoesResolving(s, ko.spec);
    cleared := ClearResolvedReferences(ko);
    user := cleared.spec;
    has, second := ResolveReferences(cleared, lookup);
    if first == None {
      SameListsResolved(SecurityGroup, s.securityGroupRefs, s.securityGroupIDs, ko.spec.securityGroupIDs,
                        user.securityGroupIDs, cleared.spec.securityGroupIDs, lookup);
      SameListsResolved(UserGroup, s.userGroupRefs, s.userGroupIDs, ko.spec.userGroupIDs,
                        user.userGroupIDs, cleared.spec.userGroupIDs, lookup);
    }
  }

  lemma SameListsResolved(kind: Kind, refs: seq<Option<Reference>>, a: IdList, b: IdList, c: IdList, d: IdList,
                          lookup: Lookup)
    requires Ids(a) == Ids(c)
    requires ListResolved(kind, refs, a, b, lookup) && ListResolved(kind, refs, c, d, lookup)
    ensures Ids(b) == Ids(d)
  {
    forall i | 0 <= i < |Ids(b)|
      ensures Ids(b)[i] == Ids(d)[i]
    {
      if i >= |Ids(a)| {
        var k := i - |Ids(a)|;
        var given := GivenRefs(refs);
        assert Ids(b)[|Ids(a)| + k] == Target(kind, given[k], lookup);
        assert Ids(d)[|Ids(c)| + k] == Target(kind, given[k], lookup);
      }
    }
  }
}
