/** The status conditions of a resource and how each outcome of an operation changes them
    (`updateConditions` in `pkg/resource/cache_cluster/sdk.go`, `onError` and `onSuccess` in
    `pkg/resource/cache_cluster/manager.go`). */
module Conditions {
  import opened Wrappers

  datatype ConditionType = Terminal | Recoverable | ResourceSynced | Unmanaged(name: string)

  datatype ConditionStatus = IsTrue | IsFalse | IsUnknown

  /** The value of one condition. */
  datatype Cond = Cond(kind: ConditionType, status: ConditionStatus, message: Option<string>)

  datatype Failure =
    | ApiError(code: string, text: string)
    | SecretTypeNotSupported(text: string)
    | SecretNotFound(text: string)
    | TerminalError(text: string)
    | OtherError(text: string)

  const TERMINAL_CODES: set<string> := {
    "ReplicationGroupNotFoundFault",
    "InvalidReplicationGroupStateFault",
    "CacheClusterAlreadyExistsFault",
    "InsufficientCacheClusterCapacityFault",
    "CacheSecurityGroupNotFoundFault",
    "CacheSubnetGroupNotFoundFault",
    "ClusterQuotaForCustomerExceededFault",
    "NodeQuotaForClusterExceededFault",
    "NodeQuotaForCustomerExceededFault",
    "CacheParameterGroupNotFoundFault",
    "InvalidVPCNetworkStateFault",
    "TagQuotaPerResource",
    "InvalidParameterValue",
    "InvalidParameterCombination"
  }

  predicate TerminalAWSError(err: Option<Failure>) {
    err.Some? && err.value.ApiError? && err.value.code in TERMINAL_CODES
  }

  /** Whether an outcome ends reconciliation until the user changes something. */
  predicate IsTerminalOutcome(err: Option<Failure>) {
    TerminalAWSError(err)
    || (err.Some? && (err.value.SecretTypeNotSupported? || err.value.SecretNotFound? || err.value.TerminalError?))
  }

  /** Which outcomes are terminal: an API error by its code, the two errors about secrets and an error
      marked terminal always; any other error, and success, never. */
  lemma TerminalKinds(err: Option<Failure>)
    ensures match err
            case None => !IsTerminalOutcome(err)
            case Some(ApiError(code, _)) => IsTerminalOutcome(err) <==> code in TERMINAL_CODES
            case Some(OtherError(_)) => !IsTerminalOutcome(err)
            case Some(_) => IsTerminalOutcome(err)
  {
  }

  // ------------------------------------------------ the change, on values

  function CountKind(cs: seq<Cond>, kind: ConditionType): nat {
    if cs == [] then 0
    else CountKind(cs[..|cs| - 1], kind) + (if cs[|cs| - 1].kind == kind then 1 else 0)
  }

  /** The position of the last condition of a type. */
  function LastOf(cs: seq<Cond>, kind: ConditionType): (r: Option<nat>)
    ensures r.Some? ==> r.value < |cs| && cs[r.value].kind == kind
                        && forall i :: r.value < i < |cs| ==> cs[i].kind != kind
    ensures r == None ==> forall i :: 0 <= i < |cs| ==> cs[i].kind != kind
  {
    if cs == [] then None
    else if cs[|cs| - 1].kind == kind then Some(|cs| - 1)
    else LastOf(cs[..|cs| - 1], kind)
  }

  /** Sets the last condition of the type, adding one at the end if there is none. */
  function Raised(cs: seq<Cond>, kind: ConditionType, text: string): seq<Cond> {
    var c := Cond(kind, IsTrue, Some(text));
    if LastOf(cs, kind).Some? then cs[LastOf(cs, kind).value := c] else cs + [c]
  }

  function Cleared(cs: seq<Cond>, kind: ConditionType): seq<Cond> {
    if LastOf(cs, kind).Some? then cs[LastOf(cs, kind).value := Cond(kind, IsFalse, None)] else cs
  }

  function Updated(cs: seq<Cond>, err: Option<Failure>): seq<Cond> {
    if IsTerminalOutcome(err) then Raised(cs, Terminal, err.value.text)
    else
      var cleared := Cleared(cs, Terminal);
      if err.Some? then Raised(cleared, Recoverable, err.value.text) else Cleared(cleared, Recoverable)
  }

  predicate HasManaged(cs: seq<Cond>) {
    LastOf(cs, Terminal).Some? || LastOf(cs, Recoverable).Some? || LastOf(cs, ResourceSynced).Some?
  }

  // ------------------------------------------------ the change, in place on a copy

  class Condition {
    const kind: ConditionType
    var status: ConditionStatus
    var message: Option<string>

    constructor (kind: ConditionType, status: ConditionStatus, message: Option<string>)
      ensures this.kind == kind && this.status == status && this.message == message
    {
      this.kind := kind;
      this.status := status;
      this.message := message;
    }

    function Value(): Cond
      reads this
    {
      Cond(kind, status, message)
    }
  }

  class Resource {
    var conditions: seq<Condition>

    constructor (conditions: seq<Condition>)
      ensures this.conditions == conditions
    {
      this.conditions := conditions;
    }

    ghost function Values(): (vs: seq<Cond>)
      reads this, conditions
      ensures |vs| == |conditions|
      ensures forall i :: 0 <= i < |vs| ==> vs[i] == conditions[i].Value()
    {
      seq(|conditions|, i requires 0 <= i < |conditions| reads this, conditions => conditions[i].Value())
    }

    method DeepCopy() returns (r: Resource)
      ensures fresh(r) && r.Values() == Values()
      ensures forall i :: 0 <= i < |r.conditions| ==> fresh(r.conditions[i])
      ensures forall i, j :: 0 <= i < j < |r.conditions| ==> r.conditions[i] != r.conditions[j]
    {
      var copies: seq<Condition> := [];
      for i := 0 to |conditions|
        invariant |copies| == i
        invariant forall k :: 0 <= k < i ==> fresh(copies[k]) && copies[k].Value() == conditions[k].Value()
        invariant forall k, l :: 0 <= k < l < i ==> copies[k] != copies[l]
      {
        var c := new Condition(conditions[i].kind, conditions[i].status, conditions[i].message);
        copies := copies + [c];
      }
      r := new Resource(copies);
    }
  }

  /** Scans a copy for the managed conditions (the last of each type wins), changes them
      through the pointers found, and appends those that are missing. The result is `None`
      when the resource has no managed condition. The input is not in the frame: nothing
      reachable from it changes. */
  method UpdateConditions(r: Resource, err: Option<Failure>) returns (updated: Resource?)
    ensures updated != null <==> HasManaged(Updated(r.Values(), err))
    ensures updated == null <==>
              && err == None
              && forall i :: 0 <= i < |r.Values()| ==>
                   r.Values()[i].kind !in {Terminal, Recoverable, ResourceSynced}
    ensures updated != null ==> fresh(updated) && updated.Values() == Updated(r.Values(), err)
  {
    var ko := r.DeepCopy();
    ManagedAfter(ko.Values(), err);
    var managed := Apply(ko, err);
    return if managed then ko else null;
  }

  method Apply(ko: Resource, err: Option<Failure>) returns (managed: bool)
    requires forall i, j :: 0 <= i < j < |ko.conditions| ==> ko.conditions[i] != ko.conditions[j]
    modifies ko, ko.conditions
    ensures ko.Values() == Updated(old(ko.Values()), err)
    ensures managed <==> err.Some? || HasManaged(old(ko.Values()))
  {
    var terminal, recoverable, sync := FindManaged(ko);
    if IsTerminalOutcome(err) {
      terminal := Raise(ko, Terminal, terminal, err.value.text);
    } else {
      recoverable := NotTerminal(ko, err, terminal, recoverable);
    }
    managed := terminal.Some? || recoverable.Some? || sync.Some?;
  }

  /** The changes of an outcome that is not terminal. */
  method NotTerminal(ko: Resource, err: Option<Failure>, terminal: Option<nat>, recoverable: Option<nat>)
    returns (pos: Option<nat>)
    requires !IsTerminalOutcome(err)
    requires terminal == LastOf(ko.Values(), Terminal) && recoverable == LastOf(ko.Values(), Recoverable)
    requires forall i, j :: 0 <= i < j < |ko.conditions| ==> ko.conditions[i] != ko.conditions[j]
    modifies ko, ko.conditions
    ensures ko.Values() == Updated(old(ko.Values()), err)
    ensures pos.Some? <==> err.Some? || recoverable.Some?
  {
    ghost var cs := ko.Values();
    if terminal.Some? {
      Clear(ko, Terminal, terminal.value);
    }
    SameKindsSameLast(cs, ko.Values(), Recoverable);
    pos := recoverable;
    if err.Some? {
      pos := Raise(ko, Recoverable, recoverable, err.value.text);
    } else if recoverable.Some? {
      Clear(ko, Recoverable, recoverable.value);
    }
  }

  method FindManaged(ko: Resource) returns (terminal: Option<nat>, recoverable: Option<nat>, sync: Option<nat>)
    ensures terminal == LastOf(ko.Values(), Terminal)
    ensures recoverable == LastOf(ko.Values(), Recoverable)
    ensures sync == LastOf(ko.Values(), ResourceSynced)
  {
    terminal, recoverable, sync := None, None, None;
    ghost var cs := ko.Values();
    for i := 0 to |ko.conditions|
      invariant terminal == LastOf(cs[..i], Terminal)
      invariant recoverable == LastOf(cs[..i], Recoverable)
      invariant sync == LastOf(cs[..i], ResourceSynced)
    {
      assert cs[..i + 1][..i] == cs[..i];
      assert cs[i].kind == ko.conditions[i].kind;
      if ko.conditions[i].kind == Terminal {
        terminal := Some(i);
      }
      if ko.conditions[i].kind == Recoverable {
        recoverable := Some(i);
      }
      if ko.conditions[i].kind == ResourceSynced {
        sync := Some(i);
      }
    }
    assert cs[..|cs|] == cs;
  }

  method Raise(ko: Resource, kind: ConditionType, at: Option<nat>, text: string) returns (pos: Option<nat>)
    requires at == LastOf(ko.Values(), kind)
    requires forall i, j :: 0 <= i < j < |ko.conditions| ==> ko.conditions[i] != ko.conditions[j]
    modifies ko, ko.conditions
    ensures ko.Values() == Raised(old(ko.Values()), kind, text)
    ensures pos.Some?
  {
    pos := at;
    if pos == None {
      var c := new Condition(kind, IsUnknown, None);
      ko.conditions := ko.conditions + [c];
      pos := Some(|ko.conditions| - 1);
    }
    ko.conditions[pos.value].status := IsTrue;
    ko.conditions[pos.value].message := Some(text);
  }

  method Clear(ko: Resource, kind: ConditionType, at: nat)
    requires Some(at) == LastOf(ko.Values(), kind)
    requires forall i, j :: 0 <= i < j < |ko.conditions| ==> ko.conditions[i] != ko.conditions[j]
    modifies ko.conditions
    ensures ko.Values() == Cleared(old(ko.Values()), kind)
  {
    ko.conditions[at].status := IsFalse;
    ko.conditions[at].message := None;
  }

  lemma {:induction false} SameKindsSameLast(cs: seq<Cond>, ds: seq<Cond>, kind: ConditionType)
    requires |cs| == |ds| && forall i :: 0 <= i < |cs| ==> cs[i].kind == ds[i].kind
    ensures LastOf(cs, kind) == LastOf(ds, kind)
    ensures CountKind(cs, kind) == CountKind(ds, kind)
  {
    if cs != [] {
      SameKindsSameLast(cs[..|cs| - 1], ds[..|ds| - 1], kind);
    }
  }

  lemma ManagedAfter(cs: seq<Cond>, err: Option<Failure>)
    ensures HasManaged(Updated(cs, err)) <==> err.Some? || HasManaged(cs)
    ensures !HasManaged(Updated(cs, err)) ==> Updated(cs, err) == cs
  {
    var after := Updated(cs, err);
    if err == None {
      SameKindsSameLast(cs, after, Terminal);
      SameKindsSameLast(cs, after, Recoverable);
      SameKindsSameLast(cs, after, ResourceSynced);
    } else {
      var kind := if IsTerminalOutcome(err) then Terminal else Recoverable;
      var base := if kind == Terminal then cs else Cleared(cs, Terminal);
      assert after == Raised(base, kind, err.value.text);
      assert after[if LastOf(base, kind).Some? then LastOf(base, kind).value else |base|].kind == kind;
    }
  }

  datatype Returned = NoError | TerminalSignal | Original(err: Failure)

  /** The error path: the caller gets the terminal signal instead of the error exactly when the
      outcome was terminal, provided the resource carries no second Terminal condition. */
  method OnError(r: Resource, err: Failure) returns (res: Resource, e: Returned)
    ensures fresh(res) && res.Values() == Updated(r.Values(), Some(err))
    ensures e == TerminalSignal || e == Original(err)
    ensures CountKind(r.Values(), Terminal) <= 1 ==> (e == TerminalSignal <==> IsTerminalOutcome(Some(err)))
  {
    ManagedAfter(r.Values(), Some(err));
    var r1 := UpdateConditions(r, Some(err));
    if CountKind(r.Values(), Terminal) <= 1 {
      TerminalShows(r.Values(), Some(err));
    }
    for i := 0 to |r1.conditions|
      invariant forall k :: 0 <= k < i ==> !(r1.Values()[k].kind == Terminal && r1.Values()[k].status == IsTrue)
    {
      assert r1.Values()[i] == r1.conditions[i].Value();
      if r1.conditions[i].kind == Terminal && r1.conditions[i].status == IsTrue {
        return r1, TerminalSignal;
      }
    }
    return r1, Original(err);
  }

  /** The success path: the supplied resource comes back when it has no managed condition. */
  method OnSuccess(r: Resource) returns (res: Resource)
    ensures res == r || fresh(res)
    ensures res.Values() == Updated(r.Values(), None)
  {
    ManagedAfter(r.Values(), None);
    var r1 := UpdateConditions(r, None);
    return if r1 == null then r else r1;
  }

  lemma {:induction false} OnlyOne(cs: seq<Cond>, kind: ConditionType)
    ensures CountKind(cs, kind) == 0 <==> LastOf(cs, kind) == None
    ensures CountKind(cs, kind) <= 1 ==>
              forall i, j :: 0 <= i < j < |cs| ==> !(cs[i].kind == kind && cs[j].kind == kind)
  {
    if cs != [] {
      OnlyOne(cs[..|cs| - 1], kind);
    }
  }

  lemma TerminalShows(cs: seq<Cond>, err: Option<Failure>)
    requires CountKind(cs, Terminal) <= 1
    ensures (exists i :: 0 <= i < |Updated(cs, err)| && Updated(cs, err)[i].kind == Terminal
               && Updated(cs, err)[i].status == IsTrue) <==> IsTerminalOutcome(err)
  {
    var after := Updated(cs, err);
    OnlyOne(cs, Terminal);
    if IsTerminalOutcome(err) {
      assert after[if LastOf(cs, Terminal).Some? then LastOf(cs, Terminal).value else |cs|].status == IsTrue;
    }
  }

  // ------------------------------------------------ whole histories

  /** The conditions after a run of outcomes, each result feeding the next operation. */
  function History(cs: seq<Cond>, outcomes: seq<Option<Failure>>): seq<Cond> {
    if outcomes == [] then cs
    else Updated(History(cs, outcomes[..|outcomes| - 1]), outcomes[|outcomes| - 1])
  }

  /** The last outcome that was not terminal, if any. */
  function LastNonTerminal(outcomes: seq<Option<Failure>>): Option<Option<Failure>> {
    if outcomes == [] then None
    else if !IsTerminalOutcome(outcomes[|outcomes| - 1]) then Some(outcomes[|outcomes| - 1])
    else LastNonTerminal(outcomes[..|outcomes| - 1])
  }

  /** What a type's condition says: its status and message, `None` when it is absent. */
  function Reading(cs: seq<Cond>, kind: ConditionType): Option<(ConditionStatus, Option<string>)> {
    if LastOf(cs, kind) == None then None
    else Some((cs[LastOf(cs, kind).value].status, cs[LastOf(cs, kind).value].message))
  }

  /** The part of a list this code does not manage. */
  function Foreign(cs: seq<Cond>): seq<Cond> {
    if cs == [] then []
    else
      var c := cs[|cs| - 1];
      Foreign(cs[..|cs| - 1]) + (if c.kind == Terminal || c.kind == Recoverable then [] else [c])
  }

  lemma {:induction false} Overwritten(cs: seq<Cond>, i: nat, c: Cond)
    requires i < |cs| && cs[i].kind == c.kind
    requires c.kind == Terminal || c.kind == Recoverable
    ensures Foreign(cs[i := c]) == Foreign(cs)
    ensures forall kind :: LastOf(cs[i := c], kind) == LastOf(cs, kind)
    ensures forall kind :: CountKind(cs[i := c], kind) == CountKind(cs, kind)
  {
    forall kind
      ensures LastOf(cs[i := c], kind) == LastOf(cs, kind)
      ensures CountKind(cs[i := c], kind) == CountKind(cs, kind)
    {
      SameKindsSameLast(cs, cs[i := c], kind);
    }
    var n := |cs| - 1;
    if i < n {
      Overwritten(cs[..n], i, c);
      assert cs[i := c][..n] == cs[..n][i := c];
    } else {
      assert cs[i := c][..n] == cs[..n];
    }
  }

  lemma RaisedMeaning(cs: seq<Cond>, kind: ConditionType, text: string)
    requires kind == Terminal || kind == Recoverable
    requires CountKind(cs, kind) <= 1
    ensures CountKind(Raised(cs, kind, text), kind) == 1
    ensures Reading(Raised(cs, kind, text), kind) == Some((IsTrue, Some(text)))
    ensures forall other :: other != kind ==>
              CountKind(Raised(cs, kind, text), other) == CountKind(cs, other)
              && Reading(Raised(cs, kind, text), other) == Reading(cs, other)
    ensures Foreign(Raised(cs, kind, text)) == Foreign(cs)
  {
    OnlyOne(cs, kind);
    var c := Cond(kind, IsTrue, Some(text));
    if LastOf(cs, kind).Some? {
      Overwritten(cs, LastOf(cs, kind).value, c);
    } else {
      assert (cs + [c])[..|cs|] == cs;
    }
  }

  lemma ClearedMeaning(cs: seq<Cond>, kind: ConditionType)
    requires kind == Terminal || kind == Recoverable
    ensures CountKind(Cleared(cs, kind), kind) == CountKind(cs, kind)
    ensures Reading(Cleared(cs, kind), kind) == (if CountKind(cs, kind) == 0 then None else Some((IsFalse, None)))
    ensures forall other :: other != kind ==>
              CountKind(Cleared(cs, kind), other) == CountKind(cs, other)
              && Reading(Cleared(cs, kind), other) == Reading(cs, other)
    ensures Foreign(Cleared(cs, kind)) == Foreign(cs)
  {
    OnlyOne(cs, kind);
    if LastOf(cs, kind).Some? {
      Overwritten(cs, LastOf(cs, kind).value, Cond(kind, IsFalse, None));
    }
  }

  /** What one outcome does to each of the two conditions, and that it touches no other. */
  lemma UpdatedMeaning(cs: seq<Cond>, err: Option<Failure>)
    requires CountKind(cs, Terminal) <= 1 && CountKind(cs, Recoverable) <= 1
    ensures var now := Updated(cs, err);
            && Foreign(now) == Foreign(cs)
            && (if IsTerminalOutcome(err) then
                  && CountKind(now, Terminal) == 1 && Reading(now, Terminal) == Some((IsTrue, Some(err.value.text)))
                  && CountKind(now, Recoverable) == CountKind(cs, Recoverable)
                  && Reading(now, Recoverable) == Reading(cs, Recoverable)
                else
                  && CountKind(now, Terminal) == CountKind(cs, Terminal)
                  && Reading(now, Terminal) == (if CountKind(cs, Terminal) == 0 then None else Some((IsFalse, None)))
                  && CountKind(now, Recoverable) == (if err.Some? then 1 else CountKind(cs, Recoverable))
                  && Reading(now, Recoverable) ==
                       (if err.Some? then Some((IsTrue, Some(err.value.text)))
                        else if CountKind(cs, Recoverable) == 0 then None else Some((IsFalse, None))))
  {
    if IsTerminalOutcome(err) {
      RaisedMeaning(cs, Terminal, err.value.text);
    } else {
      ClearedMeaning(cs, Terminal);
      var cleared := Cleared(cs, Terminal);
      if err.Some? {
        RaisedMeaning(cleared, Recoverable, err.value.text);
      } else {
        ClearedMeaning(cleared, Recoverable);
      }
    }
  }

  predicate IsRecoverableOutcome(err: Option<Failure>) {
    err.Some? && !IsTerminalOutcome(err)
  }

  /** Starting without managed errors, the two conditions are a faithful record of any history:
      each occurs at most once, and exists only if an outcome raised it; Terminal reads True,
      with the error's text, exactly when the last outcome was terminal; Recoverable reads True,
      with the error's text, exactly when the last outcome that was not terminal was an error;
      and the conditions of other types are untouched. */
  lemma {:induction false} HistoryMeaning(cs: seq<Cond>, outcomes: seq<Option<Failure>>)
    requires CountKind(cs, Terminal) == 0 && CountKind(cs, Recoverable) == 0
    ensures var now := History(cs, outcomes);
            && CountKind(now, Terminal)
                 == (if exists i :: 0 <= i < |outcomes| && IsTerminalOutcome(outcomes[i]) then 1 else 0)
            && CountKind(now, Recoverable)
                 == (if exists i :: 0 <= i < |outcomes| && IsRecoverableOutcome(outcomes[i]) then 1 else 0)
            && (if outcomes != [] && IsTerminalOutcome(outcomes[|outcomes| - 1])
                then Reading(now, Terminal) == Some((IsTrue, Some(outcomes[|outcomes| - 1].value.text)))
                else Reading(now, Terminal) == None || Reading(now, Terminal) == Some((IsFalse, None)))
            && (if LastNonTerminal(outcomes).Some? && LastNonTerminal(outcomes).value.Some?
                then Reading(now, Recoverable) == Some((IsTrue, Some(LastNonTerminal(outcomes).value.value.text)))
                else Reading(now, Recoverable) == None || Reading(now, Recoverable) == Some((IsFalse, None)))
            && Foreign(now) == Foreign(cs)
  {
    OnlyOne(cs, Terminal);
    OnlyOne(cs, Recoverable);
    if outcomes != [] {
      var n := |outcomes| - 1;
      var before, err := History(cs, outcomes[..n]), outcomes[n];
      HistoryMeaning(cs, outcomes[..n]);
      SplitLast(outcomes);
      UpdatedMeaning(before, err);
    }
  }

  lemma SplitLast(outcomes: seq<Option<Failure>>)
    requires outcomes != []
    ensures var n := |outcomes| - 1;
            && ((exists i :: 0 <= i < |outcomes| && IsTerminalOutcome(outcomes[i])) <==>
                (exists i :: 0 <= i < n && IsTerminalOutcome(outcomes[..n][i])) || IsTerminalOutcome(outcomes[n]))
            && ((exists i :: 0 <= i < |outcomes| && IsRecoverableOutcome(outcomes[i])) <==>
                (exists i :: 0 <= i < n && IsRecoverableOutcome(outcomes[..n][i])) || IsRecoverableOutcome(outcomes[n]))
  {
    var n := |outcomes| - 1;
    forall i | 0 <= i < n
      ensures outcomes[..n][i] == outcomes[i]
    {
    }
  }
}
