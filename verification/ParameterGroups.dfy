/** Bringing a cache parameter group to its desired parameters
    (`pkg/resource/cache_parameter_group/hooks.go`). */
module ParameterGroups {
  import opened Wrappers

  datatype Parameter = Parameter(name: Option<string>, value: Option<string>)

  /** Parameter values by name; a value may be nil. */
  type Values = map<string, Option<string>>

  const MODIFY_BATCH_SIZE: nat := 20

  // ------------------------------------------------ what a parameter list means

  predicate Named(ps: seq<Parameter>) {
    forall i :: 0 <= i < |ps| ==> ps[i].name.Some?
  }

  /** The parameters by name; a later entry replaces an earlier one. */
  function ByName(ps: seq<Parameter>): map<string, Parameter>
    requires Named(ps)
  {
    if ps == [] then map[]
    else ByName(ps[..|ps| - 1])[ps[|ps| - 1].name.value := ps[|ps| - 1]]
  }

  predicate HasValue(p: Parameter) {
    p.value.Some? && p.value.value != ""
  }

  /** The values a desired list asks for: entries without a value, or with an empty one, ask
      for the parameter's default. */
  function Wanted(ps: seq<Parameter>): Values
    requires Named(ps)
  {
    var m := ByName(ps);
    map n | n in m && HasValue(m[n]) :: m[n].value
  }

  /** The values an observed list shows. */
  function Observed(ps: seq<Parameter>): Values
    requires Named(ps)
  {
    if ps == [] then map[]
    else
      var last := ps[|ps| - 1];
      Observed(ps[..|ps| - 1])[last.name.value := last.value]
  }

  /** `ps` lists the map `m`: every name once, with its parameter, in any order. */
  ghost predicate ListsOnce(ps: seq<Parameter>, m: map<string, Parameter>) {
    && (forall i :: 0 <= i < |ps| ==> ps[i].name.Some? && ps[i].name.value in m && ps[i] == m[ps[i].name.value])
    && (forall i, j :: 0 <= i < j < |ps| ==> ps[i].name != ps[j].name)
    && (forall n :: n in m ==> m[n] in ps)
  }

  lemma {:induction false} ByNameNames(ps: seq<Parameter>)
    requires Named(ps)
    ensures forall n :: n in ByName(ps) ==> ByName(ps)[n].name == Some(n) && ByName(ps)[n] in ps
    ensures forall i :: 0 <= i < |ps| ==> ps[i].name.value in ByName(ps)
  {
    if ps != [] {
      var front := ps[..|ps| - 1];
      ByNameNames(front);
      forall i | 0 <= i < |ps|
        ensures ps[i].name.value in ByName(ps)
      {
        if i < |front| { assert front[i] == ps[i]; }
      }
    }
  }

  lemma {:induction false} ByNameOfDistinct(ps: seq<Parameter>, i: nat)
    requires Named(ps) && i < |ps|
    requires forall j :: i < j < |ps| ==> ps[j].name != ps[i].name
    ensures ps[i].name.value in ByName(ps) && ByName(ps)[ps[i].name.value] == ps[i]
  {
    if i < |ps| - 1 {
      assert ps[..|ps| - 1][i] == ps[i];
      ByNameOfDistinct(ps[..|ps| - 1], i);
    }
  }

  lemma ListingByName(ps: seq<Parameter>, m: map<string, Parameter>)
    requires ListsOnce(ps, m)
    requires forall n :: n in m ==> m[n].name == Some(n)
    ensures Named(ps) && ByName(ps) == m
  {
    ByNameNames(ps);
    forall n | n in m
      ensures n in ByName(ps) && ByName(ps)[n] == m[n]
    {
      var i :| 0 <= i < |ps| && ps[i] == m[n];
      ByNameOfDistinct(ps, i);
    }
  }

  /** What a desired list asks for: of the last entry with a name, its value, unless it has none or
      an empty one. */
  lemma WantedIsLast(ps: seq<Parameter>, i: nat)
    requires Named(ps) && i < |ps|
    requires forall j :: i < j < |ps| ==> ps[j].name != ps[i].name
    ensures ps[i].name.value in Wanted(ps) <==> ps[i].value.Some? && ps[i].value != Some("")
    ensures ps[i].name.value in Wanted(ps) ==> Wanted(ps)[ps[i].name.value] == ps[i].value
  {
    ByNameOfDistinct(ps, i);
  }

  // ------------------------------------------------ the difference

  /** The reading of an observed value the comparison needs: it looks one up exactly for the
      observed parameters that are wanted with a value. */
  predicate Comparable(wanted: Values, observed: Values) {
    forall n :: n in wanted && n in observed ==> observed[n].Some?
  }

  ghost function RemovedOf(desired: seq<Parameter>, latest: seq<Parameter>): map<string, Parameter>
    requires Named(desired) && Named(latest)
  {
    map n | n in ByName(latest) && n !in Wanted(desired) :: ByName(latest)[n]
  }

  ghost function ModifiedOf(desired: seq<Parameter>, latest: seq<Parameter>): map<string, Parameter>
    requires Named(desired) && Named(latest)
  {
    map n | n in ByName(latest) && n in Wanted(desired)
            && ByName(latest)[n].value != Wanted(desired)[n] :: ByName(desired)[n]
  }

  ghost function AddedOf(desired: seq<Parameter>, latest: seq<Parameter>): map<string, Parameter>
    requires Named(desired) && Named(latest)
  {
    map n | n in Wanted(desired) && n !in ByName(latest) :: ByName(desired)[n]
  }

  method CollectByName(ps: seq<Parameter>) returns (m: map<string, Parameter>)
    requires Named(ps)
    ensures m == ByName(ps)
  {
    m := map[];
    for i := 0 to |ps|
      invariant m == ByName(ps[..i])
    {
      assert ps[..i + 1][..i] == ps[..i];
      m := m[ps[i].name.value := ps[i]];
    }
    assert ps[..|ps|] == ps;
  }

  /** Compares the two lists by name, ranging over the two maps in arbitrary order. */
  method ProvideDelta(desired: seq<Parameter>, latest: seq<Parameter>)
    returns (removed: seq<Parameter>, modified: seq<Parameter>, added: seq<Parameter>)
    requires Named(desired) && Named(latest) && Comparable(Wanted(desired), Observed(latest))
    ensures ListsOnce(removed, RemovedOf(desired, latest))
    ensures ListsOnce(modified, ModifiedOf(desired, latest))
    ensures ListsOnce(added, AddedOf(desired, latest))
  {
    var desiredMap := CollectByName(desired);
    var latestMap := CollectByName(latest);
    ByNameNames(desired);
    ByNameNames(latest);
    removed, modified := CompareLatest(desired, latest, desiredMap, latestMap);
    added := [];
    var rest := desiredMap.Keys;
    ghost var target := AddedOf(desired, latest);
    while rest != {}
      invariant rest <= desiredMap.Keys
      invariant PartlyLists(added, target, rest)
      decreases |rest|
    {
      var n :| n in rest;
      PartlyNext(added, target, rest, n);
      rest := rest - {n};
      if n !in latestMap && HasValue(desiredMap[n]) {
        added := added + [desiredMap[n]];
      }
    }
  }

  /** `ps` lists the part of `m` whose names are not in `rest`. */
  ghost predicate PartlyLists(ps: seq<Parameter>, m: map<string, Parameter>, rest: set<string>) {
    && (forall i :: 0 <= i < |ps| ==>
          (ps[i].name.Some? && ps[i].name.value in m && ps[i].name.value !in rest && ps[i] == m[ps[i].name.value]))
    && (forall i, j :: 0 <= i < j < |ps| ==> ps[i].name != ps[j].name)
    && (forall n :: n in m && n !in rest ==> m[n] in ps)
  }

  lemma PartlyNext(ps: seq<Parameter>, m: map<string, Parameter>, rest: set<string>, n: string)
    requires PartlyLists(ps, m, rest) && n in rest
    requires n in m ==> m[n].name == Some(n)
    ensures if n in m then PartlyLists(ps + [m[n]], m, rest - {n}) else PartlyLists(ps, m, rest - {n})
  {
  }

  method CompareLatest(desired: seq<Parameter>, latest: seq<Parameter>,
                       desiredMap: map<string, Parameter>, latestMap: map<string, Parameter>)
    returns (removed: seq<Parameter>, modified: seq<Parameter>)
    requires Named(desired) && Named(latest) && Comparable(Wanted(desired), Observed(latest))
    requires desiredMap == ByName(desired) && latestMap == ByName(latest)
    ensures ListsOnce(removed, RemovedOf(desired, latest))
    ensures ListsOnce(modified, ModifiedOf(desired, latest))
  {
    ByNameNames(desired);
    ByNameNames(latest);
    ObservedByName(latest);
    removed, modified := [], [];
    var rest := latestMap.Keys;
    ghost var toRemove, toModify := RemovedOf(desired, latest), ModifiedOf(desired, latest);
    while rest != {}
      invariant rest <= latestMap.Keys
      invariant PartlyLists(removed, toRemove, rest)
      invariant PartlyLists(modified, toModify, rest)
      decreases |rest|
    {
      var n :| n in rest;
      PartlyNext(removed, toRemove, rest, n);
      PartlyNext(modified, toModify, rest, n);
      rest := rest - {n};
      if n in desiredMap && HasValue(desiredMap[n]) {
        assert n in Wanted(desired);
        if desiredMap[n].value.value != latestMap[n].value.value {
          modified := modified + [desiredMap[n]];
        }
      } else {
        removed := removed + [latestMap[n]];
      }
    }
  }

  // ------------------------------------------------ saving in batches

  datatype Call = ResetAll | Reset(names: seq<Parameter>) | Modify(batch: seq<Parameter>)

  /** The user parameters of the group on the server; each call is recorded and is either
      applied or refused; refusals are counted. */
  class ParameterServer {
    var user: Values
    var log: seq<Call>
    ghost var refused: nat

    constructor (user: Values)
      ensures this.user == user && log == [] && refused == 0
    {
      this.user := user;
      log := [];
      refused := 0;
    }

    method Send(call: Call) returns (ok: bool)
      requires call.Modify? ==> Named(call.batch)
      requires call.Reset? ==> Named(call.names)
      modifies this
      ensures log == old(log) + [call]
      ensures user == if ok then Effect(old(user), call) else old(user)
      ensures refused == old(refused) + (if ok then 0 else 1)
    {
      log := log + [call];
      ok := *;
      if ok {
        user := Effect(user, call);
      } else {
        refused := refused + 1;
      }
    }

    /** Lists the user parameters, in any order. */
    method Observe() returns (ps: seq<Parameter>)
      ensures Named(ps) && Observed(ps) == user
    {
      ps := [];
      var rest := user.Keys;
      ghost var m := map n | n in user :: Parameter(Some(n), user[n]);
      while rest != {}
        invariant rest <= user.Keys
        invariant PartlyLists(ps, m, rest)
        decreases |rest|
      {
        var n :| n in rest;
        PartlyNext(ps, m, rest, n);
        rest := rest - {n};
        ps := ps + [Parameter(Some(n), user[n])];
      }
      ListingByName(ps, m);
      ObservedByName(ps);
    }
  }

  function Effect(user: Values, call: Call): Values
    requires call.Modify? ==> Named(call.batch)
    requires call.Reset? ==> Named(call.names)
  {
    match call
    case ResetAll => map[]
    case Reset(ps) => user - ByName(ps).Keys
    case Modify(ps) => user + Observed(ps)
  }

  /** `ps` cut into runs of twenty, the last one shorter when twenty does not divide. */
  function Batches(ps: seq<Parameter>): seq<seq<Parameter>> {
    if ps == [] then []
    else if |ps| <= MODIFY_BATCH_SIZE then [ps]
    else [ps[..MODIFY_BATCH_SIZE]] + Batches(ps[MODIFY_BATCH_SIZE..])
  }

  function Concat(bs: seq<seq<Parameter>>): seq<Parameter> {
    if bs == [] then [] else bs[0] + Concat(bs[1..])
  }

  /** The batches are the parameters in order; none is empty or over twenty, all but the last
      are full, and there are as many as twenty goes into the total, rounded up. */
  lemma {:induction false} BatchesMeaning(ps: seq<Parameter>)
    ensures Concat(Batches(ps)) == ps
    ensures |Batches(ps)| == (|ps| + MODIFY_BATCH_SIZE - 1) / MODIFY_BATCH_SIZE
    ensures forall i :: 0 <= i < |Batches(ps)| ==> 0 < |Batches(ps)[i]| <= MODIFY_BATCH_SIZE
    ensures forall i :: 0 <= i < |Batches(ps)| - 1 ==> |Batches(ps)[i]| == MODIFY_BATCH_SIZE
  {
    if ps == [] {
    } else if |ps| <= MODIFY_BATCH_SIZE {
      assert Concat([ps]) == ps + Concat([ps][1..]);
    } else {
      var first, rest := ps[..MODIFY_BATCH_SIZE], ps[MODIFY_BATCH_SIZE..];
      BatchesMeaning(rest);
      assert Batches(ps)[1..] == Batches(rest);
      assert Concat(Batches(ps)) == first + rest == ps;
      assert (|ps| + MODIFY_BATCH_SIZE - 1) / MODIFY_BATCH_SIZE
          == 1 + (|rest| + MODIFY_BATCH_SIZE - 1) / MODIFY_BATCH_SIZE;
      forall i | 0 <= i < |Batches(ps)|
        ensures 0 < |Batches(ps)[i]| <= MODIFY_BATCH_SIZE
        ensures i < |Batches(ps)| - 1 ==> |Batches(ps)[i]| == MODIFY_BATCH_SIZE
      {
        if i > 0 {
          assert Batches(ps)[i] == Batches(rest)[i - 1];
        }
      }
    }
  }

  function Modifies(bs: seq<seq<Parameter>>): seq<Call> {
    seq(|bs|, i requires 0 <= i < |bs| => Modify(bs[i]))
  }

  lemma FirstBatch(ps: seq<Parameter>)
    requires |ps| >= MODIFY_BATCH_SIZE
    ensures Batches(ps) == [ps[..MODIFY_BATCH_SIZE]] + Batches(ps[MODIFY_BATCH_SIZE..])
  {
    if |ps| == MODIFY_BATCH_SIZE {
      assert ps[..MODIFY_BATCH_SIZE] == ps && ps[MODIFY_BATCH_SIZE..] == [];
    }
  }

  lemma {:induction false} BatchesOfSum(a: seq<Parameter>, b: seq<Parameter>, k: nat)
    requires |a| == k * MODIFY_BATCH_SIZE
    ensures Batches(a + b) == Batches(a) + Batches(b) && |Batches(a)| == k
    decreases k
  {
    if k == 0 {
      assert a + b == b;
    } else {
      FirstBatch(a);
      FirstBatch(a + b);
      assert (a + b)[..MODIFY_BATCH_SIZE] == a[..MODIFY_BATCH_SIZE];
      assert (a + b)[MODIFY_BATCH_SIZE..] == a[MODIFY_BATCH_SIZE..] + b;
      BatchesOfSum(a[MODIFY_BATCH_SIZE..], b, k - 1);
    }
  }

  lemma BatchAppend(ps: seq<Parameter>, k: nat)
    requires k * MODIFY_BATCH_SIZE <= |ps|
    ensures Batches(ps[..k * MODIFY_BATCH_SIZE]) + Batches(ps[k * MODIFY_BATCH_SIZE..]) == Batches(ps)
    ensures |Batches(ps[..k * MODIFY_BATCH_SIZE])| == k
  {
    var cut := k * MODIFY_BATCH_SIZE;
    BatchesOfSum(ps[..cut], ps[cut..], k);
    assert ps == ps[..cut] + ps[cut..];
  }

  method ModifyCacheParameterGroup(server: ParameterServer, parameters: seq<Parameter>) returns (ok: bool)
    requires Named(parameters)
    modifies server
    ensures server.log == old(server.log) + [Modify(parameters)]
    ensures server.user == if ok then old(server.user) + Observed(parameters) else old(server.user)
    ensures server.refused == old(server.refused) + (if ok then 0 else 1)
  {
    ok := server.Send(Modify(parameters));
  }

  lemma MapAssoc(a: Values, b: Values, c: Values)
    ensures (a + b) + c == a + (b + c)
  {
  }

  /** Buffers parameters and sends the buffer each time it holds twenty, and the remainder at
      the end. On a refusal it stops: exactly the batches before the refused one are applied. */
  method SaveParameters(server: ParameterServer, parameters: seq<Parameter>) returns (ok: bool, ghost applied: nat)
    requires Named(parameters)
    modifies server
    ensures server.user == old(server.user) + Observed(Sent(parameters, applied))
    ensures SentSoFar(parameters, if ok then applied else applied + 1, server.log, old(server.log))
    ensures server.refused == old(server.refused) + (if ok then 0 else 1)
    ensures ok ==> applied == |Batches(parameters)| && Sent(parameters, applied) == parameters
  {
    applied := 0;
    var buffer: seq<Parameter> := [];
    NothingSent(parameters);
    for i := 0 to |parameters|
      invariant Buffered(parameters, i, applied, buffer)
      invariant Saved(parameters, applied, applied, server.log, server.user, old(server.log), old(server.user))
      invariant server.refused == old(server.refused)
    {
      buffer := buffer + [Parameter(parameters[i].name, parameters[i].value)];
      BufferOne(parameters, i, applied, buffer);
      if |buffer| == MODIFY_BATCH_SIZE {
        var done := SendBatch(server, buffer, parameters, applied, old(server.log), old(server.user));
        if !done {
          return false, applied;
        }
        buffer := [];
        applied := applied + 1;
      }
    }
    ok, applied := SaveRemainder(server, buffer, parameters, applied, old(server.log), old(server.user));
  }

  /** Sends what is left in the buffer after the last parameter. */
  method SaveRemainder(server: ParameterServer, buffer: seq<Parameter>, ghost ps: seq<Parameter>, ghost k: nat,
                       ghost log: seq<Call>, ghost user: Values)
    returns (ok: bool, ghost applied: nat)
    requires Named(ps) && Buffered(ps, |ps|, k, buffer)
    requires Saved(ps, k, k, server.log, server.user, log, user)
    modifies server
    ensures Saved(ps, applied, if ok then applied else applied + 1, server.log, server.user, log, user)
    ensures server.refused == old(server.refused) + (if ok then 0 else 1)
    ensures ok ==> applied == |Batches(ps)| && Sent(ps, applied) == ps
  {
    applied := k;
    if |buffer| > 0 {
      LastBatch(ps, k);
      ok := SendBatch(server, buffer, ps, k, log, user);
      if ok {
        applied := k + 1;
      }
    } else {
      NoMoreBatches(ps, k);
      ok := true;
    }
  }

  /** On top of `before` and `start`, `k` batches are applied and `calls` were sent. */
  ghost predicate Saved(ps: seq<Parameter>, k: nat, calls: nat, log: seq<Call>, user: Values,
                        before: seq<Call>, start: Values)
    requires Named(ps)
  {
    SentSoFar(ps, calls, log, before) && user == start + Observed(Sent(ps, k))
  }

  /** The calls on top of `before` are the modify calls of the first `k` batches. */
  ghost predicate SentSoFar(ps: seq<Parameter>, k: nat, log: seq<Call>, before: seq<Call>) {
    k <= |Batches(ps)| && log == before + Modifies(Batches(ps)[..k])
  }

  /** The next batch is `batch`, and adds its parameters to those sent. */
  ghost predicate NextIs(ps: seq<Parameter>, k: nat, batch: seq<Parameter>)
    requires Named(ps)
  {
    Named(batch) && k < |Batches(ps)| && Batches(ps)[k] == batch
    && Observed(Sent(ps, k + 1)) == Observed(Sent(ps, k)) + Observed(batch)
  }

  /** Sends batch `k` of `ps`, the earlier ones having been applied on top of `log` and `user`. */
  method SendBatch(server: ParameterServer, batch: seq<Parameter>, ghost ps: seq<Parameter>, ghost k: nat,
                   ghost log: seq<Call>, ghost user: Values)
    returns (ok: bool)
    requires Named(ps) && NextIs(ps, k, batch)
    requires Saved(ps, k, k, server.log, server.user, log, user)
    modifies server
    ensures Saved(ps, if ok then k + 1 else k, k + 1, server.log, server.user, log, user)
    ensures server.refused == old(server.refused) + (if ok then 0 else 1)
  {
    OneMoreCall(Batches(ps), k);
    MapAssoc(user, Observed(Sent(ps, k)), Observed(batch));
    ok := ModifyCacheParameterGroup(server, batch);
  }

  /** After `i` parameters, `k` full batches are out and the buffer holds the rest. */
  ghost predicate Buffered(ps: seq<Parameter>, i: nat, k: nat, buffer: seq<Parameter>) {
    && k * MODIFY_BATCH_SIZE <= i <= |ps|
    && i - k * MODIFY_BATCH_SIZE < MODIFY_BATCH_SIZE
    && buffer == ps[k * MODIFY_BATCH_SIZE..i]
  }

  lemma BufferOne(ps: seq<Parameter>, i: nat, k: nat, buffer: seq<Parameter>)
    requires Named(ps) && i < |ps|
    requires buffer != [] && Buffered(ps, i, k, buffer[..|buffer| - 1]) && buffer[|buffer| - 1] == ps[i]
    ensures |buffer| < MODIFY_BATCH_SIZE ==> Buffered(ps, i + 1, k, buffer)
    ensures |buffer| == MODIFY_BATCH_SIZE ==> Buffered(ps, i + 1, k + 1, []) && NextIs(ps, k, buffer)
    ensures |buffer| <= MODIFY_BATCH_SIZE
  {
    var start, front := k * MODIFY_BATCH_SIZE, buffer[..|buffer| - 1];
    assert buffer == front + [ps[i]];
    assert ps[start..i + 1] == ps[start..i] + [ps[i]];
    if |buffer| == MODIFY_BATCH_SIZE {
      NextBatch(ps, k);
    }
  }

  /** What the first `k` batches contain. */
  function Sent(ps: seq<Parameter>, k: nat): (r: seq<Parameter>)
    ensures Named(ps) ==> Named(r)
  {
    if k * MODIFY_BATCH_SIZE <= |ps| then ps[..k * MODIFY_BATCH_SIZE] else ps
  }

  lemma NothingSent(ps: seq<Parameter>)
    ensures Sent(ps, 0) == [] && Observed([]) == map[]
    ensures Modifies([]) == []
  {
  }

  lemma OneMoreCall(bs: seq<seq<Parameter>>, k: nat)
    requires k < |bs|
    ensures Modifies(bs[..k + 1]) == Modifies(bs[..k]) + [Modify(bs[k])]
  {
  }

  lemma NoMoreBatches(ps: seq<Parameter>, k: nat)
    requires |ps| == k * MODIFY_BATCH_SIZE
    ensures |Batches(ps)| == k && Sent(ps, k) == ps
  {
    BatchAppend(ps, k);
  }

  lemma {:induction false} ObservedAppend(a: seq<Parameter>, b: seq<Parameter>)
    requires Named(a) && Named(b)
    ensures Observed(a + b) == Observed(a) + Observed(b)
  {
    if b == [] {
      assert a + b == a;
    } else {
      var n := |b| - 1;
      ObservedAppend(a, b[..n]);
      assert (a + b)[..|a + b| - 1] == a + b[..n];
    }
  }

  lemma {:induction false} ObservedByName(ps: seq<Parameter>)
    requires Named(ps)
    ensures Observed(ps).Keys == ByName(ps).Keys
    ensures forall n :: n in ByName(ps) ==> ByName(ps)[n].value == Observed(ps)[n]
  {
    if ps != [] {
      ObservedByName(ps[..|ps| - 1]);
    }
  }

  lemma BatchAt(ps: seq<Parameter>, k: nat)
    requires (k + 1) * MODIFY_BATCH_SIZE <= |ps|
    ensures k < |Batches(ps)| && Batches(ps)[k] == ps[k * MODIFY_BATCH_SIZE..(k + 1) * MODIFY_BATCH_SIZE]
  {
    BatchAppend(ps, k);
    var rest := ps[k * MODIFY_BATCH_SIZE..];
    assert |rest| >= MODIFY_BATCH_SIZE && Batches(rest)[0] == rest[..MODIFY_BATCH_SIZE];
  }

  lemma NextBatch(ps: seq<Parameter>, k: nat)
    requires Named(ps) && (k + 1) * MODIFY_BATCH_SIZE <= |ps|
    ensures k < |Batches(ps)| && Batches(ps)[k] == ps[k * MODIFY_BATCH_SIZE..(k + 1) * MODIFY_BATCH_SIZE]
    ensures Observed(Sent(ps, k + 1)) == Observed(Sent(ps, k)) + Observed(Batches(ps)[k])
  {
    BatchAt(ps, k);
    var sent, next := ps[..k * MODIFY_BATCH_SIZE], ps[k * MODIFY_BATCH_SIZE..(k + 1) * MODIFY_BATCH_SIZE];
    assert ps[..(k + 1) * MODIFY_BATCH_SIZE] == sent + next;
    ObservedAppend(sent, next);
  }

  lemma LastBatch(ps: seq<Parameter>, k: nat)
    requires Named(ps) && k * MODIFY_BATCH_SIZE < |ps| < (k + 1) * MODIFY_BATCH_SIZE
    ensures Named(ps[k * MODIFY_BATCH_SIZE..])
    ensures |Batches(ps)| == k + 1 && Batches(ps)[k] == ps[k * MODIFY_BATCH_SIZE..]
    ensures Sent(ps, k + 1) == ps
    ensures Observed(ps) == Observed(Sent(ps, k)) + Observed(Batches(ps)[k])
  {
    var a := k * MODIFY_BATCH_SIZE;
    BatchAppend(ps, k);
    assert ps == ps[..a] + ps[a..];
    ObservedAppend(ps[..a], ps[a..]);
  }

  // ------------------------------------------------ the update

  /** Every parameter is as it was before, or as it is wanted. */
  ghost predicate Between(now: Values, before: Values, target: Values) {
    forall n :: Agree(now, before, n) || Agree(now, target, n)
  }

  ghost predicate Agree(a: Values, b: Values, n: string) {
    (n in a <==> n in b) && (n in a ==> a[n] == b[n])
  }

  ghost predicate Submap(a: Values, b: Values) {
    forall n :: n in a ==> n in b && a[n] == b[n]
  }

  predicate AsWanted(ps: seq<Parameter>, target: Values) {
    forall i :: 0 <= i < |ps| ==>
      ps[i].name.Some? && ps[i].name.value in target && target[ps[i].name.value] == ps[i].value
  }

  /** The calls of an update: a reset of what is no longer wanted, the batches of what changed, the
      batches of what is new. */
  ghost function CallsFor(removed: seq<Parameter>, modified: seq<Parameter>, added: seq<Parameter>): seq<Call> {
    (if removed == [] then [] else [Reset(removed)]) + (Modifies(Batches(modified)) + Modifies(Batches(added)))
  }

  ghost predicate IsDelta(desired: seq<Parameter>, latest: seq<Parameter>,
                          removed: seq<Parameter>, modified: seq<Parameter>, added: seq<Parameter>)
    requires Named(desired) && Named(latest)
  {
    && ListsOnce(removed, RemovedOf(desired, latest))
    && ListsOnce(modified, ModifiedOf(desired, latest))
    && ListsOnce(added, AddedOf(desired, latest))
  }

  /** Everything is reset when nothing is desired any more; otherwise the difference is sent, listed
      in some order. */
  ghost predicate IsPlan(desired: seq<Parameter>, latest: seq<Parameter>, plan: seq<Call>)
    requires Named(desired) && Named(latest)
  {
    if desired == [] && latest != [] then plan == [ResetAll]
    else exists removed, modified, added ::
           IsDelta(desired, latest, removed, modified, added) && plan == CallsFor(removed, modified, added)
  }

  /** All planned calls were sent if none was refused, else those up to the refused one. */
  ghost predicate SentOf(plan: seq<Call>, ok: bool, log: seq<Call>, before: seq<Call>) {
    if ok then log == before + plan else before < log <= before + plan
  }

  /** Resets what is no longer wanted, then saves what changed, then what is new. It fails exactly
      when a call is refused. If none is, the group holds exactly the wanted values; if one is, each
      parameter is still either untouched or already as wanted. A group that already holds the
      wanted values is left alone. */
  method CustomUpdateCacheParameterGroup(server: ParameterServer, desired: seq<Parameter>, latest: seq<Parameter>)
    returns (ok: bool, ghost plan: seq<Call>)
    requires Named(desired) && Named(latest)
    requires Comparable(Wanted(desired), Observed(latest)) && server.user == Observed(latest)
    modifies server
    ensures server.refused == old(server.refused) + (if ok then 0 else 1)
    ensures ok ==> server.user == Wanted(desired)
    ensures Between(server.user, old(server.user), Wanted(desired))
    ensures IsPlan(desired, latest, plan) && SentOf(plan, ok, server.log, old(server.log))
    ensures old(server.user) == Wanted(desired) ==> plan == []
  {
    ObservedByName(latest);
    if desired == [] && latest != [] {
      ByNameNames(latest);
      assert latest[0].name.value in Observed(latest);
      plan := [ResetAll];
      ok := server.Send(ResetAll);
      return;
    }
    var removed, modified, added := ProvideDelta(desired, latest);
    RemovedMeaning(desired, latest, removed);
    ModifiedMeaning(desired, latest, modified);
    AddedMeaning(desired, latest, added);
    DeltaReachesTarget(desired, latest, removed, modified, added);
    plan := CallsFor(removed, modified, added);
    assert IsDelta(desired, latest, removed, modified, added);
    ok := ApplyDelta(server, removed, modified, added, Wanted(desired));
  }

  method ApplyDelta(server: ParameterServer, removed: seq<Parameter>, modified: seq<Parameter>, added: seq<Parameter>,
                    ghost target: Values)
    returns (ok: bool)
    requires Named(removed) && AsWanted(modified, target) && AsWanted(added, target)
    requires var start := server.user;
             && Between(start - ByName(removed).Keys, start, target)
             && start - ByName(removed).Keys + Observed(modified) + Observed(added) == target
    modifies server
    ensures server.refused == old(server.refused) + (if ok then 0 else 1)
    ensures ok ==> server.user == target
    ensures Between(server.user, old(server.user), target)
    ensures SentOf(CallsFor(removed, modified, added), ok, server.log, old(server.log))
  {
    ghost var start, before := server.user, server.log;
    ghost var first := if removed == [] then [] else [Reset(removed)];
    ghost var rest := Modifies(Batches(modified)) + Modifies(Batches(added));
    if |removed| > 0 {
      ok := server.Send(Reset(removed));
      if !ok {
        SentStops(first, rest, server.log, before);
        return;
      }
    }
    assert server.user == start - ByName(removed).Keys;
    ghost var middle := server.log;
    assert middle == before + first;
    ok := SaveBoth(server, modified, added, start, target);
    SentThen(first, rest, ok, server.log, middle, before);
  }

  method SaveBoth(server: ParameterServer, modified: seq<Parameter>, added: seq<Parameter>,
                  ghost start: Values, ghost target: Values)
    returns (ok: bool)
    requires AsWanted(modified, target) && AsWanted(added, target) && Between(server.user, start, target)
    modifies server
    ensures server.refused == old(server.refused) + (if ok then 0 else 1)
    ensures ok ==> server.user == old(server.user) + Observed(modified) + Observed(added)
    ensures Between(server.user, start, target)
    ensures SentOf(Modifies(Batches(modified)) + Modifies(Batches(added)), ok, server.log, old(server.log))
  {
    ghost var first, rest := Modifies(Batches(modified)), Modifies(Batches(added));
    ok := SaveWanted(server, modified, start, target);
    ghost var middle := server.log;
    if ok {
      ok := SaveWanted(server, added, start, target);
      SentThen(first, rest, ok, server.log, middle, old(server.log));
    } else {
      SentStops(first, rest, server.log, old(server.log));
    }
  }

  lemma SentThen(first: seq<Call>, rest: seq<Call>, ok: bool, log: seq<Call>, middle: seq<Call>, before: seq<Call>)
    requires SentOf(first, true, middle, before) && SentOf(rest, ok, log, middle)
    ensures SentOf(first + rest, ok, log, before)
  {
    assert before + (first + rest) == middle + rest;
  }

  lemma SentStops(first: seq<Call>, rest: seq<Call>, log: seq<Call>, before: seq<Call>)
    requires SentOf(first, false, log, before)
    ensures SentOf(first + rest, false, log, before)
  {
    assert before + (first + rest) == (before + first) + rest;
  }

  method SaveWanted(server: ParameterServer, ps: seq<Parameter>, ghost start: Values, ghost target: Values)
    returns (ok: bool)
    requires AsWanted(ps, target) && Between(server.user, start, target)
    modifies server
    ensures server.refused == old(server.refused) + (if ok then 0 else 1)
    ensures ok ==> server.user == old(server.user) + Observed(ps)
    ensures Between(server.user, start, target)
    ensures SentOf(Modifies(Batches(ps)), ok, server.log, old(server.log))
  {
    ok := true;
    if |ps| > 0 {
      ghost var applied;
      ok, applied := SaveParameters(server, ps);
      SavedBetween(start, old(server.user), ps, applied, target);
      SentIsPrefix(ps, if ok then applied else applied + 1, server.log, old(server.log));
    }
  }

  lemma SentIsPrefix(ps: seq<Parameter>, k: nat, log: seq<Call>, before: seq<Call>)
    requires SentSoFar(ps, k, log, before)
    ensures log <= before + Modifies(Batches(ps))
    ensures k > 0 ==> before < log
    ensures k == |Batches(ps)| ==> log == before + Modifies(Batches(ps))
  {
    assert Modifies(Batches(ps)[..k]) == Modifies(Batches(ps))[..k];
  }

  lemma AsWantedIsSubmap(ps: seq<Parameter>, target: Values)
    requires AsWanted(ps, target)
    ensures Named(ps) && Submap(Observed(ps), target)
  {
    ByNameNames(ps);
    ObservedByName(ps);
  }

  /** Saving any number of batches of wanted values keeps every parameter old or wanted. */
  lemma SavedBetween(start: Values, before: Values, ps: seq<Parameter>, k: nat, target: Values)
    requires Between(before, start, target) && AsWanted(ps, target)
    ensures Between(before + Observed(Sent(ps, k)), start, target)
  {
    AsWantedIsSubmap(Sent(ps, k), target);
    var now := before + Observed(Sent(ps, k));
    forall n
      ensures Agree(now, start, n) || Agree(now, target, n)
    {
      assert Agree(before, start, n) || Agree(before, target, n);
    }
  }

  lemma RemovedMeaning(desired: seq<Parameter>, latest: seq<Parameter>, removed: seq<Parameter>)
    requires Named(desired) && Named(latest) && ListsOnce(removed, RemovedOf(desired, latest))
    ensures Named(removed)
    ensures ByName(removed).Keys == Observed(latest).Keys - Wanted(desired).Keys
  {
    ObservedByName(latest);
    ByNameNames(latest);
    ListingByName(removed, RemovedOf(desired, latest));
  }

  lemma ModifiedMeaning(desired: seq<Parameter>, latest: seq<Parameter>, modified: seq<Parameter>)
    requires Named(desired) && Named(latest) && ListsOnce(modified, ModifiedOf(desired, latest))
    ensures Named(modified) && AsWanted(modified, Wanted(desired))
    ensures forall n :: n in Observed(modified) <==>
              n in Observed(latest) && n in Wanted(desired) && Observed(latest)[n] != Wanted(desired)[n]
  {
    ObservedByName(latest);
    ByNameNames(desired);
    ListingByName(modified, ModifiedOf(desired, latest));
    ObservedByName(modified);
  }

  lemma AddedMeaning(desired: seq<Parameter>, latest: seq<Parameter>, added: seq<Parameter>)
    requires Named(desired) && Named(latest) && ListsOnce(added, AddedOf(desired, latest))
    ensures Named(added) && AsWanted(added, Wanted(desired))
    ensures Observed(added).Keys == Wanted(desired).Keys - Observed(latest).Keys
  {
    ObservedByName(latest);
    ByNameNames(desired);
    ListingByName(added, AddedOf(desired, latest));
    ObservedByName(added);
  }

  /** The three-way difference is exactly what separates the observed from the wanted values,
      and is empty when they already agree. */
  lemma DeltaReachesTarget(desired: seq<Parameter>, latest: seq<Parameter>,
                           removed: seq<Parameter>, modified: seq<Parameter>, added: seq<Parameter>)
    requires Named(desired) && Named(latest)
    requires ListsOnce(removed, RemovedOf(desired, latest))
    requires ListsOnce(modified, ModifiedOf(desired, latest))
    requires ListsOnce(added, AddedOf(desired, latest))
    ensures Observed(latest) - ByName(removed).Keys + Observed(modified) + Observed(added) == Wanted(desired)
    ensures Between(Observed(latest) - ByName(removed).Keys, Observed(latest), Wanted(desired))
    ensures Observed(latest) == Wanted(desired) ==> removed == [] && modified == [] && added == []
  {
    RemovedMeaning(desired, latest, removed);
    ModifiedMeaning(desired, latest, modified);
    AddedMeaning(desired, latest, added);
    MapsMeet(Observed(latest), Wanted(desired), ByName(removed).Keys, modified, added);
    if Observed(latest) == Wanted(desired) {
      NothingListed(removed);
      NothingListed(modified);
      NothingListed(added);
    }
  }

  lemma NothingListed(ps: seq<Parameter>)
    requires Named(ps) && (ByName(ps).Keys == {} || Observed(ps).Keys == {})
    ensures ps == []
  {
    ByNameNames(ps);
    ObservedByName(ps);
  }

  lemma MapsMeet(start: Values, target: Values, removed: set<string>, modified: seq<Parameter>, added: seq<Parameter>)
    requires removed == start.Keys - target.Keys
    requires AsWanted(modified, target) && AsWanted(added, target)
    requires forall n :: n in Observed(modified) <==> n in start && n in target && start[n] != target[n]
    requires Observed(added).Keys == target.Keys - start.Keys
    ensures start - removed + Observed(modified) + Observed(added) == target
    ensures Between(start - removed, start, target)
  {
    AsWantedIsSubmap(modified, target);
    AsWantedIsSubmap(added, target);
  }

  /** Two rounds of observing and updating: once the first succeeds the group is as wanted, and
      the second makes no call. */
  method ReconcileTwice(server: ParameterServer, desired: seq<Parameter>) returns (ok: bool, callsAgain: nat)
    requires Named(desired) && Comparable(Wanted(desired), server.user)
    modifies server
    ensures server.refused == old(server.refused) + (if ok then 0 else 1)
    ensures ok ==> server.user == Wanted(desired) && callsAgain == 0
  {
    var latest := server.Observe();
    ghost var plan;
    ok, plan := CustomUpdateCacheParameterGroup(server, desired, latest);
    callsAgain := 0;
    if ok {
      var calls := |server.log|;
      latest := server.Observe();
      ok, plan := CustomUpdateCacheParameterGroup(server, desired, latest);
      callsAgain := |server.log| - calls;
    }
  }

  // ------------------------------------------------ reading by pages

  datatype Page = Page(parameters: seq<Parameter>, marker: Option<string>)

  datatype ReadError = GroupNotFound | DescribeFailed

  /** The answer of the describe call for a marker, `None` being the first call. */
  type Describe = Option<string> -> Result<Page, ReadError>

  predicate LastPage(p: Page) {
    p.parameters == [] || p.marker == None || p.marker == Some("")
  }

  /** The pages from a marker on: each but the last holds parameters and names the next; the
      chain ends at the first empty page or missing marker, or in a failed call. */
  ghost predicate IsChain(describe: Describe, marker: Option<string>, pages: seq<Page>, failure: Option<ReadError>)
    decreases |pages|
  {
    if pages == [] then failure.Some? && describe(marker) == Err(failure.value)
    else
      && describe(marker) == Ok(pages[0])
      && if LastPage(pages[0]) then |pages| == 1 && failure == None
         else IsChain(describe, pages[0].marker, pages[1..], failure)
  }

  function Flatten(pages: seq<Page>): seq<Parameter> {
    if pages == [] then [] else pages[0].parameters + Flatten(pages[1..])
  }

  /** Pages are concatenated in order. */
  lemma {:induction false} FlattenAppend(a: seq<Page>, b: seq<Page>)
    ensures Flatten(a + b) == Flatten(a) + Flatten(b)
    ensures |a| == 1 ==> Flatten(a) == a[0].parameters
  {
    if a == [] {
      assert a + b == b;
    } else {
      FlattenAppend(a[1..], b);
      assert (a + b)[1..] == a[1..] + b;
      if |a| == 1 {
        assert a[1..] == [];
      }
    }
  }

  method AppendAll(to: seq<Parameter>, from: seq<Parameter>) returns (r: seq<Parameter>)
    ensures r == to + from
  {
    r := to;
    for i := 0 to |from|
      invariant r == to + from[..i]
    {
      r := r + [from[i]];
    }
  }

  lemma ChainStep(describe: Describe, marker: Option<string>, pages: seq<Page>, failure: Option<ReadError>)
    requires IsChain(describe, marker, pages, failure) && describe(marker).Ok?
    ensures pages != [] && pages[0] == describe(marker).value
    ensures Flatten(pages) == pages[0].parameters + Flatten(pages[1..])
    ensures if LastPage(pages[0]) then Flatten(pages[1..]) == [] && failure == None
            else IsChain(describe, pages[0].marker, pages[1..], failure)
  {
  }

  /** Follows the markers. On every server whose chain of markers is finite the loop ends, and
      yields the pages' parameters in chain order, or the failure that cut the chain short. */
  method DescribeCacheParameters(describe: Describe, ghost pages: seq<Page>, ghost failure: Option<ReadError>)
    returns (r: Result<seq<Parameter>, ReadError>)
    requires IsChain(describe, None, pages, failure)
    ensures failure.Some? ==> r == Err(failure.value)
    ensures failure == None ==> r == Ok(Flatten(pages))
  {
    var parameters: seq<Parameter> := [];
    var marker: Option<string> := None;
    ghost var left, whole := pages, Flatten(pages);
    while true
      invariant IsChain(describe, marker, left, failure)
      invariant whole == parameters + Flatten(left)
      decreases |left|
    {
      var response := describe(marker);
      if response.Err? {
        return Err(response.error);
      }
      ChainStep(describe, marker, left, failure);
      ghost var page, tail := response.value.parameters, Flatten(left[1..]);
      assert whole == (parameters + page) + tail;
      if response.value.parameters == [] {
        assert whole == parameters;
        break;
      }
      parameters := AppendAll(parameters, response.value.parameters);
      marker := response.value.marker;
      if marker == None || marker == Some("") {
        assert whole == parameters;
        break;
      }
      left := left[1..];
    }
    return Ok(parameters);
  }

  /** A server has at most one chain, so what is read does not depend on how it is described. */
  lemma {:induction false} OneChain(describe: Describe, marker: Option<string>,
                                       p: seq<Page>, f: Option<ReadError>, q: seq<Page>, g: Option<ReadError>)
    requires IsChain(describe, marker, p, f) && IsChain(describe, marker, q, g)
    ensures p == q && f == g
    decreases |p|
  {
    if p != [] && q != [] && !LastPage(p[0]) {
      OneChain(describe, p[0].marker, p[1..], f, q[1..], g);
      assert p == [p[0]] + p[1..] && q == [q[0]] + q[1..];
    }
  }
}
