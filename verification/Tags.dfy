/** Resource tags: lists and maps of them (`pkg/resource/cache_cluster/tags.go`, the same in
    every resource package), the mirroring of AWS-managed tags
    (`pkg/resource/cache_cluster/manager.go`) and the add / requeue / remove protocol
    (`pkg/util/tags.go`). */
module Tags {
  import opened Wrappers

  datatype Tag = Tag(key: Option<string>, value: Option<string>)

  type TagMap = map<string, string>

  // ------------------------------------------------ what a list of tags means

  /** The map a list denotes: entries without a key are skipped, a missing value is "", and
      a later entry overrides an earlier one. */
  function ToMap(tags: seq<Tag>): TagMap {
    if tags == [] then map[]
    else
      var t := tags[|tags| - 1];
      var m := ToMap(tags[..|tags| - 1]);
      if t.key.Some? then m[t.key.value := t.value.GetOr("")] else m
  }

  function KeyOrder(tags: seq<Tag>): seq<string> {
    if tags == [] then []
    else
      var t := tags[|tags| - 1];
      KeyOrder(tags[..|tags| - 1]) + (if t.key.Some? then [t.key.value] else [])
  }

  /** Where the key of entry `p` comes in the key order: after those of the entries before it. */
  function KeyAt(tags: seq<Tag>, p: nat): nat
    requires p <= |tags|
  {
    |KeyOrder(tags[..p])|
  }

  /** Position of the first occurrence of `k`. */
  function FirstIndex(keys: seq<string>, k: string): nat
    requires k in keys
    ensures FirstIndex(keys, k) < |keys| && keys[FirstIndex(keys, k)] == k
    ensures forall i :: 0 <= i < FirstIndex(keys, k) ==> keys[i] != k
  {
    if keys[0] == k then 0 else 1 + FirstIndex(keys[1..], k)
  }

  predicate IsAws(k: string) {
    "aws:" <= k
  }

  function Entry(m: TagMap, k: string): Tag
    requires k in m
  {
    Tag(Some(k), Some(m[k]))
  }

  /** `r` lists the map `m`: every key once, with its value. */
  ghost predicate ListsOnce(r: seq<Tag>, m: TagMap) {
    && (forall i :: 0 <= i < |r| ==> r[i].key.Some? && r[i].key.value in m && r[i] == Entry(m, r[i].key.value))
    && (forall i, j :: 0 <= i < j < |r| ==> r[i].key != r[j].key)
    && (forall k :: k in m ==> Entry(m, k) in r)
  }

  /** `r` lists the map `m`; the keys named in `order` come first, by first occurrence there,
      and the rest follow in any order. */
  ghost predicate Lists(r: seq<Tag>, m: TagMap, order: seq<string>) {
    && ListsOnce(r, m)
    && (forall i, j :: 0 <= i < j < |r| && r[j].key.value in order ==>
          r[i].key.value in order
          && FirstIndex(order, r[i].key.value) < FirstIndex(order, r[j].key.value))
  }

  // ------------------------------------------------ lists and maps

  /** A Go map value: passed by reference, and changed by the functions it is passed to. */
  class AckTags {
    var entries: TagMap

    constructor (m: TagMap)
      ensures entries == m
    {
      entries := m;
    }
  }

  method ConvertToOrderedACKTags(tags: seq<Tag>) returns (result: AckTags, keyOrder: seq<string>)
    ensures fresh(result)
    ensures result.entries == ToMap(tags)
    ensures keyOrder == KeyOrder(tags)
    ensures forall p :: 0 <= p < |tags| && tags[p].key.Some? ==>
              KeyAt(tags, p) < |keyOrder| && keyOrder[KeyAt(tags, p)] == tags[p].key.value
  {
    result := new AckTags(map[]);
    keyOrder := [];
    for i := 0 to |tags|
      invariant result.entries == ToMap(tags[..i])
      invariant keyOrder == KeyOrder(tags[..i])
    {
      assert tags[..i + 1][..i] == tags[..i];
      var t := tags[i];
      if t.key.Some? {
        keyOrder := keyOrder + [t.key.value];
        if t.value.Some? {
          result.entries := result.entries[t.key.value := t.value.value];
        } else {
          result.entries := result.entries[t.key.value := ""];
        }
      }
    }
    assert tags[..|tags|] == tags;
    forall p | 0 <= p < |tags| && tags[p].key.Some?
      ensures KeyAt(tags, p) < |keyOrder| && keyOrder[KeyAt(tags, p)] == tags[p].key.value
    {
      KeyOrderAt(tags, p);
    }
  }

  /** The ordered part of the listing, and what it leaves of the map. */
  ghost predicate ListsSoFar(r: seq<Tag>, m: TagMap, left: TagMap, order: seq<string>, i: nat)
    requires i <= |order|
  {
    && left == m - (set k | k in order[..i])
    && (forall j :: 0 <= j < |r| ==>
          (r[j].key.Some? && r[j].key.value in m
           && r[j] == Entry(m, r[j].key.value) && r[j].key.value in order[..i]))
    && (forall k :: k in m && k in order[..i] ==> Entry(m, k) in r)
    && (forall a, b :: 0 <= a < b < |r| ==>
          FirstIndex(order, r[a].key.value) < FirstIndex(order, r[b].key.value))
  }

  /** Lists the map, ordered keys first; the ordered keys are deleted from the passed map. */
  method FromACKTags(tags: AckTags, keyOrder: seq<string>) returns (result: seq<Tag>)
    modifies tags
    ensures Lists(result, old(tags.entries), keyOrder)
    ensures tags.entries == old(tags.entries) - (set k | k in keyOrder)
  {
    ghost var m := tags.entries;
    result := [];
    for i := 0 to |keyOrder|
      invariant ListsSoFar(result, m, tags.entries, keyOrder, i)
    {
      OrderedStep(result, m, tags.entries, keyOrder, i);
      var k := keyOrder[i];
      if k in tags.entries {
        result := result + [Tag(Some(k), Some(tags.entries[k]))];
        tags.entries := tags.entries - {k};
      }
    }
    assert keyOrder[..|keyOrder|] == keyOrder;
    var others := ListOf(tags.entries);
    OrderedThenOthers(result, others, m, tags.entries, keyOrder);
    result := result + others;
  }

  lemma OrderedStep(r: seq<Tag>, m: TagMap, left: TagMap, order: seq<string>, i: nat)
    requires i < |order| && ListsSoFar(r, m, left, order, i)
    ensures var k := order[i];
            if k in left then ListsSoFar(r + [Tag(Some(k), Some(left[k]))], m, left - {k}, order, i + 1)
            else ListsSoFar(r, m, left, order, i + 1)
  {
    var k := order[i];
    assert order[..i + 1] == order[..i] + [k];
    if k in left {
      FirstIndexAt(order, i);
      FirstIndicesBelow(order, i, r, m);
    }
  }

  lemma OrderedThenOthers(r: seq<Tag>, others: seq<Tag>, m: TagMap, left: TagMap, order: seq<string>)
    requires ListsSoFar(r, m, left, order, |order|)
    requires ListsOnce(others, left)
    ensures Lists(r + others, m, order)
  {
    assert order[..|order|] == order;
    var all := r + others;
    forall i | 0 <= i < |all|
      ensures all[i].key.Some? && all[i].key.value in m && all[i] == Entry(m, all[i].key.value)
      ensures all[i].key.value in order <==> i < |r|
    {
      if i >= |r| {
        assert all[i] == others[i - |r|];
      }
    }
    forall k | k in m
      ensures Entry(m, k) in all
    {
      if k !in order {
        assert Entry(left, k) in others;
      }
    }
    forall i, j | 0 <= i < j < |all|
      ensures all[i].key != all[j].key
    {
      if i >= |r| {
        assert all[i] == others[i - |r|] && all[j] == others[j - |r|];
      }
    }
  }

  lemma FirstIndexAt(order: seq<string>, i: nat)
    requires i < |order| && order[i] !in order[..i]
    ensures FirstIndex(order, order[i]) == i
  {
    var f := FirstIndex(order, order[i]);
  }

  lemma FirstIndicesBelow(order: seq<string>, i: nat, r: seq<Tag>, m: TagMap)
    requires i < |order|
    requires forall j :: 0 <= j < |r| ==> r[j].key.Some? && r[j].key.value in order[..i]
    ensures forall j :: 0 <= j < |r| ==> FirstIndex(order, r[j].key.value) < i
  {
    forall j | 0 <= j < |r|
      ensures FirstIndex(order, r[j].key.value) < i
    {
      var p :| 0 <= p < i && order[..i][p] == r[j].key.value;
      assert order[p] == r[j].key.value;
    }
  }

  // ------------------------------------------------ round trips

  lemma {:induction false} ToMapLookup(tags: seq<Tag>, i: nat)
    requires i < |tags| && tags[i].key.Some?
    requires forall j :: i < j < |tags| ==> tags[j].key != tags[i].key
    ensures tags[i].key.value in ToMap(tags)
    ensures ToMap(tags)[tags[i].key.value] == tags[i].value.GetOr("")
  {
    if i < |tags| - 1 {
      var front := tags[..|tags| - 1];
      assert front[i] == tags[i];
      ToMapLookup(front, i);
    }
  }

  lemma {:induction false} ToMapKeys(tags: seq<Tag>)
    ensures forall k :: k in ToMap(tags) <==> k in KeyOrder(tags)
    ensures forall k :: k in ToMap(tags) <==> exists i :: 0 <= i < |tags| && tags[i].key == Some(k)
  {
    if tags != [] {
      var n := |tags| - 1;
      var front := tags[..n];
      ToMapKeys(front);
      forall k
        ensures k in ToMap(tags) <==> exists i :: 0 <= i < |tags| && tags[i].key == Some(k)
      {
        if k in ToMap(front) {
          var i :| 0 <= i < |front| && front[i].key == Some(k);
          assert tags[i].key == Some(k);
        }
        if i :| 0 <= i < |tags| && tags[i].key == Some(k) && i < n {
          assert front[i].key == Some(k);
        }
      }
    }
  }

  lemma ListedKeyIsFound(r: seq<Tag>, m: TagMap, k: string)
    requires ListsOnce(r, m) && k in m
    ensures k in ToMap(r) && ToMap(r)[k] == m[k]
  {
    var i :| 0 <= i < |r| && r[i] == Entry(m, k);
    ToMapLookup(r, i);
  }

  /** Map to list and back: every listing of a map, whatever the key order, denotes the map. */
  lemma ListingRoundTrip(r: seq<Tag>, m: TagMap)
    requires ListsOnce(r, m)
    ensures ToMap(r) == m
  {
    forall k | k in m
      ensures k in ToMap(r) && ToMap(r)[k] == m[k]
    {
      ListedKeyIsFound(r, m, k);
    }
    ToMapKeys(r);
    forall k | k in ToMap(r)
      ensures k in m
    {
      var i :| 0 <= i < |r| && r[i].key == Some(k);
    }
  }

  predicate HasKey(tags: seq<Tag>, k: Option<string>) {
    exists p :: 0 <= p < |tags| && tags[p].key == k
  }

  lemma ListsSameKeys(tags: seq<Tag>, r: seq<Tag>)
    requires ListsOnce(r, ToMap(tags))
    ensures forall i :: 0 <= i < |r| ==> HasKey(tags, r[i].key)
    ensures forall p :: 0 <= p < |tags| && tags[p].key.Some? ==> HasKey(r, tags[p].key)
  {
    ToMapKeys(tags);
    forall i | 0 <= i < |r| ensures HasKey(tags, r[i].key) {
      assert r[i].key.value in ToMap(tags);
    }
    forall p | 0 <= p < |tags| && tags[p].key.Some? ensures HasKey(r, tags[p].key) {
      assert tags[p].key.value in ToMap(tags);
      assert Entry(ToMap(tags), tags[p].key.value) in r;
    }
  }

  /** List to map to list: what comes back is the list without its repetitions. Each key keeps
      its first position and its last value, and a missing value has become "". */
  lemma ListRoundTrip(tags: seq<Tag>, r: seq<Tag>)
    requires Lists(r, ToMap(tags), KeyOrder(tags))
    ensures forall i :: 0 <= i < |r| ==> r[i].key.Some? && HasKey(tags, r[i].key)
    ensures forall p :: 0 <= p < |tags| && tags[p].key.Some? ==> HasKey(r, tags[p].key)
    ensures KeepsOrder(tags, r)
    ensures forall i, p :: 0 <= i < |r| && 0 <= p < |tags| && tags[p].key == r[i].key
              && (forall q :: p < q < |tags| ==> tags[q].key != tags[p].key)
              ==> r[i].value == Some(tags[p].value.GetOr(""))
  {
    ToMapKeys(tags);
    ListsKeepsOrder(tags, r, ToMap(tags));
    ListsSameKeys(tags, r);
    forall i, p | 0 <= i < |r| && 0 <= p < |tags| && tags[p].key == r[i].key
                  && (forall q :: p < q < |tags| ==> tags[q].key != tags[p].key)
      ensures r[i].value == Some(tags[p].value.GetOr(""))
    {
      ToMapLookup(tags, p);
    }
  }

  // ------------------------------------------------ the order of the keys

  /** The key order lists the keys of the entries, in the order of the entries. */
  lemma {:induction false} KeyOrderAt(tags: seq<Tag>, p: nat)
    requires p < |tags| && tags[p].key.Some?
    ensures KeyAt(tags, p) < |KeyOrder(tags)| && KeyOrder(tags)[KeyAt(tags, p)] == tags[p].key.value
  {
    var n := |tags| - 1;
    if p < n {
      KeyOrderAt(tags[..n], p);
      assert tags[..n][..p] == tags[..p];
    }
  }

  lemma {:induction false} KeyOrderGrows(tags: seq<Tag>, p: nat, q: nat)
    requires p < q <= |tags| && tags[p].key.Some?
    ensures KeyAt(tags, p) < KeyAt(tags, q)
    decreases q
  {
    assert tags[..q][..q - 1] == tags[..q - 1];
    if p < q - 1 {
      KeyOrderGrows(tags, p, q - 1);
    }
  }

  /** Entry `p` is the first with key `k`. */
  ghost predicate FirstAt(tags: seq<Tag>, k: Option<string>, p: int) {
    0 <= p < |tags| && tags[p].key == k && forall q :: 0 <= q < p ==> tags[q].key != k
  }

  lemma FirstIndexOfFirst(tags: seq<Tag>, k: string, p: nat)
    requires FirstAt(tags, Some(k), p)
    ensures k in KeyOrder(tags) && FirstIndex(KeyOrder(tags), k) == KeyAt(tags, p)
  {
    KeyOrderAt(tags, p);
    var order, front := KeyOrder(tags), KeyOrder(tags[..p]);
    KeyOrderPrefix(tags, p);
    ToMapKeys(tags[..p]);
    forall i | 0 <= i < |front| ensures order[i] != k {
      assert front[i] in front;
    }
    assert order[|front|] == k;
  }

  lemma {:induction false} KeyOrderPrefix(tags: seq<Tag>, p: nat)
    requires p <= |tags|
    ensures KeyOrder(tags[..p]) <= KeyOrder(tags)
  {
    if p == |tags| {
      assert tags[..p] == tags;
    } else {
      var n := |tags| - 1;
      KeyOrderPrefix(tags[..n], p);
      assert tags[..n][..p] == tags[..p];
    }
  }

  lemma {:induction false} FirstExists(tags: seq<Tag>, k: string) returns (p: nat)
    requires k in KeyOrder(tags)
    ensures FirstAt(tags, Some(k), p)
  {
    var n := |tags| - 1;
    if k in KeyOrder(tags[..n]) {
      p := FirstExists(tags[..n], k);
    } else {
      p := n;
      ToMapKeys(tags[..n]);
      forall q | 0 <= q < n ensures tags[q].key != Some(k) {
        assert tags[..n][q] == tags[q];
      }
    }
  }

  /** If `l` is a key of the list, so is `k`, and its first entry comes earlier. */
  ghost predicate Precedes(tags: seq<Tag>, k: Option<string>, l: Option<string>) {
    forall q :: FirstAt(tags, l, q) ==> exists p :: FirstAt(tags, k, p) && p < q
  }

  /** The keys that `before` has come first in `after`, in the order of their first entries. */
  ghost predicate KeepsOrder(before: seq<Tag>, after: seq<Tag>) {
    forall i, j :: 0 <= i < j < |after| ==> Precedes(before, after[i].key, after[j].key)
  }

  /** A listing by the keys of a list keeps that list's order. */
  lemma ListsKeepsOrder(tags: seq<Tag>, r: seq<Tag>, m: TagMap)
    requires Lists(r, m, KeyOrder(tags))
    ensures KeepsOrder(tags, r)
  {
    forall i, j | 0 <= i < j < |r|
      ensures Precedes(tags, r[i].key, r[j].key)
    {
      ListedPrecedes(tags, r, m, i, j);
    }
  }

  lemma ListedPrecedes(tags: seq<Tag>, r: seq<Tag>, m: TagMap, i: nat, j: nat)
    requires Lists(r, m, KeyOrder(tags)) && i < j < |r|
    ensures Precedes(tags, r[i].key, r[j].key)
  {
    var k, l := r[i].key.value, r[j].key.value;
    forall q | FirstAt(tags, Some(l), q)
      ensures exists p :: FirstAt(tags, Some(k), p) && p < q
    {
      FirstIndexOfFirst(tags, l, q);
      var p := FirstExists(tags, k);
      FirstIndexOfFirst(tags, k, p);
      if q < p {
        KeyOrderGrows(tags, q, p);
      }
      assert k != l;
      assert p != q;
    }
  }

  // ------------------------------------------------ AWS-managed and system tags

  /** `desired` with every AWS-managed tag of `latest` written over it. */
  ghost function Mirrored(desired: TagMap, latest: TagMap): TagMap {
    desired + map k | k in latest && IsAws(k) :: latest[k]
  }

  /** The mirroring with the keys in `rest` still to come. */
  ghost predicate PartlyMirrored(m: TagMap, desired: TagMap, latest: TagMap, rest: set<string>) {
    && (forall k :: k in m <==> k in desired || (k in latest && IsAws(k) && k !in rest))
    && (forall k :: k in m ==> m[k] == if k in latest && IsAws(k) && k !in rest then latest[k] else desired[k])
  }

  lemma MirrorStep(m: TagMap, desired: TagMap, latest: TagMap, rest: set<string>, k: string)
    requires k in rest && k in latest && PartlyMirrored(m, desired, latest, rest)
    ensures PartlyMirrored(if IsAws(k) then m[k := latest[k]] else m, desired, latest, rest - {k})
  {
  }

  lemma MirrorEnds(m: TagMap, desired: TagMap, latest: TagMap)
    requires PartlyMirrored(m, desired, latest, {})
    ensures m == Mirrored(desired, latest)
  {
  }

  ghost function Managed(m: TagMap, systemTags: seq<string>): TagMap {
    map k | k in m && !IsAws(k) && k !in systemTags :: m[k]
  }

  method SyncAWSTags(a: AckTags, b: AckTags)
    requires a != b
    modifies a
    ensures a.entries == Mirrored(old(a.entries), b.entries)
  {
    ghost var before := a.entries;
    var latest := b.entries;
    var rest := latest.Keys;
    while rest != {}
      invariant rest <= latest.Keys && PartlyMirrored(a.entries, before, latest, rest)
      decreases |rest|
    {
      var k :| k in rest;
      MirrorStep(a.entries, before, latest, rest, k);
      rest := rest - {k};
      if IsAws(k) {
        a.entries := a.entries[k := latest[k]];
      }
    }
    MirrorEnds(a.entries, before, latest);
  }

  method IgnoreSystemTags(tags: AckTags, systemTags: seq<string>)
    modifies tags
    ensures tags.entries == Managed(old(tags.entries), systemTags)
  {
    ghost var m := tags.entries;
    var rest := tags.entries.Keys;
    while rest != {}
      invariant rest <= tags.entries.Keys <= m.Keys
      invariant tags.entries == map k | k in m && (k in rest || (!IsAws(k) && k !in systemTags)) :: m[k]
      decreases |rest|
    {
      var k :| k in rest;
      rest := rest - {k};
      if IsAws(k) || k in systemTags {
        tags.entries := tags.entries - {k};
      }
    }
  }

  class Resource {
    var tags: seq<Tag>

    constructor (tags: seq<Tag>)
      ensures this.tags == tags
    {
      this.tags := tags;
    }
  }

  /** Copies the AWS-managed tags of `b` into `a`; nothing happens if either is missing. */
  method MirrorAWSTags(a: Resource?, b: Resource?)
    modifies a
    ensures a != null && b == null ==> a.tags == old(a.tags)
    ensures a != null && b != null ==>
              && Lists(a.tags, Mirrored(ToMap(old(a.tags)), ToMap(old(b.tags))), KeyOrder(old(a.tags)))
              && KeepsOrder(old(a.tags), a.tags)
  {
    if a == null || b == null {
      return;
    }
    var desiredTags, desiredTagKeyOrder := ConvertToOrderedACKTags(a.tags);
    var latestTags, _ := ConvertToOrderedACKTags(b.tags);
    SyncAWSTags(desiredTags, latestTags);
    a.tags := FromACKTags(desiredTags, desiredTagKeyOrder);
    ListsKeepsOrder(old(a.tags), a.tags, Mirrored(ToMap(old(a.tags)), ToMap(old(b.tags))));
  }

  method FilterSystemTags(r: Resource?, systemTags: seq<string>)
    modifies r
    ensures r != null ==>
              && Lists(r.tags, Managed(ToMap(old(r.tags)), systemTags), KeyOrder(old(r.tags)))
              && KeepsOrder(old(r.tags), r.tags)
              && (forall k :: k in ToMap(r.tags) <==>
                    k in ToMap(old(r.tags)) && !("aws:" <= k) && k !in systemTags)
              && (forall k :: k in ToMap(r.tags) ==> ToMap(r.tags)[k] == ToMap(old(r.tags))[k])
  {
    if r == null {
      return;
    }
    var resourceTags, tagKeyOrder := ConvertToOrderedACKTags(r.tags);
    IgnoreSystemTags(resourceTags, systemTags);
    r.tags := FromACKTags(resourceTags, tagKeyOrder);
    ListsKeepsOrder(old(r.tags), r.tags, Managed(ToMap(old(r.tags)), systemTags));
    ListingRoundTrip(r.tags, Managed(ToMap(old(r.tags)), systemTags));
  }

  // ------------------------------------------------ the tagging protocol

  datatype TagRequest = AddTags(tags: seq<Tag>) | RemoveTags(keys: seq<string>)
  {
    ghost predicate Mentions(k: string) {
      match this
      case AddTags(ts) => k in ToMap(ts)
      case RemoveTags(ks) => k in ks
    }
  }

  datatype SyncError = TagUpdateInProgress | TagApiFailed

  /** The tagging side of AWS: each request is recorded, and is either applied or refused;
      refusals are counted. */
  class TagServer {
    var tags: TagMap
    var log: seq<TagRequest>
    ghost var refused: nat

    constructor (tags: TagMap)
      ensures this.tags == tags && log == [] && refused == 0
    {
      this.tags := tags;
      log := [];
      refused := 0;
    }

    method AddTagsToResource(toAdd: seq<Tag>) returns (ok: bool)
      modifies this
      ensures log == old(log) + [AddTags(toAdd)]
      ensures tags == if ok then old(tags) + ToMap(toAdd) else old(tags)
      ensures refused == old(refused) + (if ok then 0 else 1)
    {
      log := log + [AddTags(toAdd)];
      ok := *;
      if ok {
        tags := tags + ToMap(toAdd);
      } else {
        refused := refused + 1;
      }
    }

    method RemoveTagsFromResource(toRemove: seq<string>) returns (ok: bool)
      modifies this
      ensures log == old(log) + [RemoveTags(toRemove)]
      ensures tags == if ok then old(tags) - (set k | k in toRemove) else old(tags)
      ensures refused == old(refused) + (if ok then 0 else 1)
    {
      log := log + [RemoveTags(toRemove)];
      ok := *;
      if ok {
        tags := tags - (set k | k in toRemove);
      } else {
        refused := refused + 1;
      }
    }
  }

  /** The entries of `to` that `from` lacks, or has with another value. */
  function Added(from: TagMap, to: TagMap): TagMap {
    map k | k in to && (k !in from || from[k] != to[k]) :: to[k]
  }

  /** The entries of `from` that `to` lacks, or has with another value. */
  function Removed(from: TagMap, to: TagMap): TagMap {
    map k | k in from && (k !in to || to[k] != from[k]) :: from[k]
  }

  /** The request of a round: all additions and changes, or, when there are none, all removals. */
  ghost predicate IsRoundRequest(req: TagRequest, from: TagMap, to: TagMap) {
    match req
    case AddTags(ts) => ToMap(ts) == Added(from, to) != map[]
    case RemoveTags(ks) => Added(from, to) == map[] && (set k | k in ks) == from.Keys - to.Keys != {}
  }

  /** What one successful round makes of the observed tags. */
  ghost function AfterRound(from: TagMap, to: TagMap): TagMap {
    if Added(from, to) != map[] then from + Added(from, to)
    else from - (from.Keys - to.Keys)
  }

  /** One round: adds what is new or changed, or else removes what is no longer wanted, and
      always asks to be called again. */
  method SyncTags(server: TagServer, desiredTags: seq<Tag>, latestTags: seq<Tag>) returns (err: SyncError)
    modifies server
    ensures old(server.log) <= server.log
    ensures |server.log| == |old(server.log)| + (if ToMap(desiredTags) == ToMap(latestTags) then 0 else 1)
    ensures err == TagApiFailed ==> server.tags == old(server.tags) && server.log != old(server.log)
    ensures server.refused == old(server.refused) + (if err == TagApiFailed then 1 else 0)
    ensures err == TagUpdateInProgress && old(server.tags) == ToMap(latestTags) ==>
              server.tags == AfterRound(ToMap(latestTags), ToMap(desiredTags))
    ensures server.log != old(server.log) ==>
              IsRoundRequest(server.log[|old(server.log)|], ToMap(latestTags), ToMap(desiredTags))
  {
    var from, _ := ConvertToOrderedACKTags(latestTags);
    var to, _ := ConvertToOrderedACKTags(desiredTags);
    var added, removed := Added(from.entries, to.entries), Removed(from.entries, to.entries);
    removed := DropOverwritten(removed, added);
    assert removed.Keys == from.entries.Keys - to.entries.Keys;
    NothingAdded(from.entries, to.entries);

    if |added| > 0 {
      var toAdd := ListOf(added);
      ListingRoundTrip(toAdd, added);
      var ok := server.AddTagsToResource(toAdd);
      if !ok {
        return TagApiFailed;
      }
    } else if |removed| > 0 {
      var toRemove := KeysOf(removed);
      var ok := server.RemoveTagsFromResource(toRemove);
      if !ok {
        return TagApiFailed;
      }
    } else {
      assert from.entries.Keys - to.entries.Keys == {};
    }
    return TagUpdateInProgress;
  }

  /** Deletes from `removed`, while ranging over it, the keys that are added anyway. */
  method DropOverwritten(removed: TagMap, added: TagMap) returns (r: TagMap)
    ensures r == removed - added.Keys
  {
    r := removed;
    var rest := removed.Keys;
    while rest != {}
      invariant rest <= r.Keys
      invariant r == map k | k in removed && (k in rest || k !in added) :: removed[k]
      decreases |rest|
    {
      var k :| k in rest;
      rest := rest - {k};
      if k in added {
        r := r - {k};
      }
    }
  }

  /** Lists a map in whatever order its iteration yields the keys. */
  method ListOf(m: TagMap) returns (r: seq<Tag>)
    ensures ListsOnce(r, m)
  {
    r := [];
    var rest := m.Keys;
    while rest != {}
      invariant rest <= m.Keys
      invariant forall i :: 0 <= i < |r| ==>
                  (r[i].key.Some? && r[i].key.value in m.Keys - rest && r[i] == Entry(m, r[i].key.value))
      invariant forall i, j :: 0 <= i < j < |r| ==> r[i].key != r[j].key
      invariant forall k :: k in m && k !in rest ==> Entry(m, k) in r
      decreases |rest|
    {
      var k :| k in rest;
      r := r + [Tag(Some(k), Some(m[k]))];
      rest := rest - {k};
    }
  }

  method KeysOf(m: TagMap) returns (r: seq<string>)
    ensures (set k | k in r) == m.Keys
    ensures forall i, j :: 0 <= i < j < |r| ==> r[i] != r[j]
  {
    r := [];
    var rest := m.Keys;
    while rest != {}
      invariant rest <= m.Keys
      invariant forall i :: 0 <= i < |r| ==> r[i] in m && r[i] !in rest
      invariant forall k :: k in m && k !in rest ==> k in r
      invariant forall i, j :: 0 <= i < j < |r| ==> r[i] != r[j]
      decreases |rest|
    {
      var k :| k in rest;
      r := r + [k];
      rest := rest - {k};
    }
  }

  /** How many more successful rounds the observed tags are away from the desired ones. */
  ghost function TagDistance(from: TagMap, to: TagMap): nat {
    (if Added(from, to) != map[] then 1 else 0) + (if from.Keys <= to.Keys then 0 else 1)
  }

  /** Every successful round with something to do brings the tags one round nearer, and no
      tag the desired state names is ever taken away. */
  lemma TagRoundProgress(from: TagMap, to: TagMap)
    ensures TagDistance(from, to) == 0 <==> from == to
    ensures from != to ==> TagDistance(AfterRound(from, to), to) == TagDistance(from, to) - 1
    ensures from == to ==> AfterRound(from, to) == from
    ensures from.Keys * to.Keys <= AfterRound(from, to).Keys
  {
    var next := AfterRound(from, to);
    NothingAdded(from, to);
    if Added(from, to) != map[] {
      NothingAdded(next, to);
      assert next.Keys == from.Keys + Added(from, to).Keys;
    } else {
      NothingAdded(next, to);
      if from.Keys <= to.Keys {
        assert from == to;
        assert next == from;
      }
    }
  }

  lemma NothingAdded(from: TagMap, to: TagMap)
    ensures Added(from, to) == map[] <==> forall k :: k in to ==> k in from && from[k] == to[k]
    ensures Added(from, to) == map[] && from.Keys <= to.Keys ==> from == to
  {
    if k :| k in to && !(k in from && from[k] == to[k]) {
      assert k in Added(from, to);
    }
    if Added(from, to) == map[] && from.Keys <= to.Keys {
      assert from.Keys == to.Keys;
    }
  }

  /** The tags after a run of rounds, `outcomes` saying which requests AWS applied. */
  ghost function TagRun(tags: TagMap, to: TagMap, outcomes: seq<bool>): TagMap
    decreases |outcomes|
  {
    if outcomes == [] then tags
    else TagRun(if outcomes[0] then AfterRound(tags, to) else tags, to, outcomes[1..])
  }

  function Successes(outcomes: seq<bool>): nat {
    if outcomes == [] then 0 else (if outcomes[0] then 1 else 0) + Successes(outcomes[1..])
  }

  /** From any tags to any others: two successful rounds are enough, whatever fails between. */
  lemma {:induction false} TagRunConverges(tags: TagMap, to: TagMap, outcomes: seq<bool>)
    requires Successes(outcomes) >= TagDistance(tags, to)
    ensures TagRun(tags, to, outcomes) == to
    ensures TagDistance(tags, to) <= 2
    decreases |outcomes|
  {
    TagRoundProgress(tags, to);
    if outcomes != [] {
      TagRunConverges(if outcomes[0] then AfterRound(tags, to) else tags, to, outcomes[1..]);
    }
  }

  /** With the AWS-managed tags mirrored into the desired tags, a round never adds, overwrites
      or removes one of them, and the user's own tags are as they were. */
  lemma AwsTagsAreProtected(desired: TagMap, latest: TagMap)
    ensures var to := Mirrored(desired, latest);
            && (forall k :: k in latest && IsAws(k) ==>
                  k !in Added(latest, to) && k !in latest.Keys - to.Keys
                  && k in AfterRound(latest, to) && AfterRound(latest, to)[k] == latest[k])
            && (forall k :: k in desired && !(k in latest && IsAws(k)) ==> k in to && to[k] == desired[k])
            && (forall k :: k in to && k !in desired ==> k in latest && IsAws(k))
  {
  }

  /** No AWS-managed tag was lost or changed, and no request names one. */
  ghost predicate AwsTagsKept(before: TagMap, after: TagMap, requests: seq<TagRequest>) {
    && (forall k :: k in before && IsAws(k) ==> k in after && after[k] == before[k])
    && (forall i, k :: 0 <= i < |requests| && k in before && IsAws(k) ==> !requests[i].Mentions(k))
  }

  lemma NoRequestNamesAwsTags(req: TagRequest, desired: TagMap, latest: TagMap, k: string)
    requires IsRoundRequest(req, latest, Mirrored(desired, latest))
    requires k in latest && IsAws(k)
    ensures !req.Mentions(k)
  {
    AwsTagsAreProtected(desired, latest);
    if req.RemoveTags? {
      assert k !in (set x | x in req.keys);
    }
  }

  lemma MirroredRoundKeepsAwsTags(desired: TagMap, latest: TagMap, after: TagMap, requests: seq<TagRequest>)
    requires after == latest || after == AfterRound(latest, Mirrored(desired, latest))
    requires |requests| <= 1
    requires forall i :: 0 <= i < |requests| ==> IsRoundRequest(requests[i], latest, Mirrored(desired, latest))
    ensures AwsTagsKept(latest, after, requests)
  {
    AwsTagsAreProtected(desired, latest);
    forall i, k | 0 <= i < |requests| && k in latest && IsAws(k)
      ensures !requests[i].Mentions(k)
    {
      NoRequestNamesAwsTags(requests[i], desired, latest, k);
    }
  }

  /** Reading a resource and then synchronising its tags. The observed tags are those on the
      server; every AWS-managed one is still there afterwards with its value, and no request
      names one. */
  method ReadThenSyncTags(server: TagServer, desired: Resource, latest: Resource) returns (err: SyncError)
    requires desired != latest && server.tags == ToMap(latest.tags)
    modifies server, desired
    ensures old(server.log) <= server.log
    ensures AwsTagsKept(old(server.tags), server.tags, server.log[|old(server.log)|..])
  {
    ghost var d, l := ToMap(desired.tags), ToMap(latest.tags);
    MirrorAWSTags(desired, latest);
    ListingRoundTrip(desired.tags, Mirrored(d, l));
    err := SyncTags(server, desired.tags, latest.tags);
    MirroredRoundKeepsAwsTags(d, l, server.tags, server.log[|old(server.log)|..]);
  }

  /** Whatever was mirrored is filtered out again, so it never reaches the user's spec. */
  lemma MirroringIsFiltered(desired: TagMap, latest: TagMap, systemTags: seq<string>)
    ensures Managed(Mirrored(desired, latest), systemTags) == Managed(desired, systemTags)
  {
  }
}
