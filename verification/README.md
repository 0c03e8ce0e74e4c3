# ElastiCache controller: a verified model

The controller makes an AWS ElastiCache resource match a desired spec over many reconcile rounds. A
round compares the desired with the observed state, decides what to send, sends it, and asks to be
called again. This project models the hand-written planners that take those decisions and the
in-place data transformations they rest on, replaces AWS by servers that apply or refuse each
request, and proves what the planners guarantee over one round and over whole runs.

| file | models |
|---|---|
| `GoNumbers.dfy` | `int32`/`int64` conversions, `Itoa`, `ParseInt`, `Atoi`, `%04d` |
| `Deltas.dfy` | the list of differences and the in-place removal of one |
| `EngineVersions.dfy` | parsing and matching of engine versions |
| `Tags.dfy` | tag lists and maps, mirroring of AWS tags, the add / requeue / remove protocol |
| `Conditions.dfy` | the Terminal and Recoverable conditions and the errors that go with them |
| `ParameterGroups.dfy` | parameter-group difference, batched saving, reading by pages |
| `ServerlessCaches.dfy` | the update that changes one field a round |
| `CacheClusters.dfy` | meaningful differences, node ids and zones of a modify request, the tags-first gate |
| `References.dfy` | resolving and clearing references to other resources |
| `ReplicationGroups.dfy` | readiness, replica and shard differences, the record of the last request |
| `ReplicationPayloads.dfy` | the replica, shard and modify requests, and their effect on a server |
| `ReplicationUpdate.dfy` | the update of a replication group, step by step |
| `ReplicationRuns.dfy` | what that update means over whole runs |
| `StringLists.dfy` | lists of nil-able strings |
| `Wrappers.dfy` | nil-able values and `(value, error)` pairs |

A Go pointer is an `Option`; a nil or out-of-bounds access that the Go code does not guard is an
explicit outcome (`Crash`, `Crashed`, `Panicked`), except where "Left out" names a precondition.
Objects whose fields the Go code overwrites are classes (`Delta`, `AckTags`, `Resource`,
`ResourceObject`, `ReplicationGroup`, `ModifyInput`); each AWS side is a class that logs every
request and applies or refuses it nondeterministically. Methods are proved against functions over values, and the run theorems are
lemmas about those functions.

What the proofs show about the code, beyond its intended behaviour:

- **Resharding once per spec** holds over every run for the changes whose answer holds the group
  (`ReshardsAtMostOnce`). The source dereferences the group of a shard answer before it records the
  change, so a change whose answer holds none is made again, in every round if the answers stay that
  way (`ReshardsWithoutLimit`). And the record is JSON with empty lists left out: a spec that gives
  only a per-shard configuration holding an empty, non-nil list never reads back, and its shards can
  be changed in every round even when all answers hold the group, unless it cannot be sent at all.
  `ReshardsOnceExactlyWhen` gives both exact conditions.
- **A change of node type** is requested at most once in the same sense, and without limit if the
  answers hold no group (`NodeTypeOnceExactlyWhen`). Other generated requests repeat the node type
  (`GeneratedCarriesNodeType`).
- **A count given later** to a group whose per-shard configuration is on record is not looked at while
  the configuration stays the same (`EditedConfigurationIsActedOn`). An edited count or configuration
  is otherwise acted on (`EditedCountIsActedOn`).
- **Per-shard replica counts** given to a group that was created with a shard count are never acted
  on while no uniform count is reported to differ: the recorded shard count makes every such
  difference a rejected change (`ShardReplicasNeverChange`).
- **Removing `numNodeGroups`** from a spec whose count was recorded makes every ready round
  dereference nil (or be rejected for its node type) and no request is ever sent again
  (`RemovedCountNeverRecovers`). `CrashesExactlyUnless` says exactly which states an update can crash
  on.
- **A replica answer without a group** is taken for "nothing done", so the same round sends the
  generated modify request as well. It is the only way two requests leave in a round
  (`OneRequestARound`).
- **One replica request converges** exactly when no node group is given two different counts and every
  count fits 32 bits (`OneReplicaRequest`); a uniform count, exactly when it fits
  (`OneUniformReplicaRequest`).
- **New zones of a cache cluster**: the request lists the first entries of the zone list, not the
  added ones. They are the added ones exactly when they are as many and the added zones go through the
  old ones in order, over and over (`NewZones`, `WrongZoneIsSent`). Nothing compares their number with
  the number of new nodes; `NewZones` says exactly when the two agree.
- **Serverless updates** converge exactly when every differing field can be expressed in a request; a
  field that cannot, such as one removed from the spec, also blocks every field of lower priority for
  good (`ConvergesExactlyWhenExpressible`, `InexpressibleBlocks`).
- **Resolving references** goes on after a failed validation and works on the object it is given,
  although its comment announces a copy; clearing then restores the user's spec exactly when that
  spec was valid (`ResolveClearResolve`).
- **Nil security group ids** are skipped by the comparison but dereferenced when the request is built
  (`ModifyPayload`), and a nil zone is "" in an increase request but dereferenced in a decrease or
  shard request (`IncreasePayload`, `DecreasePayload`, `ReshardPayload`).

## Model

| member | source | states |
|---|---|---|
| `ReplicationUpdate.CustomModifyReplicationGroup` | pkg/resource/replication_group/hooks.go:475-590 | One round, written step by step as in the source, sends and returns exactly what the plan of the round says, for every answer of the server; nothing else reaches the API. |
| `ReplicationUpdate.CheckRolledBack` | pkg/resource/replication_group/hooks.go:518-538 | Recognises the three kinds of change that was requested before and is still missing, in their order, and the nil dereferences on the way. |
| `ReplicationUpdate.ModifyReplicationGroup` | pkg/resource/replication_group/hooks.go:596-645 | Sends a modify request only if the spec gives security groups or a version and one of four fields differs; otherwise leaves the round to the generated request. |
| `ReplicationUpdate.UpdateReplicaCount` | pkg/resource/replication_group/hooks.go:749-783 | The sign of the difference chooses between the increase and the decrease request; an answer without a group counts as nothing done. |
| `ReplicationUpdate.UpdateShardConfiguration` | pkg/resource/replication_group/hooks.go:785-812 | The shard configuration is put on record exactly when the request was accepted with a group in its answer. |
| `ReplicationUpdate.SdkUpdate` | pkg/resource/replication_group/sdk.go:1147-1178 | Tags come first and alone: a round with a tag difference makes its tagging request and nothing else, and fails exactly when that is refused. Otherwise the specialised update runs, and the generated request is sent exactly when that did nothing. |
| `ReplicationUpdate.OneRequestARound` | pkg/resource/replication_group/hooks.go:475-645 | No request unless the group is ready and its tags agree; two requests in one round exactly when a replica request was answered without a group, never more. |
| `ReplicationUpdate.WhenShardsChange` | pkg/resource/replication_group/hooks.go:501-587 | A shard request is sent if and only if the group is ready, this configuration is not on record, nothing is to be switched off or scaled up first, the replica difference is zero, the shard counts differ and the request can be built. |
| `ReplicationUpdate.WhenReplicasChange` | pkg/resource/replication_group/hooks.go:501-569 | Step: an increase (decrease) is sent if and only if the group is ready, nothing is to be switched off, the shards are not on record or the uniform count is reported to differ, and the difference is positive (negative and no zone is nil). |
| `ReplicationUpdate.ReplicaDirection` | pkg/resource/replication_group/hooks.go:651-717 | For counts that are not negative: replicas are added exactly when more are desired than observed, uniformly or at the first configured shard that differs. |
| `ReplicationUpdate.WhenModified` | pkg/resource/replication_group/hooks.go:596-645 | The specialised modify request is sent if and only if nothing was rolled back, replicas and shards are done or something is to be switched off, one of its two main fields is given, the cluster was found, something differs and no id is nil where ids differ; the round fails to describe the cluster under the same condition. |
| `ReplicationUpdate.WhenNothingIsSent` | pkg/resource/replication_group/hooks.go:501-538 | A round waits exactly when the group is not ready, rejects exactly on one of the three rolled-back changes, and refuses a value exactly on a shrink that keeps nothing. |
| `ReplicationUpdate.ScalingUpDefers` | pkg/resource/replication_group/hooks.go:571-582 | A due change of shards is put off exactly for a differing node type that the status allows to scale up to. |
| `ReplicationUpdate.WhenGenerated` | pkg/resource/replication_group/sdk.go:1164-1167 | The generated request is sent if and only if the specialised update leaves the round to it, or takes a replica answer without a group for nothing done. |
| `ReplicationUpdate.RoundOutcome` | pkg/resource/replication_group/sdk.go:1164-1167 | A round ends by its last answer if it sent a request, and by its decision otherwise. |
| `ReplicationUpdate.RequestsNameTheGroup` | pkg/resource/replication_group/hooks.go:816-1163 | Every specialised request names the spec's own group. |
| `ReplicationUpdate.GeneratedComesLast` | pkg/resource/replication_group/hooks.go:540-590 | Step: the generated request never overtakes a replica or shard difference, nor the specialised modify request, except for switching off or scaling up. |
| `ReplicationUpdate.CrashesExactlyUnless` | pkg/resource/replication_group/hooks.go:475-590 | Whatever differs and whatever cluster is found, no update of a state crashes if and only if a condition on its readiness, record, differences, zones and ids holds. |
| `ReplicationUpdate.CrashWitness` | pkg/resource/replication_group/hooks.go:1158-1171 | Step: where the condition fails, one difference and one cluster that crash the update. |
| `ReplicationUpdate.RemovedCountCrashes` | pkg/resource/replication_group/hooks.go:1217-1229 | Step: with a numeric record and no count in the spec, a ready, tag-clean round crashes or is rejected, and no round sends or records anything. |
| `ReplicationRuns.RemovedCountNeverRecovers` | pkg/resource/replication_group/hooks.go:1217-1229 | Over any run from such a record, the list of all requests is empty. |
| `ReplicationRuns.ReshardSettles` | pkg/resource/replication_group/hooks.go:785-812 | Step: a shard request answered with the group leaves a record that reads as requested already. |
| `ReplicationRuns.SettledStays` | pkg/resource/replication_group/hooks.go:389-472 | Step: no kind of round loses that record, and none changes the shards while it lasts. |
| `ReplicationRuns.ReshardsAtMostOnce` | pkg/resource/replication_group/hooks.go:528-532 | For a configuration that survives being recorded: from any annotations, over any run and any answers, the shards are changed at most once more than there are changes whose answer held no group. |
| `ReplicationRuns.LaterRoundsReject` | pkg/resource/replication_group/hooks.go:528-532 | For a configuration that survives being recorded: over any run, after a change answered with the group, every ready and tag-clean round that still finds another shard count is rejected and sends nothing. |
| `ReplicationRuns.LostChangesAreReportedExactlyWhen` | pkg/resource/replication_group/hooks.go:795-810 | With changes counted whose answer held no group, those reports come over every run if and only if the spec can send no change at all. |
| `ReplicationRuns.CreatedNeverReshards` | pkg/resource/replication_group/hooks.go:162-173 | A group created from a spec has its shards on record, so no run ever changes them for that spec. |
| `ReplicationRuns.EditedCountIsActedOn` | pkg/resource/replication_group/hooks.go:1217-1229 | With the count of one spec on record, a round of another spec in which shards are next changes them if and only if it gives another count; for the same count it is rejected. |
| `ReplicationRuns.EditedConfigurationIsActedOn` | pkg/resource/replication_group/hooks.go:1231-1236 | With a configuration on record and no count, if and only if the configuration is another, whatever count is given since. |
| `ReplicationRuns.ReshardsWithoutLimit` | pkg/resource/replication_group/hooks.go:785-812 | For every n, a run of n rounds that all observe node groups and a difference and all change the shards: with answers that hold no group, or with any answers if the configuration does not survive being recorded. |
| `ReplicationRuns.ReshardsOnceExactlyWhen` | pkg/resource/replication_group/hooks.go:1214-1240 | "At most once, over every run that observes node groups and differences" holds for all answers if and only if no change can be sent, and for answers that hold the group if and only if the configuration survives being recorded or cannot be sent. |
| `ReplicationRuns.UnrecordableIsSendable` | pkg/resource/replication_group/hooks.go:1233-1239 | A configuration that does not survive can be sent if and only if no zone is nil and it is not a single shard without an id. |
| `ReplicationRuns.NodeTypeChangesAtMostOnce` | pkg/resource/replication_group/hooks.go:518-525 | Over any run a change of node type, while it differs, is requested at most once more than there are such requests whose answer held no group. |
| `ReplicationRuns.NodeTypeOnceExactlyWhen` | pkg/resource/replication_group/hooks.go:518-525 | At most once over every run, for all answers, if and only if the spec gives no node type. |
| `ReplicationRuns.EditedNodeTypeIsActedOn` | pkg/resource/replication_group/hooks.go:1202-1210 | With the node type of one spec on record, a round of another spec in which it is next asks for it if and only if it is another; the same one is rejected. |
| `ReplicationRuns.GeneratedCarriesNodeType` | pkg/resource/replication_group/sdk.go:1636-1638 | Over any run every generated request carries the spec's node type, whatever differs. |
| `ReplicationRuns.NodeTypeStays` | pkg/resource/replication_group/hooks.go:1202-1210 | Step: once on record it stays there, and a ready round that still differs is rejected. |
| `ReplicationRuns.OneReplicaRequest` | pkg/resource/replication_group/hooks.go:651-717 | After one applied replica request the difference is zero, and no later round sends another, if and only if the configuration can be met. |
| `ReplicationRuns.OneUniformReplicaRequest` | pkg/resource/replication_group/hooks.go:1321-1335 | The same for the uniform count as it is read back: if and only if the count fits 32 bits. |
| `ReplicationRuns.SettledReplicas` | pkg/resource/replication_group/hooks.go:534-569 | With the shards on record, a replica request leaves if and only if the uniform count is reported to differ, the shards agree and a difference can be sent; one that is not reported so is rejected. |
| `ReplicationRuns.ShardReplicasNeverChange` | pkg/resource/replication_group/hooks.go:534-538 | A group created with a shard count and later given per-shard replica counts never sends a replica request, over any run in which no uniform count differs. |
| `ReplicationGroups.CheckGate` | pkg/resource/replication_group/hooks.go:482-517 | Open exactly when the group and all node groups are available and the member counts agree. |
| `ReplicationGroups.SyncStatus` | pkg/resource/replication_group/hooks.go:207-240 | True exactly for a ready response or a failed creation, unknown exactly without a status. |
| `ReplicationGroups.GateMeetsSync` | pkg/resource/replication_group/hooks.go:207-240 | On a mirrored response the separately written gate passes exactly when the synced condition is True, a failed creation aside. |
| `ReplicationGroups.CollectReplicaCounts` | pkg/resource/replication_group/hooks.go:683-696 | The map of replica counts: members less one, none for an empty group, groups without an id left out, the last of equal ids kept. |
| `ReplicationGroups.DiffReplicasNodeGroupConfiguration` | pkg/resource/replication_group/hooks.go:676-717 | The loop returns the difference of the first comparable entry that differs. |
| `ReplicationGroups.FirstDifferenceMeaning` | pkg/resource/replication_group/hooks.go:697-716 | That difference is zero if and only if every comparable entry matches; otherwise it belongs to the first that does not. |
| `ReplicationGroups.GetAnnotationsFields` | pkg/resource/replication_group/hooks.go:401-417 | The object's own annotations if it has any, else a full copy of the desired ones. |
| `ReplicationGroups.SetAnnotationsFields` | pkg/resource/replication_group/hooks.go:389-443 | Writes the log-delivery and node-type records and keeps every other annotation. |
| `ReplicationGroups.SetLastRequestedNodeGroupConfiguration` | pkg/resource/replication_group/hooks.go:447-458 | Writes the configuration record and keeps every other annotation. |
| `ReplicationGroups.SetLastRequestedNumNodeGroups` | pkg/resource/replication_group/hooks.go:462-472 | Writes the count, or "null", and keeps every other annotation. |
| `ReplicationGroups.RecordedReadsBack` | pkg/resource/replication_group/hooks.go:1214-1240 | Right after a shard configuration is recorded, it reads as requested already if and only if it survives its encoding; a count always does. |
| `ReplicationGroups.RecordAgainst` | pkg/resource/replication_group/hooks.go:1214-1240 | What a record made for one spec says of any other: a count against a count, a count against none, a configuration against any, no record. |
| `ReplicationGroups.NodeTypeAgainst` | pkg/resource/replication_group/hooks.go:1202-1210 | A recorded node type calls for an update if and only if the spec gives another one or none. |
| `ReplicationGroups.OtherAnnotationsKept` | pkg/resource/replication_group/hooks.go:389-472 | Both records leave every annotation with another key as it is. |
| `ReplicationGroups.ModifyKeepsShardRecord` | pkg/resource/replication_group/hooks.go:389-443 | Recording a modify request does not change whether the shards read as requested. |
| `ReplicationPayloads.IncreasePayload` | pkg/resource/replication_group/hooks.go:816-895 | One entry, in order, for each configured shard with an id the server knows, with primary and replica zones, nil zones as "". |
| `ReplicationPayloads.IncreaseEntryAt` | pkg/resource/replication_group/hooks.go:850-884 | Every configured shard the server knows has its entry after those of the shards configured before it. |
| `ReplicationPayloads.IncreaseEntry` | pkg/resource/replication_group/hooks.go:860-882 | Step: an entry holds id, count, and the primary zone followed by the replica zones. |
| `ReplicationPayloads.DecreasePayload` | pkg/resource/replication_group/hooks.go:899-947 | One entry for every configured shard with its replica zones only; a nil zone crashes it. |
| `ReplicationPayloads.ObservedAfter` | pkg/resource/replication_group/hooks.go:852-892 | What an entry finds on the server after the request: the count of the last entry for the same node group, narrowed to 32 bits. |
| `ReplicationPayloads.ListedReplicasConverge` | pkg/resource/replication_group/hooks.go:816-947 | One applied request, increase or decrease, makes the difference zero if and only if counts fit and do not contradict each other; node-group ids need not be distinct. |
| `ReplicationPayloads.UniformReplicasConverge` | pkg/resource/replication_group/hooks.go:1321-1335 | The same for a uniform count, as reading the first node group reports it. |
| `ReplicationPayloads.ReshardPayload` | pkg/resource/replication_group/hooks.go:951-1037 | The loops build the specified shard request, refuse an empty retain list, and crash exactly on a nil zone or a recorded status that is too short. |
| `ReplicationPayloads.ReshardRequest` | pkg/resource/replication_group/hooks.go:1021-1034 | No request both reshards and retains, and neither list is ever empty. |
| `ReplicationPayloads.ShardRequestReachesCount` | pkg/resource/replication_group/hooks.go:968-975 | A server that ends with as many node groups as a request counts, growing or shrinking, has the number the spec asks for and no shard difference, if and only if that number fits 32 bits. |
| `ReplicationPayloads.ReshardEntry` | pkg/resource/replication_group/hooks.go:994-1028 | A growing request describes every configured shard in its place, with its id, and its zones when replica zones are given. |
| `ReplicationPayloads.ScaleIn` | pkg/resource/replication_group/hooks.go:988-1034 | On a mirrored status a shrink keeps exactly the first n node groups, all indexing is in bounds, and a server that follows it has no shard difference left; the retained number equals the count if and only if the count fits 32 bits. |
| `ReplicationPayloads.ScaleInConfigured` | pkg/resource/replication_group/hooks.go:994-1034 | A shrinking request with a per-shard configuration retains every configured id in order, is refused exactly when there is none, and names as many as it counts if and only if the entries without an id make up the surplus. |
| `ReplicationPayloads.SecurityGroupIdsDiffer` | pkg/resource/replication_group/hooks.go:1108-1155 | For given ids, "no difference" if and only if the non-nil ids of spec and cluster are equal as multisets. |
| `ReplicationPayloads.SortedIsUnique` | pkg/resource/replication_group/hooks.go:1124-1144 | Two sorted lists of the same elements are the same list. |
| `ReplicationPayloads.BeforeIsTotal` | pkg/resource/replication_group/hooks.go:1124-1126 | The order of strings used for sorting is total and strict. |
| `ReplicationPayloads.ModifyPayload` | pkg/resource/replication_group/hooks.go:1158-1198 | Each field is in the request exactly when it differs and is given; a nil id crashes it exactly when the ids differ. |
| `ReplicationPayloads.ModifySettlesFields` | pkg/resource/replication_group/hooks.go:1181-1194 | A server that follows the request has each differing field at the spec's value, if given, and the others as they were. |
| `ReplicationPayloads.SecurityGroupsSettle` | pkg/resource/replication_group/hooks.go:1158-1179 | A cluster that takes over the ids of a request, in any order, no longer differs. |
| `ParameterGroups.ProvideDelta` | pkg/resource/cache_parameter_group/hooks.go:429-474 | Whatever order the maps are iterated in, the three lists list the removed, modified and added parameters, each once. |
| `ParameterGroups.WantedIsLast` | pkg/resource/cache_parameter_group/hooks.go:429-474 | Of the last entry with a name, the value is wanted if and only if it is given and not empty. |
| `ParameterGroups.DeltaReachesTarget` | pkg/resource/cache_parameter_group/hooks.go:429-474 | Removing, overwriting and adding those takes the observed values to the wanted ones; all three lists are empty when they agree. |
| `ParameterGroups.CustomUpdateCacheParameterGroup` | pkg/resource/cache_parameter_group/hooks.go:376-425 | Sends the planned calls in order, all of them unless one is refused, and fails exactly when one is. Then every parameter is old or wanted; otherwise the group holds exactly the wanted values. Nothing is planned when they agree already. |
| `ParameterGroups.ReconcileTwice` | pkg/resource/cache_parameter_group/hooks.go:376-474 | Fails exactly when a call is refused; otherwise the group is as wanted and the second round makes no call. |
| `ParameterGroups.SaveParameters` | pkg/resource/cache_parameter_group/hooks.go:255-289 | The calls made are the batches in order; it fails exactly when one is refused, and then exactly the batches before it were applied. |
| `ParameterGroups.BatchesMeaning` | pkg/resource/cache_parameter_group/hooks.go:255-289 | Batches concatenate to the input, number n/20 rounded up, are never empty, and all but the last hold exactly 20. |
| `ParameterGroups.DescribeCacheParameters` | pkg/resource/cache_parameter_group/hooks.go:123-169 | On every finite chain of markers the loop ends with the pages in chain order, up to the first empty page or missing marker, or with the failure that cut it short. |
| `ParameterGroups.FlattenAppend` | pkg/resource/cache_parameter_group/hooks.go:123-169 | Step: pages are concatenated in order. |
| `ParameterGroups.OneChain` | pkg/resource/cache_parameter_group/hooks.go:123-169 | A server has only one such chain. |
| `ServerlessCaches.CustomUpdateServerlessCache` | pkg/resource/serverless_cache/hooks.go:111-185 | No call while creating, deleting or modifying, each with its own requeue; otherwise exactly the request for the differing field of highest priority, and a failure exactly when it is refused. |
| `ServerlessCaches.AgreesMeaning` | pkg/resource/serverless_cache/hooks.go:140-184 | Agreement is agreement of every field, group lists up to order. |
| `ServerlessCaches.RoundChangesOnlyTop` | pkg/resource/serverless_cache/hooks.go:140-184 | Every other field is as it was. |
| `ServerlessCaches.TopField` | pkg/resource/serverless_cache/hooks.go:188-304 | The field sent agrees afterwards if and only if it can be expressed; tags come one step nearer. |
| `ServerlessCaches.RoundDecreases` | pkg/resource/serverless_cache/hooks.go:111-185 | With all differences expressible an effective round lowers the measure, which is at most nine and zero exactly on agreement, by one. |
| `ServerlessCaches.RunConverges` | pkg/resource/serverless_cache/hooks.go:111-185 | Over any run with failures and waiting, the number of applied requests is exact and at most nine, and agreement is reached if and only if there were enough effective rounds. |
| `ServerlessCaches.InexpressibleBlocks` | pkg/resource/serverless_cache/hooks.go:111-185 | A difference that cannot be expressed stays over every run, and no field of lower priority changes. |
| `ServerlessCaches.ConvergesExactlyWhenExpressible` | pkg/resource/serverless_cache/hooks.go:111-185 | Some run reaches the desired state if and only if every difference is expressible. |
| `ServerlessCaches.LimitsArrive` | pkg/resource/serverless_cache/hooks.go:244-285 | Usage limits reach the server unchanged if and only if they fit 32 bits and give no empty unit. |
| `Tags.SyncTags` | pkg/util/tags.go:82-158 | Exactly one request, none exactly when the tags agree, all additions or else all removals; always an error, so the round ends here, and a failure exactly when the request is refused. |
| `Tags.TagRoundProgress` | pkg/util/tags.go:97-157 | A successful round brings the tags one step nearer and never takes away a key that is desired. |
| `Tags.TagRunConverges` | pkg/util/tags.go:82-158 | From any tags, over any sequence of failures, two successful rounds reach the desired map. |
| `Tags.ConvertToOrderedACKTags` | pkg/resource/cache_cluster/tags.go:36-55 | The map keeps the last value of a key, nil as ""; the key order lists the key of every entry after those of the entries before it. |
| `Tags.ListsKeepsOrder` | pkg/resource/cache_cluster/tags.go:36-78 | A listing by the keys of a list puts the list's keys first, in the order of their first entries in the list. |
| `Tags.FromACKTags` | pkg/resource/cache_cluster/tags.go:61-78 | For any key order, repeats and absent keys included, each key is listed once, ordered keys first by first occurrence; the ordered keys leave the passed map. |
| `Tags.ListingRoundTrip` | pkg/resource/cache_cluster/tags.go:36-78 | Map to list and back is the same map. |
| `Tags.ListRoundTrip` | pkg/resource/cache_cluster/tags.go:36-78 | List to map and back has the same keys, in the order of their first entries, with their last values. |
| `Tags.SyncAWSTags` | pkg/resource/cache_cluster/tags.go:113-119 | Exactly the AWS tags of one map are written over the other. |
| `Tags.IgnoreSystemTags` | pkg/resource/cache_cluster/tags.go:85-92 | Exactly the AWS and the named system tags are deleted. |
| `Tags.MirrorAWSTags` | pkg/resource/cache_cluster/manager.go:354-366 | The spec lists the mirrored map; the keys it had come first, in the order of their first entries. |
| `Tags.FilterSystemTags` | pkg/resource/cache_cluster/manager.go:331-341 | Exactly the tags that are neither AWS nor system tags remain, with their values, in the order of their first entries. |
| `Tags.AwsTagsAreProtected` | pkg/resource/cache_cluster/manager.go:354-366 | After mirroring, a round neither adds, overwrites nor removes an AWS tag, and the user's entries are unchanged. |
| `Tags.ReadThenSyncTags` | pkg/util/tags.go:97-157 | Reading and then synchronising keeps every AWS tag of the server, and no request names one. |
| `Tags.MirroringIsFiltered` | pkg/resource/cache_cluster/manager.go:331-366 | Step: filtering undoes mirroring. |
| `Conditions.UpdateConditions` | pkg/resource/cache_cluster/sdk.go:1467-1540 | Works on a copy, and returns it exactly when a managed condition exists. |
| `Conditions.TerminalKinds` | pkg/resource/cache_cluster/sdk.go:1545-1573 | Step: which errors are terminal. |
| `Conditions.HistoryMeaning` | pkg/resource/cache_cluster/sdk.go:1467-1540 | From a resource without the two conditions, over any history: each occurs at most once; Terminal is True exactly when the last outcome was terminal, Recoverable exactly when the last other outcome was an error, with their texts; other conditions are untouched. |
| `Conditions.OnError` | pkg/resource/cache_cluster/manager.go:395-415 | With at most one Terminal condition beforehand, returns the Terminal error exactly for a terminal error, otherwise the error itself; it never changes its input. |
| `Conditions.OnSuccess` | pkg/resource/cache_cluster/manager.go:419-430 | Clears the conditions on a copy. |
| `CacheClusters.ModifyDelta` | pkg/resource/cache_cluster/delta_util.go:28-56 | The in-place removals leave exactly the meaningful differences. |
| `CacheClusters.MeaningfulDifferences` | pkg/resource/cache_cluster/delta_util.go:28-67 | With at most one difference per subject, a targeted difference remains if and only if it was there and versions do not match, engines differ beyond case, or window or zone was given or is not observed; all others stay in order; a zones difference is appended if and only if the zones are not those requested last. |
| `CacheClusters.EqualFoldMeaning` | pkg/resource/cache_cluster/delta_util.go:28-56 | Step: texts fold together if and only if they are the same in lower case. |
| `CacheClusters.UpdateCacheClusterPayload` | pkg/resource/cache_cluster/hooks.go:98-140 | The node ids and zones of the request and the two refusals, for every combination of counts, with 64-bit subtraction. |
| `CacheClusters.NodeRemoval` | pkg/resource/cache_cluster/hooks.go:98-114 | The removed ids are those above the desired count, descending and distinct; a cluster numbered from 1 keeps exactly the desired nodes. |
| `CacheClusters.SmallerCountLeavesDesired` | pkg/resource/cache_cluster/hooks.go:98-114 | The payload of a smaller count leaves exactly the desired nodes of the larger of observed and pending count; any other count removes none. |
| `CacheClusters.WrongZoneIsSent` | pkg/resource/cache_cluster/hooks.go:131-136 | A request built for a second node in zone b that sends zone a. |
| `CacheClusters.RightZonesExactlyWhenFollowing` | pkg/resource/cache_cluster/hooks.go:131-136 | For old and added zones, nil entries included: the zones sent are the added ones if and only if they are as many and the added ones follow the old list cyclically. |
| `CacheClusters.ExtensionFirst` | pkg/resource/cache_cluster/hooks.go:131-136 | Step: the first entries of an extended list are the extension if and only if it cycles through the list. |
| `CacheClusters.NewZones` | pkg/resource/cache_cluster/hooks.go:98-140 | The same about the request that is built, and: it sends as many zones as there are new nodes if and only if as many were added, nil entries apart. |
| `CacheClusters.SdkUpdate` | pkg/resource/cache_cluster/sdk.go:925-960 | With a tag difference exactly one tagging request and no modify request; without any difference nothing; otherwise, unless the payload is refused, exactly one modify request with the nodes and zones of the payload. It fails exactly when a request is refused. |
| `Deltas.Delta.RemoveFromDelta` | pkg/common/delta.go:20-42 | The search and the shift inside the backing array remove the first difference at the subject and no other. |
| `Deltas.ShiftDown` | pkg/common/delta.go:37-41 | Shifts the tail over one slot and leaves the rest of the array. |
| `Deltas.RemovalKeepsOthers` | pkg/common/delta.go:20-42 | Every difference outside the subject survives, in order; at the subject there is one fewer. |
| `Deltas.RemovalClears` | pkg/common/delta.go:20-42 | Nothing is left at the subject if and only if there was at most one difference. |
| `EngineVersions.ParsesCanonical` | pkg/util/engine_version.go:46-60 | For canonical versions the parser recovers major and minor, a missing or x minor as -1. |
| `EngineVersions.MatchMeaning` | pkg/util/engine_version.go:25-41 | A match means equal texts, or, above major 5 or for a desired version ending in x, equal majors and a minor that is equal or not pinned. |
| `EngineVersions.PatchMatters` | pkg/util/engine_version.go:25-41 | With equal major and minor the patch is ignored if and only if the major exceeds 5 or the desired version ends in x. |
| `GoNumbers.ParseItoa` | pkg/resource/replication_group/hooks.go:462-472 | Parsing the decimal text of any 64-bit number gives it back. |
| `GoNumbers.Sprintf04dInjective` | pkg/resource/cache_cluster/hooks.go:107-113 | Zero-padded texts are equal exactly for equal numbers, beyond four digits too. |
| `References.ResolveReferences` | pkg/resource/replication_group/references.go:91-143 | Returns the error of the first reference that cannot be used, else that of the validation; without either every field holds its target. Only fields with references change, each to its target or not at all, a list by the targets before its first failure. |
| `References.ResolveList` | pkg/resource/replication_group/references.go:547-583 | Appends the targets of the given references in order, up to the first that cannot be used, and returns its error. |
| `References.ResolvedInOrder` | pkg/resource/replication_group/references.go:547-583 | A resolved list holds the target of each given reference after those of the references before it. |
| `References.CheckReferenced` | pkg/resource/replication_group/references.go:592-637 | Accepted if and only if synced, not terminal, and with the field that is asked for; otherwise the first of these that fails is returned. |
| `References.ClearResolvedReferences` | pkg/resource/replication_group/references.go:50-82 | Empties, on a copy, exactly the fields that have references. |
| `References.ClearingUndoesResolving` | pkg/resource/replication_group/references.go:50-177 | Clearing gives back the spec that resolution started from, successful or not, if and only if that spec is valid. |
| `References.ResolveClearResolve` | pkg/resource/replication_group/references.go:50-177 | The same for the methods; and a resolution that succeeded succeeds again after clearing, with the same fields. |

## Left out

Assumptions that stand for code outside the repository:

- A path is contained in another when its parts are a prefix, so `Spec.Engine` does not contain `Spec.EngineVersion`.
- The tag difference of the runtime is the set difference on key/value pairs.
- The library's sort yields a sorted permutation; `ReplicationPayloads.Sort` stands for it.
- JSON of an annotation reads back as written, except that an empty list in a per-shard configuration comes back as no list; an annotation that holds no such document decodes to no configuration.
- The copy made of a resource is complete, and loop variables are per iteration.
- Finding a referenced resource by name and namespace is one function, which may fail; namespaces are not resolved further.
- The annotations that a round returns are the ones the next round starts from, and a round that ends in an error or a crash leaves them as they were.
- A server of replica requests sets every node group that is named to the count of its last entry, or all of them to a uniform count, ignores ids it does not know, and refuses negative counts.

What the model does not contain:

- AWS calls beyond applying or refusing a request, Kubernetes reads, logging, metrics, events.
- Generated field copying, deep copies, API types, descriptors, identifiers, `manager_factory.go`.
- The contents of the generated modify requests of a replication group, except the node type, and of a cache cluster; that they are sent, and when, is modelled. Building one can fail on an unreadable secret or a snapshot limit beyond 32 bits; the round then ends in an error without it.
- Which member cluster is described to find the cache cluster (`getAnyCacheClusterIDFromNodeGroups`); the description is an input of the round, and may fail.
- Reading a replication group back into its spec (`updateSpecFields`), except the uniform replica count. The per-shard configuration it builds is never appended, so it does not mirror the server.
- The difference filter of replication groups (`modifyDelta`), log-delivery and primary-cluster comparisons.
- The annotation in which a cache cluster keeps its last requested zones; it is an input of `CacheClusters.ModifyDelta`.
- The conditions other than Terminal and Recoverable, except that they are untouched; the synced condition's status is modelled, its place in the list is not.
- Strings are sequences of characters, so the byte order and the byte count of text outside ASCII are not modelled; case folding is ASCII only.

Contracts that are weaker or need more than a reader might expect:

- EngineVersions.EngineVersionsMatch: needs a non-empty desired version, because the source reads its last character.
- CacheClusters.UpdateCacheClusterPayload: needs an observed node count when the desired one differs, because the source dereferences it.
- ParameterGroups.CustomUpdateCacheParameterGroup: needs named parameters, and observed values that are not nil where a value is wanted, because the source dereferences exactly those.
- ReplicationPayloads.UniformReplicasConverge: needs at least one node group, because the source reads the first.
