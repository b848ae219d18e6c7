# Verified model of the BinaryLane controller

A Dafny 4.11 model of the decisions the BinaryLane controller for Kubernetes takes, and proofs of what they
add up to. `dafny verify dfyconfig.toml` checks all of it.

* **DNS** (`dns_*.dfy`). The external-dns webhook: zone selection, name split and join, the grouping that GET
  reports, and POST as a loop of create and delete calls on the record service. The methods of
  `DnsWebhook.RecordService` are proved to have the outcome of a plan computed before the first write; the plan is
  proved to be complete exactly for acceptable change sets, to create and delete exactly the records asked for, to do
  to the abstract map (full name, type) -> targets what the change set asks, also when it is cut short and sent again,
  and never to leave an updated key without targets on the way.
* **Node lifecycle** (`kube.dfy`, `lifecycle.dfy`, `controllers.dfy`). Nodes, secrets, servers and the API calls;
  the four node controllers as methods that make one call after the other, each proved to run the step machine
  `Lifecycle.Step`, whose program counter names the next call. The theorems are about that machine, under two regimes:
  * *interleaved* (`interleaved.dfy`, and the soundness of the latch in `latch.dfy`): calls of any number of runs and
    actions of others, who edit nodes and servers and make servers for adoption, alternate in any order, any call may
    fail, any run may crash, and a run may have read any past version of its node;
  * *crash-atomic* (`ownership.dfy`, `provisioning.dfy`, `adoption.dfy`, `teardown.dfy`, `removal.dfy`, `sync.dfy`,
    `whole_life.dfy`, and the closing of the latch in `latch.dfy`): each run starts from a fresh read, nothing else
    touches that node while it is under way, and it may stop, or meet an error, at any call.
* **Autoscaler** (`autoscaler.dfy`, `scaling.dfy`, `scaling_theorems.dfy`). Labels and taints of new nodes, node
  names, group lookup, and the scale-up and scale-down RPCs, run one after the other, each possibly failing midway.
* **Catalog cache** (`catalog.dfy`). The double-checked cache under a readers-writer lock, for every interleaving of
  callers, with time passing, fetches failing and callers dropped at any point.
* **Load balancers** (`sorting.dfy`, `load_balancer.dfy`). Drift by sort and compare, when a reconcile succeeds, and
  that reconciling settles.
* **Quoting** (`quoting.dfy`). The shell and YAML printers against readers written from POSIX.1-2017 XCU (sections
  2.2.1 and 2.2.2) and YAML 1.2.2 (sections 5.7, 6.5 and 7.3.1).

What is trusted: server, record, load-balancer ids and node uids are never reused; lookup by hostname is exact and
linearizable; one provision run per node name at a time (`src/main.rs:190-217`, one replica in
`charts/binarylane-controllers/templates/deployment.yaml:10`); the API server never changes a provider id that is set
and adds no finalizer to an object being deleted; a merge patch keeps what it does not mention and replaces lists whole
(section 2 of RFC 7396); the record service accepts a create equal to a record it has; whoever else makes a server
gives it a name that no server has and that no provision run is just about to use. An error answer is an answer without
effect; an error after an effect ends a run like a crash right after the call, which the regimes include. A `str` is its
sequence of UTF-8 code units.

## What turned out not to hold everywhere

Each of these has a lemma that shows it, and the property is proved where it does hold.

* The zone loop compares a normalised length with a stored one. It picks the most specific zone exactly for the zone
  lists `DnsNames.SafeOrder` describes, which includes all lists of proper names with at most one trailing dot; two
  trailing dots can hide a child zone (`DnsNames.TwoTrailingDotsShadow`).
* Joining a split name gives the name back unless the zone is stored un-normalised or the relative part is literally
  `@` (`DnsNames.JoinOfSplit`, `DnsNames.LiteralAtIsLost`).
* A sync run that read a bound node and patches a later node of the same name labels it with a server it is not bound
  to: `Interleaved.BindingCanBreak` is such a run. The binding invariants are proved for runs in which a sync patch
  meets a node that names the server it read, which every stale read of the same node object does
  (`Interleaved.SameObjectMeetsItsServer`), and no less will do (`Interleaved.GuardIsExact`).
* The adopt annotation, though node-deletion tests it, never earns a node the finalizer: nodes it alone would qualify
  have been passed over before (`Removal.AdoptMakesNoDifference`).
* The failure latch is sound on a catalog if and only if the catalog has no empty slug or offers nothing at all
  (`Latch.LatchSoundExact`); with an empty slug on offer, a run ends with a valid node latched
  (`Latch.LatchCanMislead`).
* The size guard casts the limit to `usize`, so a negative limit lets everything through
  (`ScalingTheorems.NegativeLimitLetsThrough`); a successful increase respects the limit exactly if it is not negative
  (`ScalingTheorems.IncreaseRespectsLimit`).
* Group lookup by name prefix is right in every order of a store if and only if no group's prefix is a prefix of
  another's (`Autoscaler.LookupExact`).
* With one port used for two protocols the drift test can ask for an update although the rules are the same
  (`LoadBalancers.SpuriousUpdate`).
* `yaml_escape` does not protect line breaks, which YAML folds (`Quoting.LineBreaksAreLost`), nor control characters,
  which it refuses; all other strings come back (`Quoting.YamlRoundTrip` is an equivalence).

Where the repository's README.md says that the autoscaler provider creates and deletes servers, the code creates and
deletes Node objects, and servers follow through node-provision and node-deletion; the model follows the code.

## Model

| member | source | states |
|---|---|---|
| DnsNames.PickZone | src/dns_webhook.rs:424-434 | a chosen zone matches the name at a label boundary, and none is chosen only if no zone matches |
| DnsNames.MapEndpointToDomain | src/dns_webhook.rs:421-451 | the loop chooses as the recursive definition says, and removing the zone suffix afterwards cannot fail on any input |
| DnsNames.NormalizeExact | src/dns_webhook.rs:409-411 | exactly the trailing dots are trimmed, and the rest is put in lower case |
| DnsNames.ZoneChoiceExact | src/dns_webhook.rs:424-434 | the loop picks the longest matching zone, first one on ties, for every name if and only if the zone list is in a safe order |
| DnsNames.ProperZonesAreSafe | src/dns_webhook.rs:424-434 | zones with a non-empty first label and at most one trailing dot are always chosen most specifically |
| DnsNames.TwoTrailingDotsShadow | src/dns_webhook.rs:424-434 | a parent zone stored with two trailing dots is chosen over its child |
| DnsNames.JoinOfSplit | src/dns_webhook.rs:409-450 | joining the parts of a mapped name gives the normalised name if and only if the zone is stored normalised and the name is not literally `@.zone` |
| DnsNames.LiteralAtIsLost | src/dns_webhook.rs:413-450 | the name `@.b` under the zone `b` is split as the zone itself and joined to `b` |
| DnsNames.SplitOfJoin | src/dns_webhook.rs:409-450 | for zones stored in any form but of distinct normal forms, in a safe order, mapping a joined pair gives the pair back if and only if it is the apex, or lower-case under a non-root zone with no deeper match |
| DnsNames.SplitStable | src/dns_webhook.rs:409-450 | a split pair, joined, splits the same way again, for zones in any form and order; only a name literally `@` under its zone needs a safe order |
| DnsRecords.Dedup | src/dns_webhook.rs:217-220 | dropping repetitions of a sorted list leaves the same elements strictly increasing |
| DnsRecords.GetRecords | src/dns_webhook.rs:177-223 | reported are the data of exactly the listed records of the six types A, AAAA, CNAME, TXT, SRV and NS, under their full name and type; keys and targets are strictly increasing, one endpoint per key |
| DnsRecords.TtlIsOfFirst | src/dns_webhook.rs:192-215 | an endpoint has the TTL of the first record listed under its name and type |
| DnsRecords.StrictlySortedUnique | src/dns_webhook.rs:217-220 | a target list in GET's form is determined by its elements |
| DnsRecords.GroupingUnique | src/dns_webhook.rs:192-223 | that specification has one answer for every listing |
| DnsStore.OutcomeIsPrefix | src/dns_webhook.rs:248-290 | calls cut short by an outage or a refusal leave the store as a prefix of them does, and say success only after all of them |
| DnsStore.RunTargets | src/dns_webhook.rs:256-290 | after any run that deletes only old ids, a key holds exactly what was stored and not deleted and what was created |
| DnsPlan.SnapshotCovers | src/dns_webhook.rs:238-257 | the snapshot lists every zone that update and delete entries touch |
| DnsPlan.DeletesAreListed | src/dns_webhook.rs:335-400 | every id deleted is one the snapshot listed |
| DnsPlan.BatchDiscipline | src/dns_webhook.rs:238-290 | if an update or delete endpoint has no zone nothing is written, every id deleted comes from the snapshot, and no record created in a call is deleted by it |
| DnsTheorems.PostKeepsWellFormed | src/dns_webhook.rs:259-403 | however far a POST gets, every record stays in the most specific zone of its full name, lower-case, with canonical type and distinct id |
| DnsAcceptance.CompleteExact | src/dns_webhook.rs:238-403 | for every store, change set and walk of the hash sets: POST has calls for all entries if and only if every endpoint matches some zone and the priority, port and weight of every entry that creates, of the update pairs those below the shorter length, are absent or parse |
| DnsAcceptance.OnlyAcceptableSucceed | src/dns_webhook.rs:225-290 | on any store, a POST that succeeds was sent such a change set |
| DnsAcceptance.StopsAtFirstBad | src/dns_webhook.rs:248-403 | a POST makes the calls of the entries before the first that is not acceptable, and no others |
| DnsAcceptance.CreatesExactly | src/dns_webhook.rs:259-355 | an accepted POST creates one record for every target of every create entry, in order, then one for every target of an update that is new and was not old |
| DnsAcceptance.DeletesExactly | src/dns_webhook.rs:331-400 | an accepted POST deletes a stored record if and only if a delete entry names its zone, name and type and lists its data or nothing, or an update pair does and has its data as an old target that is not a new one |
| DnsTheorems.PostRunsThrough | src/dns_webhook.rs:248-290 | on a well-formed store a POST gets exactly as far as the service answers, and succeeds if and only if the change set is acceptable and all its calls are answered |
| DnsTheorems.PostUpdates | src/dns_webhook.rs:335-369 | a successful POST leaves an updated key with exactly the new targets |
| DnsTheorems.PostCreates | src/dns_webhook.rs:259-280 | a created key holds the stored and the listed targets |
| DnsTheorems.PostDeletes | src/dns_webhook.rs:384-400 | a deleted key holds the stored minus the listed targets, none if none was listed |
| DnsTheorems.PostLeavesRest | src/dns_webhook.rs:259-290 | every other key keeps its targets and the store stays well-formed |
| DnsTheorems.GetReportsTargets | src/dns_webhook.rs:192-223 | GET reports for every supported key exactly the targets stored under it |
| DnsTheorems.PostThenGet | src/dns_webhook.rs:177-312 | GET after a successful POST lists under each supported key exactly what the change set asks for, and lists a key exactly if that is not empty |
| DnsTheorems.RetryConverges | src/dns_webhook.rs:248-290 | after any number of attempts, each cut after any number of calls and walking its hash sets in any order, one attempt to success leaves the same targets as one uninterrupted POST |
| DnsOverlap.UpdateLeavesNoGap | src/dns_webhook.rs:338-366 | while an update goes from some targets to some others its key is never without any, however far the POST has got |
| DnsOverlap.CreatesCarryTheirEntry | src/dns_webhook.rs:259-355 | each record created is a listed target of a create or update entry, in its zone, under its name and type, with its priority, port and weight |
| DnsAcceptance.NumberExact | src/dns_webhook.rs:465-478 | a number is that of the first property of its name in any case, absent if there is none, an error if that one does not parse |
| DnsSample.UpdateReplacesTarget | src/dns_webhook.rs:335-369 | a concrete store and change set meet all that the theorems on POST ask, and they then say what is stored |
| DnsWebhook.RecordService.CreateAll | src/dns_webhook.rs:264-279 | the targets of one entry are created one by one, up to the first failure |
| DnsWebhook.RecordService.DeleteSelected | src/dns_webhook.rs:384-400 | the listed records that match name, type and targets are deleted one by one, up to the first failure |
| DnsWebhook.RecordService.ApplyCreates | src/dns_webhook.rs:259-280 | the create loop has the outcome of its part of the plan |
| DnsWebhook.RecordService.UpdateOne | src/dns_webhook.rs:331-369 | one update creates the new targets first, then deletes those no longer wanted |
| DnsWebhook.RecordService.ApplyUpdates | src/dns_webhook.rs:321-374 | the update loop has the outcome of its part of the plan |
| DnsWebhook.RecordService.ApplyDeletes | src/dns_webhook.rs:376-403 | the delete loop has the outcome of its part of the plan |
| DnsWebhook.RecordService.TakeSnapshot | src/dns_webhook.rs:238-257 | the snapshot lists the needed zones as they are stored, or there is none because an endpoint has no zone; nothing is written |
| DnsWebhook.RecordService.PostRecords | src/dns_webhook.rs:225-290 | store, remaining calls and success are those of the plan computed before the first write, for every change set and every outage |
| Text.ParsePrint | binarylane-client/src/lib.rs:11-30 | parsing the printed form of a number gives it back exactly for every i64 |
| Text.ParseExact | binarylane-client/src/lib.rs:27-30 | text parses to a number if and only if it is the number's printed form after any zeros, with a sign as may be, and the number is an i64 |
| Cluster.ProviderIdRoundTrip | binarylane-client/src/lib.rs:11-30 | a provider id made from an id reads back as that id for every i64 |
| Cluster.ProviderIdExact | binarylane-client/src/lib.rs:27-30 | a provider id names a server if and only if it is `binarylane:///` and text that parses to the id |
| Cluster.SecretNamesInvert | src/controllers/mod.rs:55-92 | both secrets of a node lead back to that node |
| Cluster.MergeMap | src/controllers/node_provision.rs:413-431 | a merge patch of labels or annotations keeps absent keys, sets given ones and removes nulls |
| Cluster.FindServer | binarylane-client/src/lib.rs:233-251 | lookup by hostname answers a server of that name if there is one |
| Interleaved.NoDuplicateServers | src/controllers/node_provision.rs:384-411 | interleaved: over every run from no servers, or from servers of different names, there is never more than one server of a name |
| Interleaved.RacersAgree | src/controllers/node_bind.rs:48-88 | interleaved: runs about to bind one node hold the same id while their servers exist |
| Interleaved.BindingInvariants | src/controllers/node_provision.rs:413-431 | interleaved, servers made by others included: in every reachable state the server-id label is there exactly if the provider id is and prints the id it parses to, and the uninitialized taint is missing only from bound nodes |
| Interleaved.BindingIsForever | src/controllers/node_provision.rs:413-431 | interleaved: a bound node object stays bound to the same server |
| Interleaved.StaleSyncExact | src/controllers/node_sync.rs:83-158 | a sync patch made from another version of a node keeps the node's binding if and only if both name the same server |
| Interleaved.SameObjectMeetsItsServer | src/controllers/node_sync.rs:83-158 | interleaved: a stale read of the same node object always names the server the object names |
| Interleaved.GuardIsExact | src/controllers/node_sync.rs:83-158 | interleaved: in every reachable state an action keeps all bindings if and only if it is not a sync patch of a node that names another server |
| Interleaved.BindingCanBreak | src/controllers/node_sync.rs:83-158 | interleaved: a concrete run from an initial state in which a sync patch meets a later node of the same name and breaks its binding |
| Ownership.ServersAreOwned | src/controllers/node_provision.rs:308-431 | crash-atomic: in every reachable state each server is named by the provider id of the node of its name, which holds the finalizer, or a provision run for the name stopped between create and bind with none completed since |
| Ownership.RunsEnd | src/controllers/node_provision.rs:32-198 | every run of every controller ends within nine calls however they are answered |
| Ownership.NextCompletedRunBinds | src/controllers/node_provision.rs:384-431 | crash-atomic: the next validated provision run to complete binds the node to the server left unowned, and creates none |
| Ownership.AnsweredRunCompletes | src/controllers/node_provision.rs:297-448 | crash-atomic: such a run completes whenever its calls are answered, and removes the mark of an earlier failure |
| Lifecycle.ErrorEndsRun | src/controllers/node_provision.rs:32-448 | an error answer ends a run of any controller, without effect, except after reading the password secret and at the two patches of the failure mark |
| Provisioning.CreatesAsConfigured | src/controllers/node_provision.rs:297-411 | crash-atomic: a run creates at most one server, with the node's name and its labels' validated configuration, after its password is in the node's secret, and touches no other server, node or secret |
| Provisioning.OthersArePassedOver | src/controllers/node_provision.rs:40-64 | a node with none of the three labels, with a server id, being deleted, or marked with the values it has, is passed over: no call, no change, whatever the answers |
| Provisioning.InvalidIsMarked | src/controllers/node_provision.rs:66-177 | crash-atomic: any other node whose three values are not all there and on offer gets the mark with its values, and nothing else happens |
| Provisioning.AnsweredRunProvisions | src/controllers/node_provision.rs:297-448 | crash-atomic: a run on an unbound node whose values are on offer, with its six to nine calls answered, is done and leaves exactly the finalizer, the password and the server where they were missing, and the node bound to a server of its name, without the mark |
| Provisioning.NoRunIsFaster | src/controllers/node_provision.rs:297-448 | however its calls are answered, such a run is not done with fewer |
| Provisioning.AbsentNodeGetsNothing | src/controllers/node_provision.rs:308-312 | interleaved: a run whose node is gone when it is read again fails and changes nothing |
| Provisioning.WritesExactly | src/controllers/node_provision.rs:32-198 | crash-atomic: some way of answering makes a run on an unbound node write if and only if the node has one of the three labels, no server id, is not being deleted and not marked with its values |
| Adoption.OthersAreLeftAlone | src/controllers/node_bind.rs:13-62 | without the annotation, with a server id, or with no server of its name, a bind run changes nothing |
| Adoption.AdoptionExact | src/controllers/node_bind.rs:48-91 | crash-atomic: any other node gets provider id and label of a server of its name, if both calls are answered and it has no other provider id; nothing else changes, then or otherwise |
| Teardown.RunFromStage | src/controllers/node_deletion.rs:65-94 | a run with k calls answered takes the world to stage k of the teardown, or leaves it where it was if it was further |
| Teardown.TornStays | src/controllers/node_deletion.rs:29-140 | after a finished teardown no run of any controller changes anything |
| Teardown.TeardownConverges | src/controllers/node_deletion.rs:65-94 | crash-atomic: however often it was cut short, one complete run later the world is as one uninterrupted teardown leaves it, and stays so |
| Teardown.TornDown | src/controllers/node_deletion.rs:65-75 | the bound server and both of the node's secrets are gone, no other server and no other node's secret was touched |
| Teardown.NodeReleased | src/controllers/node_deletion.rs:77-93 | only our finalizer was removed, the rest kept in order, and the node is gone exactly if there was no other |
| Teardown.FinalizerOutlivesServer | src/controllers/node_deletion.rs:65-93 | at no point is the finalizer dropped or the node changed while the bound server exists |
| Removal.OrphanedNodeIsRemoved | src/controllers/node_deletion.rs:63-113 | crash-atomic: a node whose server is gone loses its secrets and its own existence, unless others hold it, within two complete runs, whatever runs of whatever controllers came before and in between; nothing else changes |
| Removal.LiveNodeIsGuarded | src/controllers/node_deletion.rs:96-140 | crash-atomic: on any other live node a run only adds our finalizer, last, exactly if the node is bound or labelled and lacks it |
| Removal.OthersHoldNode | src/controllers/node_deletion.rs:63-140 | crash-atomic: a node being deleted that lacks our finalizer is left as it is; its secrets go if the server it names is gone |
| Removal.AnsweredRunEnds | src/controllers/node_deletion.rs:13-140 | a deletion run with its calls answered succeeds unless it would have to add our finalizer to a node being deleted |
| Removal.AdoptMakesNoDifference | src/controllers/node_deletion.rs:36-127 | the adopt annotation never changes what a deletion run does |
| WholeLife.LifeLeavesNoTrace | src/controllers/node_provision.rs:297-448 | crash-atomic: a node made by scale-up, provisioned and synced is bound to a server with its group's configuration and ready; deleted and torn down, after any cut-short runs, it leaves the world as before but for the id counters |
| Sync.NoPatchNeeded | src/controllers/node_sync.rs:83-140 | a run finds nothing to write exactly if the node is as sync wants it |
| Sync.RunExact | src/controllers/node_sync.rs:42-176 | crash-atomic: a run reads, then writes labels and taints if they are not as wanted, then the addresses if they are not, as far as its calls are answered; with three answered it succeeds |
| Sync.OthersAreLeftAlone | src/controllers/node_sync.rs:21-58 | a node that is being deleted, names no server or whose server is gone is left alone |
| Sync.SyncConverges | src/controllers/node_sync.rs:42-176 | crash-atomic: after any cut-short runs a successful one leaves the world as one uninterrupted run would, with only this node changed |
| Sync.SyncFixpoint | src/controllers/node_sync.rs:60-172 | crash-atomic: after a successful run the next one makes one read and no write |
| Sync.SyncDisturbsNothingElse | src/controllers/node_sync.rs:83-158 | all other labels and, in order, all other taints survive, and nothing but labels, taints and addresses changes |
| Sync.SyncedIsAccurate | src/controllers/node_sync.rs:63-98 | a synced node has one address for each public and, in a VPC, each private network of the server, in their order, then its name; its size, region and provider as labels; and no uninitialized taint |
| Latch.HashExact | src/controllers/node_provision.rs:19-30 | without `\|` in the values, hashes are equal exactly if the three values are, absent counting as empty |
| Latch.SameHashSameVerdict | src/controllers/node_provision.rs:72-177 | equal hashes get the same validation verdict if the catalog has no empty slug |
| Latch.HashDecidesExact | src/controllers/node_provision.rs:19-177 | on a catalog equal hashes always get equal verdicts if and only if it has no empty slug or does not offer all three kinds |
| Latch.LatchIsSound | src/controllers/node_provision.rs:54-177 | interleaved, catalog unchanged: over every run of the system, calls and edits in any order and reads stale, whenever the latch closes a node out its configuration would fail again |
| Latch.LatchCanMislead | src/controllers/node_provision.rs:54-177 | interleaved: with an empty slug on offer, a run of the system ends with a valid configuration latched |
| Latch.LatchSoundExact | src/controllers/node_provision.rs:54-177 | interleaved: the latch is sound over every run if and only if the catalog has no empty slug or does not offer all three kinds |
| Latch.LatchCloses | src/controllers/node_provision.rs:200-233 | crash-atomic: after a run found the configuration invalid, over every history of runs of all four controllers, cut short anywhere, on any catalogs, provisioning passes the node over and no server is made |
| Latch.LatchOpens | src/controllers/node_provision.rs:54-64 | another, non-empty value for any of the three labels makes provisioning look again |
| Controllers.NodeControllers.DeleteSecret | src/controllers/node_deletion.rs:158-169 | an absent secret is no error |
| Controllers.NodeControllers.Teardown | src/controllers/node_deletion.rs:63-94 | server, secrets and finalizer go in this order, one call each, stopping at the first failure |
| Controllers.NodeControllers.CleanUpAfterServer | src/controllers/node_deletion.rs:96-113 | secrets go, then the node is deleted |
| Controllers.NodeControllers.AddFinalizer | src/controllers/node_deletion.rs:115-140 | the finalizer is added to bound nodes, provision candidates and adopted nodes that lack it |
| Controllers.NodeControllers.ReconcileDeletion | src/controllers/node_deletion.rs:13-140 | the reconcile makes exactly the calls of the step machine, for every world and every way they are answered |
| Controllers.NodeControllers.EnsureFinalizer | src/controllers/node_provision.rs:308-330 | the node is read afresh and gets the finalizer before anything is created |
| Controllers.NodeControllers.EnsurePassword | src/controllers/node_provision.rs:332-370 | an unreadable or absent password secret is written anew |
| Controllers.NodeControllers.LookupOrCreate | src/controllers/node_provision.rs:384-411 | a server of the node's name is reused, otherwise one is created |
| Controllers.NodeControllers.ProvisionNode | src/controllers/node_provision.rs:297-448 | finalizer, password, user data, server and binding in this order, stopping at the first failure |
| Controllers.NodeControllers.MissingLabels | src/controllers/node_provision.rs:72-81 | the missing labels are exactly those of the three the node lacks |
| Controllers.NodeControllers.ReconcileProvision | src/controllers/node_provision.rs:32-198 | the reconcile makes exactly the calls of the step machine, for every world and every way they are answered; what they do is in `Provisioning` |
| Controllers.NodeControllers.BindNode | src/controllers/node_bind.rs:48-91 | adoption binds the node to the server of its name, if there is one |
| Controllers.NodeControllers.ReconcileBind | src/controllers/node_bind.rs:13-46 | the reconcile makes exactly the calls of the step machine; what they do is in `Adoption` |
| Controllers.NodeControllers.BuildAddresses | src/controllers/node_sync.rs:63-81 | public addresses, private ones only inside a VPC, then the host name, in network order |
| Controllers.NodeControllers.MergeLabels | src/controllers/node_sync.rs:83-98 | all labels with the three desired ones on top, and whether one of these was missing or different |
| Controllers.NodeControllers.WriteNode | src/controllers/node_sync.rs:140-172 | labels and taints go in one patch, addresses in a second one, each only if needed |
| Controllers.NodeControllers.ReconcileSync | src/controllers/node_sync.rs:15-176 | the reconcile makes exactly the calls of the step machine |
| Autoscaler.BuildNodeLabelsAndTaints | src/autoscaler.rs:112-183 | the loops compute the attributes `NewNode` has; what those are is in the next rows |
| Autoscaler.NewNodeLabels | src/autoscaler.rs:113-152 | a new node has the controller's ten labels with their values, the template's last value of every other key it sets but the server id, and no other label |
| Autoscaler.NewNodeRest | src/autoscaler.rs:132-173 | a new node has the template's annotations, the uninitialized taint and then the template's other taints in order, our finalizer alone, no provider id and no addresses |
| Autoscaler.DroppedIsReported | src/autoscaler.rs:143-173 | a label is reported as dropped if and only if the template sets it and it is reserved, a taint if and only if the template has it and it is the uninitialized one |
| Autoscaler.BornReady | src/autoscaler.rs:670-699 | whatever the template, a node is born unbound and tainted uninitialized, with our finalizer, its group's label and its group's configuration |
| Autoscaler.BornAsSyncWants | src/autoscaler.rs:113-130 | a new node carries the labels sync wants for a server of its group, so sync has only taint and addresses left to write |
| Autoscaler.NamesDistinct | src/autoscaler.rs:630-632 | a name is prefix, time and index, and tells time and index, so names differ whenever either does |
| Autoscaler.NodeGroupForNode | src/autoscaler.rs:439-472 | the answer is the first group whose `{namePrefix}{name}-` the node's name starts with, and there is none only if no group's is |
| Autoscaler.LookupInvertsNaming | src/autoscaler.rs:452-467 | without nested prefixes every generated name leads back to its group, whose label the node carries, for every store order |
| Autoscaler.LookupExact | src/autoscaler.rs:452-467 | for any store, every generated name leads back to its group in every order if and only if no group's prefix is a prefix of another's |
| Scaling.Provider.CreateOne | src/autoscaler.rs:634-710 | user-data secret, password secret and node are made in this order; an existing node is no error |
| Scaling.Provider.IncreaseSize | src/autoscaler.rs:570-721 | the RPC makes exactly the specified calls, for every world and every way they are answered |
| Scaling.Provider.DeleteNodes | src/autoscaler.rs:723-752 | the RPC deletes node by node and stops at the first failure, an absent node included |
| Scaling.Provider.TargetSize | src/autoscaler.rs:556-568 | the target size is the number of live nodes with the group's label |
| Scaling.FindGroup | src/autoscaler.rs:66-71 | a group found has that name, and none is found only if none has it |
| ScalingTheorems.IncreaseExact | src/autoscaler.rs:570-721 | an increase is refused without effect for a size that is not positive, an unknown group or a limit that would be exceeded; otherwise it succeeds if and only if its calls are answered, one to list, one to prepare, two or three a node, one to note the time |
| ScalingTheorems.MakeNodeExact | src/autoscaler.rs:634-710 | making a node leaves user data, password and node, in this order, as far as its calls are answered |
| ScalingTheorems.NoOtherSecrets | src/autoscaler.rs:634-710 | however an increase ends, every secret it wrote belongs to one of the names it was to make |
| ScalingTheorems.MakeNodesBound | src/autoscaler.rs:630-712 | an increase, successful or not, adds at most the nodes still to make, and none to another group |
| ScalingTheorems.IncreaseAddsDelta | src/autoscaler.rs:630-712 | a successful increase under new names adds exactly `delta` members, each a new node of the group, and leaves every other node and all servers alone |
| ScalingTheorems.SecretsBeforeNodes | src/autoscaler.rs:634-710 | however an increase ends, every node it made has its password secret and, if the group has user data, that one too |
| ScalingTheorems.GuardExact | src/autoscaler.rs:590-596 | the guard refuses exactly if the limit is not negative and would be exceeded |
| ScalingTheorems.IncreaseRespectsLimit | src/autoscaler.rs:590-596 | a successful increase under new names ends within the limit if and only if the limit is not negative |
| ScalingTheorems.NegativeLimitLetsThrough | src/autoscaler.rs:590-596 | a concrete increase under a negative limit succeeds |
| ScalingTheorems.DecreaseSubtracts | src/autoscaler.rs:737-743 | deleting k distinct live members subtracts exactly k |
| ScalingTheorems.DecreaseExact | src/autoscaler.rs:723-752 | a decrease is refused for an unknown group, fails if a named node is absent or a call is not answered, otherwise has every named node deleted or being deleted; it never does anything but delete named nodes |
| ScalingTheorems.ScaleBound | src/autoscaler.rs:556-752 | over every run of the RPCs, including those that fail midway, a group stays within its limit and its target size is reported without truncation |
| CatalogCache.RefreshesAreSpaced | src/controllers/mod.rs:108-151 | over every interleaving, successive successful refreshes are at least 300 s apart |
| CatalogCache.AnswersComeFromOneRefresh | src/controllers/mod.rs:108-151 | every answer has sizes, regions and images of one refresh, under 300 s old when checked or just made |
| CatalogCache.FailureChangesNothing | src/controllers/mod.rs:135-137 | a failed refresh or a dropped caller changes nothing but its own lock |
| CatalogCache.NoDeadlock | src/controllers/mod.rs:110-151 | while a caller is unfinished some caller can take a step |
| CatalogCache.ChecksAreExact | src/controllers/mod.rs:110-133 | under either lock a caller answers from the cache if and only if the last refresh is under 300 s old |
| CatalogCache.ListsAreAsFetched | src/controllers/mod.rs:135-150 | over every run, each refresh has the answers of three fetches in a row, of sizes, regions and images, by one caller; who refreshed has its own; only a caller one of whose fetches failed ends in an error |
| CatalogCache.FetchesOnlyWhenStale | src/controllers/mod.rs:122-137 | nothing is fetched while the last refresh is under 300 s old |
| CatalogCache.CallersFinish | src/controllers/mod.rs:108-151 | a caller that is not dropped takes nine steps at most, whatever the others do |
| Sorting.SameSorted | src/controllers/service.rs:144-150 | two lists sort stably to the same exactly if they agree key by key on elements and order |
| Sorting.SameInts | src/controllers/service.rs:151-157 | two id lists sort to the same exactly if they are the same counting repetitions |
| LoadBalancers.GetReadyNodeServerIds | src/controllers/service.rs:314-345 | the loop lists the servers of ready nodes in order |
| LoadBalancers.ReadyIdsExact | src/controllers/service.rs:314-345 | a server is listed exactly if a ready node is bound to it |
| LoadBalancers.ReadyIdsInOrder | src/controllers/service.rs:314-345 | there is one id for each node bound and ready, its server's, in the order of the nodes |
| LoadBalancers.NeedsUpdate | src/controllers/service.rs:141-157 | the accumulated flag is false if and only if the load balancer has the desired name, the same rules in the same order port by port, and the same servers counting repetitions |
| LoadBalancers.DriftExact | src/controllers/service.rs:141-157 | no update if and only if same name, same rules in the same order port by port, same servers counting repetitions |
| LoadBalancers.NoUpdateIsSound | src/controllers/service.rs:141-157 | no update implies the same name, rules and servers |
| LoadBalancers.NoSpuriousUpdate | src/controllers/service.rs:141-157 | with distinct entry ports an update is asked for if and only if something differs |
| LoadBalancers.SpuriousUpdate | src/controllers/service.rs:144-150 | with one port for two protocols an update can be asked for although nothing differs |
| LoadBalancers.ServiceController.CreateLoadBalancer | src/controllers/service.rs:192-231 | create, note the id on the service, publish the address, stopping at the first failure |
| LoadBalancers.ServiceController.SettleLoadBalancer | src/controllers/service.rs:120-176 | a missing load balancer is made anew, one that drifted updated, any other only published |
| LoadBalancers.ServiceController.ReconcileService | src/controllers/service.rs:47-189 | the reconcile makes exactly the specified calls, for every site and every way they are answered |
| LoadBalancers.SuccessSettles | src/controllers/service.rs:75-231 | a successful reconcile leaves a load balancer `k8s-{ns}-{name}` with one rule for each port, from its number to its node port or its number, both ends by its protocol in lower case or TCP; with the ready servers, counting repetitions; and its address published |
| LoadBalancers.SuccessMakesOneIfGone | src/controllers/service.rs:120-176 | a successful reconcile keeps the load balancer the service names, and makes one and has the service name it only if there is none |
| LoadBalancers.ReconcileSucceedsExactly | src/controllers/service.rs:47-189 | a reconcile succeeds if and only if its calls, as many as the finalizer, the drift and the address take, are answered, the annotation is absent or a number, and an id is left if one is needed |
| LoadBalancers.CreateExact | src/controllers/service.rs:192-231 | making a load balancer leaves it, its annotation and its address, in this order, as far as its calls are answered |
| LoadBalancers.NextReconcileChangesNothing | src/controllers/service.rs:141-176 | after a successful reconcile the next one on the same ports and ready servers, listed in any order, changes nothing at all |
| LoadBalancers.OtherLoadBalancersUntouched | src/controllers/service.rs:47-231 | however it ends, a reconcile touches only its own load balancer or a new one, and of the service only adds our finalizer last, notes a new load balancer and sets the ingress |
| Quoting.ShellSingleQuote | xtask/src/main.rs:1950-1964 | the loop computes the quoted form |
| Quoting.ShellRoundTrip | xtask/src/main.rs:1950-1964 | for every string the quoted form reads as one word equal to it |
| Quoting.ExportsRoundTrip | xtask/src/main.rs:1966-1968 | a script of export lines sets exactly the variables it was printed from |
| Quoting.YamlRoundTrip | xtask/src/main.rs:1923-1925 | between double quotes the escaped form reads back as the value if and only if it has no line break and no control character but tab |
| Quoting.LineBreaksAreLost | xtask/src/main.rs:1923-1925 | a value with line breaks reads, folded, as one with fewer |
| Quoting.OtherOrderFails | xtask/src/main.rs:1923-1925 | the two replacements cannot be swapped |

## Left out

- HTTP, TLS, gRPC, JSON decoding, pagination, logging and events: no decision worth proving; the two remote APIs are abstract state.
- Failing reads in the webhook: listing zones and records always answers; a failure there ends a request before any write.
- `refresh_nameserver_cache` (`src/dns_webhook.rs:292-309`): best effort, after all writes.
- Propagation of TTL, priority or port changes on unchanged targets: the code creates records only for target differences.
- Contents of secrets: only their names are kept, so a password secret without a password counts as present; passwords and timestamps are arbitrary.
- Owner references on secrets (`src/controllers/node_deletion.rs:142-153`): best effort, and without effect on what is proved.
- Freedom from orphaned servers when deletion interleaves with an unfinished provision: teardown skips the server while the provider id is unset.
- Preservation of other finalizers under stale reads: the controllers write whole lists.
- Ownership.ServersAreOwned: is about nodes without the adopt annotation, for which nothing says who made the server.
- Cluster.FindServer: of several servers of one name it takes the least id; no theorem relies on which.
- Interleaved.BindingInvariants: others are assumed not to edit provider id and server-id label, and a sync patch to meet a node that names the server it read; see above.
- Interleaved.NoDuplicateServers: a server others make under a name between a run's lookup and its create is excluded by trust, as the code cannot see it.
- Provisioning.AnsweredRunProvisions: is about nodes without a provider id; with another one the API server refuses the bind.
- Latch.LatchIsSound: a failing catalog fetch, which ends a run before its first write, is not a step of the model.
- Scaling.Provider.IncreaseSize: the shared password secret, the size lookup and the template variables are one call that may fail; rendering user data is part of the call that stores it.
- ScalingTheorems.ScaleBound: RPCs run one at a time; two increases at once can both pass the guard.
- CatalogCache.CallersFinish: counts a caller's own steps; that it gets the lock in the end is left to the scheduler.
- CatalogCache.NoDeadlock: says that some step is possible, not that the scheduler is fair.
- LoadBalancers.ServiceController.ReconcileService: deletion of the service is not modelled, as it fails on an absent load balancer; health checks are not compared by the code.
- LoadBalancers.NextReconcileChangesNothing: supposes that the provider echoes an update back as sent.
- Quoting.ShellRoundTrip: the reader covers literal words; expansions, double quotes and operators are refused, not interpreted.
- Quoting.YamlRoundTrip: the reader does not know hexadecimal escapes, and does not ask how far continuation lines are indented.
- Removal.OrphanedNodeIsRemoved: runs of other controllers are included for nodes with the server-id label, as bound nodes have; without it provisioning might start.
- Resolution of the enabled controllers, CRD types, Helm charts and the rest of the development tool: easy members or scripts.
- MiniJinja rendering and variable resolution (`src/user_data.rs`): a foreign engine.
