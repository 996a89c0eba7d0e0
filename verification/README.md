# Crit control-plane and bootstrap providers: a verified model

This project models the controllers of the crit Cluster API provider in Dafny and proves what they keep over whole
runs: how a control plane is initialised, upgraded machine by machine and deleted; how a workload cluster's caches
and watches are shared between goroutines; how several controllers agree on one set of cluster certificates; and how
a worker's bootstrap secret and its token stay together.

Two forms are used side by side.

* **Protocols.** Where the promise is about every interleaving, the steps are a transition relation over a state value,
  a run is an inductive value (`Trace`), and the theorems are about all runs. The reads and writes a reconcile
  makes one after the other are steps of their own, other actors may act between any two of them, and any step may
  fail; the calls that are taken together as one step are named at the end.
* **Code.** Where the source works step by step on objects, there is a class with the same methods, branches and loops
  (`ControlPlaneController.Reconciler`, `ClusterCacheTracker.Tracker`, `CertificateClient.Client`,
  `BootstrapController.Reconciler`, `Creation.Store`, `DeletionController.Reconciler`). What others do before each API
  call and which calls fail are parameters (`World`). In the control-plane, deletion, certificate and bootstrap classes a
  ghost field holds the run made so far, and every method proves that it only extends that run with legal steps of the
  protocol; so the theorems about runs hold of the code. Beside that the methods say exactly what they do when nothing
  comes in between.

| files | about |
|---|---|
| `Common`, `Machines`, `FailureDomains`, `Health` | machine collections, placement and choice of a victim, the health gate |
| `RollingUpgrade`, `UpgradeSafety`, `UpgradeLedger`, `UpgradeLiveness`, `UpgradeLimits` | the rolling upgrade as a protocol: availability and surge, accounting and end, progress, where the guarantees end |
| `ControlPlaneController` | the control-plane reconciler as code |
| `ClusterCache`, `ClusterCacheSafety`, `ClusterCacheRuns`, `ClusterCacheProgress` | the cluster cache tracker with its three kinds of lock as a protocol |
| `ClusterCacheTracker`, `HealthPolling` | its maps, caches and polling loop as code |
| `Certificates`, `CertificateAgreement`, `CertificateClient` | names and secrets, agreement of concurrent callers, one caller as code |
| `Bootstrap`, `BootstrapController` | token, secret and status of a worker's config |
| `Creation` | the three objects of a machine with their clean-up |
| `Deletion`, `DeletionController` | deletion, the timestamp and the finalizer |

## Main results

* **Upgrade, reads as separate steps.** From k joined machines at least k or `replicas` serve, whichever is less, at most
  k or `replicas + 2` are owned, whichever is more, and at most one is being deleted (`AvailabilityAndSurge`). The level
  `replicas + 2` is reached by creations in exactly the runs in which one was decided with more than `replicas` machines
  listed (`SurgeExactlyWhen`), that is, on a node count that misses a machine (`SurplusIsShortCount`). Under a fixed spec
  r outdated machines take r deletions, and the upgrade ends with `replicas` machines, or with the k - r that matched
  all along if those are more, and with one more exactly when such a creation happened while one outdated machine was
  left (`UpgradeEnds`). Which of the two sizes can come about, from every joined start, is exact (`EndsExactly`,
  `CanOvershoot`), and the outcome stays (`CompleteForGood`). With atomic reconciles there is no surplus
  (`AtomicUpgrade`). Every run can be finished (`CanFinish`), and is once enough reconciles have got past listing the
  machines and ended without an error (`CompleteAfterEnough`). The assumption that a node leaves before its Machine
  object is needed: without it every settled control plane with two machines to replace has a run in which only
  `replicas - 1` serve (`NodesMustLeaveFirst`), and no other has (`AvailabilityLostExactly`).
* **Initialisation.** One that fails part of the way can leave any number of machines (`InitialisationMayLeave`) and is
  not completed under its spec (`NeverToppedUp`): `replicas` are reached exactly from none or from `replicas`
  (`ReplicasReachedExactly`). An upgrade makes up for it (`UpgradeReachesReplicasExactly`).
* **Balance.** Creations keep every bound of at least one on the difference between failure domains
  (`EveryCreationKeepsSpread`). Deletions can break it (`VictimBreaksBalance`), exactly under the
  condition of `VictimKeepsSpreadExactly`.
* **Caches.** Recorded watches are on running mapped caches unless a tear-down is about to delete them
  (`WatchesAreLive`); a watch is established at most once between deletions (`EstablishedOnce`); stop channels are closed
  once (`StoppedOnce`); nothing deadlocks (`WaitsEnd`). A cache is lost, running outside the map with nobody about to
  stop it, exactly if a tear-down unmapped it in that condition (`LeakedExactly`), and then for ever (`LeakIsForever`).
  Serialised tear-downs never do that (`SerialNeverDrops`); overlapping ones can (`OverlapLeaks`), and a single deleted
  cluster is enough, because closing its cache's stop channel makes that cache's own health check start a second one.
* **Certificates.** All successful callers for one cluster hold the stored pairs (`KeyAgreement`). Secret names of two
  clusters collide exactly for the front-proxy CA of `x-auth` and the auth-proxy CA of `x` (`NamesCollideExactly`).
* **Bootstrap.** Ready implies that the secret holds the token of the spec (`ReadyAgrees`). A config with a secret is
  ready exactly if the patch after writing it was not lost and no lost status is still to be restored
  (`ReadyExactlyWhen`). It can never become ready exactly if that patch was lost, or the status was lost before the
  Machine had the secret's name (`ReadyPossibleExactly`, `NeverReadyAfterLoss`, `StatusMayGoTooEarly`). After a lost
  patch the spec holds another token than the secret exactly if the user supplied none (`TokensDivergeExactly`,
  `TokensMayDiverge`).
* **Deletion.** The timestamp is looked at once, so machines may still be created after it exactly as far as the reconcile
  running then has room for them (`CreatableExactly`), and none from the first reconcile that sees it. An object whose
  finalizer is persisted goes after its last machine (`FinalizerGoesLast`); before the first patch has got through,
  deleting it can leave machines behind (`OrphansExactly`).

Where the code does less than its comments say, the model follows the code: the comment on `healthCheck` promises a
one-to-one match of nodes and machines, which holds only if no two machines share a node (`MatchedIsOneToOne`,
`SharedNodePasses`); the comment on `ControlPlaneIsHealthy` promises that nodes without errors have nil entries, and a
node whose API server is not ready has one too (`ApiServerResultIsLost`).

## Model

| member | source | states |
|---|---|---|
| Machines.Insert | internal/machine_collection.go:61-69 | Inserting keys machines by name: the keys grow by the names inserted, of machines with one name the last wins, and machines whose name is not inserted stay |
| Machines.Filter | internal/machine_collection.go:95-109 | The loop over an unordered list yields exactly the machines that pass, under their names |
| Machines.Oldest | internal/machine_collection.go:72-79 | None exactly for the empty collection; otherwise a member no member is older than, whatever the sort does with ties |
| FailureDomains.Pick | internal/failure_domain.go:105-138 | Each known domain exactly once with its exact machine count, whatever the iteration orders |
| FailureDomains.CountMachines | internal/failure_domain.go:110-128 | The counters of known domains equal the machines in them; machines in no or an unknown domain change nothing |
| FailureDomains.CountsAddUp | internal/failure_domain.go:117-135 | The counts add up to the number of machines in known domains |
| FailureDomains.PickFewest | internal/failure_domain.go:81-88 | nil exactly without domains, otherwise a domain with fewest machines |
| FailureDomains.PickNFewest | internal/failure_domain.go:91-103 | The n slots are dealt in turn over a ranking of all domains by machine count; all nil without domains |
| FailureDomains.SharesExact | internal/failure_domain.go:98-101 | Rank p of k gets exactly (n - p + k - 1) / k of n slots if n >= p, none otherwise |
| FailureDomains.ShareRounds | internal/failure_domain.go:98-101 | That share is one per full round, and one more for the ranks of the last partial round |
| FailureDomains.SharesFair | internal/failure_domain.go:97-101 | Shares differ by at most one, and a domain with fewer machines never gets fewer slots than one with more |
| FailureDomains.InitialSpread | controllers/controlplane/controlplane.go:116-124 | Machines created from nothing, one per slot, leave any two domains within one of each other |
| FailureDomains.FewestKeepsSpread | internal/control_plane.go:156-163 | A machine created in a fewest domain keeps every bound of at least one on the difference between domains |
| FailureDomains.OrderDescending | internal/failure_domain.go:71-78 | The exact counts of all domains, fullest first |
| FailureDomains.PickMost | internal/failure_domain.go:54-68 | A domain holding a candidate with the greatest total count among such domains; nil exactly if no candidate is in a known domain |
| FailureDomains.FailureDomainWithMostMachines | internal/control_plane.go:141-154 | The domain of an oldest candidate outside the known domains if there is one, otherwise the fullest domain holding a candidate |
| FailureDomains.MachineInFailureDomainWithMostMachines | internal/control_plane.go:129-137 | An error exactly without candidates; otherwise the oldest stray candidate, or else the oldest candidate of a fullest domain holding one |
| FailureDomains.VictimExists | internal/control_plane.go:129-154 | Every non-empty candidate set has such a victim |
| FailureDomains.RemovalKeepsSpreadExactly | controllers/controlplane/upgrade.go:65-89 | Removing a machine keeps a bound b on the difference between domains exactly if its domain is unknown or no other domain has b machines more |
| FailureDomains.VictimKeepsSpreadExactly | internal/control_plane.go:129-154 | For the victim a bound of at least one breaks exactly against a domain without candidates that has b machines more; a stray victim breaks none |
| FailureDomains.OnlyCandidateKeepsSpreadExactly | controllers/controlplane/upgrade.go:100-106 | A single outdated machine is the victim whatever the other domains hold, so the bound breaks exactly if its domain is b machines thinner than another |
| FailureDomains.VictimBreaksBalance | controllers/controlplane/upgrade.go:100-106 | A balanced state from which every choice of the victim leaves an unbalanced one |
| Health.CheckStaticPodReadyCondition | internal/workload_cluster.go:118-132 | No error exactly if there is a ready condition and all of them are true; which error otherwise |
| Health.CheckNodeNoExecuteCondition | internal/workload_cluster.go:134-141 | An error exactly if some taint is an unreachable NoExecute one |
| Health.ControlPlaneIsHealthy | internal/workload_cluster.go:44-84 | Every listed node has an entry, nil exactly if it has no such taint, its API-server pod was fetched and its controller-manager pod is ready |
| Health.ApiServerResultIsLost | internal/workload_cluster.go:69-80 | A nil entry means that both pods are ready exactly up to the overwritten API-server result, and a node shows the gap |
| Health.HealthCheck | internal/cluster.go:171-206 | nil exactly if the checks came back without error, the machines could be listed, each has a checked node, and there are as many nodes as machines |
| Health.MatchedIsOneToOne | internal/cluster.go:192-204 | nodeRef is a bijection from machines onto nodes exactly if the code's test passes and no two machines share a node |
| Health.SharedNodePasses | internal/cluster.go:192-204 | Two machines sharing a node let a node without machine pass |
| UpgradeSafety.AvailabilityAndSurge | controllers/controlplane/upgrade.go:18-126 | In every run from k joined machines, reads separate and anything between: at least the lesser of k and replicas serve, at most the greater of k and replicas + 2 are owned, at most one is being deleted |
| UpgradeSafety.AllServe | controllers/controlplane/upgrade.go:108-126 | Past the health gate every owned machine serves, the list is current, and the node count misses at most one machine |
| UpgradeSafety.CreateLevel | controllers/controlplane/upgrade.go:32-34 | A creation reaches at most replicas + 2, and exactly when more than replicas machines were listed, one of which the node count missed |
| UpgradeSafety.SurplusIsShortCount | controllers/controlplane/upgrade.go:27-34 | In every run from replicas machines or more, such a surplus creation is exactly one decided on a node count below the number of machines listed |
| UpgradeSafety.EveryActionIsGated | controllers/controlplane/upgrade.go:39-97 | In every run a machine is created or marked only when all owned machines have joined and none is being deleted, and the victim is outdated |
| UpgradeSafety.EveryCreationKeepsSpread | controllers/controlplane/upgrade.go:43-48 | In every run a scale-up keeps every bound of at least one on the difference between failure domains, whatever joins while it decides |
| UpgradeLedger.SurgeExactlyWhen | controllers/controlplane/upgrade.go:27-36 | From k machines the peak of a run is the greater of k and replicas + 2 if it has a surplus creation, and at most the greater of k and replicas + 1 otherwise |
| UpgradeLedger.LedgerAlways | controllers/controlplane/upgrade.go:32-105 | In every run under a fixed spec creations minus deletions is the change in live machines, deletions are the outdated machines gone, and where the counts can be before and after a late surplus |
| UpgradeLedger.EffectiveStepsExact | controllers/controlplane/upgrade.go:32-105 | Each creation and each deletion takes exactly one off a measure, and there are at most as many as there are outdated machines and machines lacking to replicas + 1 of the spec |
| UpgradeLedger.UpgradeEnds | controllers/controlplane/controlplane.go:98-110 | A completed upgrade of r among k joined machines took r deletions and ends with replicas machines, made up for or reduced as needed, or with the k - r that matched all along if they were more, or all k if r is zero; one more exactly after a late surplus |
| UpgradeLedger.LateNeedsRoom | controllers/controlplane/upgrade.go:27-34 | A late surplus needs fewer than replicas machines matching at the start, since it takes a creation before it |
| UpgradeLedger.CompleteAfterEnough | controllers/controlplane/upgrade.go:32-105 | Every run under a fixed spec in which more reconciles got past the list of machines and ended without an error than an upgrade has steps at most (2 r + 1 from replicas machines) has completed the upgrade, whatever failed or happened in between |
| UpgradeLiveness.CompleteForGood | controllers/controlplane/controlplane.go:98-110 | A run that has reached a state in which every machine matches the spec never creates or deletes one again |
| UpgradeLedger.AtomicNeverSurplus | controllers/controlplane/upgrade.go:27-47 | Undisturbed reconciles never create on a short node count |
| UpgradeLedger.AtomicUpgrade | controllers/controlplane/upgrade.go:32-98 | With atomic reconciles the peak is replicas + 1, or the start if above, and a completed upgrade of r machines took exactly r deletions and is at the size without surplus |
| UpgradeLiveness.CanFinish | controllers/controlplane/upgrade.go:18-105 | Every run under a fixed spec has a continuation in which all machines match it |
| UpgradeLiveness.Advance | controllers/controlplane/upgrade.go:32-98 | From rest with something outdated there is a reconcile that creates one machine at replicas or below and deletes an outdated one above; that every undisturbed one does is stated by ReconcileControlPlane |
| UpgradeLiveness.CanOvershoot | controllers/controlplane/upgrade.go:27-34 | From joined machines with something outdated and fewer than replicas matching, some run completes with replicas + 1 machines |
| UpgradeLiveness.EndsExactly | controllers/controlplane/upgrade.go:18-105 | The sizes with which an upgrade can end, exactly: that without surplus, and replicas + 1 if and only if something is outdated and fewer than replicas match at the start |
| UpgradeLimits.NeverToppedUp | controllers/controlplane/controlplane.go:108-129 | With some machines, all matching and none being deleted, no run under that spec creates or deletes any, whatever replicas is |
| UpgradeLimits.InitialisationMayLeave | controllers/controlplane/controlplane.go:112-128 | From no machines each number up to replicas is left by a run of an initialisation that fails at that point |
| UpgradeLimits.ReplicasReachedExactly | controllers/controlplane/controlplane.go:108-129 | From rest with only machines of the spec and none being deleted, some run under it has replicas machines exactly if there are none at the start, or replicas |
| UpgradeLimits.UpgradeReachesReplicasExactly | controllers/controlplane/controlplane.go:98-110 | From k joined machines with o outdated, some run under the spec has replicas machines exactly if k is replicas, or o is not zero and at most replicas match; so an upgrade makes up for a partial initialisation |
| UpgradeLimits.NodesMustLeaveFirst | controllers/controlplane/upgrade.go:27-36 | If a Machine object may go before its node, every settled control plane with two outdated machines has a run in which replicas - 1 serve |
| UpgradeLimits.AvailabilityLostExactly | controllers/controlplane/upgrade.go:27-36 | Without that assumption, under a fixed spec, fewer than replicas can come to serve exactly if there are at least two machines to replace |
| ControlPlaneController.Reconciler.ReconcileControlPlane | controllers/controlplane/controlplane.go:44-130 | Whatever others do and whichever calls fail, one reconcile is a run of the protocol with at most one scaling step, and keeps the safety bounds from any joined start; left alone it adopts its machines and does exactly the dispatch, upgrade or initialisation, and is one that got past the list without an error if it scaled or found nothing to do |
| ControlPlaneController.Reconciler.Dispatch | controllers/controlplane/controlplane.go:98-129 | Upgrade if any owned machine is outdated, nothing if there are any, initialisation if there are none |
| ControlPlaneController.Reconciler.Prepare | controllers/controlplane/controlplane.go:56-82 | Without failing calls the first prerequisite missing ends the reconcile: an error for template, certificates or kubeconfig, no error for the endpoint; no machine is touched |
| ControlPlaneController.Reconciler.EnsureOwnership | internal/control_plane.go:86-108 | Success means that no listed machine has another controller and all are this control plane's now; left alone it succeeds exactly if none has another controller and none to be adopted is gone, and the stored machines are the adopted ones |
| ControlPlaneController.Reconciler.UpgradeControlPlane | controllers/controlplane/upgrade.go:18-37 | Requeues exactly if it created or deleted one machine; left alone, up at a node count of replicas or below, down above |
| ControlPlaneController.Reconciler.ScaleUpControlPlane | controllers/controlplane/upgrade.go:39-56 | Left alone adds one machine of the spec in a fewest domain exactly if the health gate is open and the name is new, and changes nothing otherwise |
| ControlPlaneController.Reconciler.ScaleDownControlPlane | controllers/controlplane/upgrade.go:58-98 | Left alone marks the victim among the outdated machines exactly if the health gate is open, and changes nothing otherwise |
| ControlPlaneController.Reconciler.SelectMachineForScaleDown | controllers/controlplane/upgrade.go:100-106 | The victim among the outdated machines if there are any, among all otherwise; none exactly for no machines |
| ControlPlaneController.Reconciler.ReconcileHealth | controllers/controlplane/upgrade.go:108-126 | Healthy, left alone, exactly if every node passes, nodes and machines match, and no listed machine is being deleted |
| ControlPlaneController.Reconciler.TargetClusterControlPlaneIsHealthy | internal/cluster.go:209-216 | Healthy, left alone, exactly if every node passes and nodes and machines match; in any case the match is of the nodes and machines it read |
| ControlPlaneController.Reconciler.InitialiseControlPlane | controllers/controlplane/controlplane.go:112-128 | Creates a prefix of the slots, all of them exactly if it requeues; without interference exactly those machines are added |
| ClusterCacheSafety.InvAlways | internal/remote/cluster_cache.go:59-343 | The lock, cache and watch invariants hold after every step of every interleaving |
| ClusterCacheSafety.LocksNext | internal/remote/cluster_cache.go:77-81 | Each read-write lock stays held by exactly the threads inside its sections, one writer or only readers |
| ClusterCacheSafety.NoneEstablishes | internal/remote/cluster_cache.go:121-126 | While a cluster's watches are deleted no Watch call is between getting its cache and recording |
| ClusterCacheRuns.WatchesAreLive | internal/remote/cluster_cache.go:151-198 | A recorded watch is on the running cache mapped for its cluster unless a tear-down of it has yet to delete watches; without one no mapped cache is stopped |
| ClusterCacheRuns.EstablishedOnce | internal/remote/cluster_cache.go:158-197 | Between watch deletions a watch is established at most once, and recorded exactly if it was, but for the call about to record it |
| ClusterCacheRuns.StoppedOnce | internal/remote/cluster_cache.go:60-70 | A stop channel is closed at most once, and exactly when stopped is set while the cache's lock is free |
| ClusterCacheRuns.CreatedIsMappedOrRemoved | internal/remote/cluster_cache.go:219-263 | Caches created for a cluster are those removed plus the mapped one, so at most one more than the deletions |
| ClusterCacheRuns.LeakedExactly | internal/remote/cluster_cache.go:329-341 | In every run a cache runs outside the map with nobody about to stop it exactly if some tear-down unmapped it while it was running and nobody was about to stop it |
| ClusterCacheRuns.SerialNeverDrops | internal/remote/cluster_cache.go:420-432 | With tear-downs of a cluster one at a time that never happens, and every created cache is mapped or stopped |
| ClusterCacheRuns.LeakIsForever | internal/remote/cluster_cache.go:219-263 | A running cache outside the map that nobody is about to stop is never stopped or mapped again |
| ClusterCacheProgress.WaitsEnd | internal/remote/cluster_cache.go:158-197 | From every unfinished thread a chain of at most five threads, each blocked by the next, ends at one that can move, even if no reader is let in while a writer waits: no reachable state deadlocks |
| ClusterCacheProgress.InnerLocksDoNotWait | internal/remote/cluster_cache.go:211-263 | Whoever is inside a section of the map's lock or of a cache's lock waits for nothing |
| ClusterCacheProgress.WatchAlone | internal/remote/cluster_cache.go:151-256 | A Watch call left alone maps a new running cache with a health check of its own and records the watch on it |
| ClusterCacheProgress.TearDownAlone | internal/remote/cluster_cache.go:420-432 | A tear-down left alone stops, unmaps and forgets, as the code's method does |
| ClusterCacheProgress.OverlapLeaks | internal/remote/cluster_cache.go:329-341 | For any watch there is a run in which two overlapping tear-downs leave a later cache running outside the map for ever |
| ClusterCacheTracker.ClusterCache.Stop | internal/remote/cluster_cache.go:60-70 | Stopped afterwards, and the channel closed exactly if it was not before |
| ClusterCacheTracker.Tracker.Watch | internal/remote/cluster_cache.go:151-198 | Succeeds exactly if the watch was there, or a cache could be had and the watcher accepted it; the whole new state of maps and caches |
| ClusterCacheTracker.Tracker.NewClusterCache | internal/remote/cluster_cache.go:219-256 | Returns the mapped cache without overwriting it, otherwise maps a new running one; nothing exactly if it could not be built |
| ClusterCacheTracker.Tracker.GetOrCreateClusterCache | internal/remote/cluster_cache.go:201-208 | The mapped cache if there is one, otherwise a new one |
| ClusterCacheTracker.Tracker.DeleteWatchesForCluster | internal/remote/cluster_cache.go:121-126 | Exactly the cluster's watches go |
| ClusterCacheTracker.Tracker.DeleteClusterCache | internal/remote/cluster_cache.go:258-263 | Exactly the cluster's entry goes |
| ClusterCacheTracker.Tracker.TearDown | internal/remote/cluster_cache.go:420-432 | The mapped cache is stopped, unmapped and its watches deleted; nothing without one |
| ClusterCacheTracker.Tracker.HealthCheckCluster | internal/remote/cluster_cache.go:295-343 | A tear-down exactly if the polling ended with an error |
| ClusterCacheTracker.Tracker.Reconcile | internal/remote/cluster_cache.go:401-435 | A tear-down exactly if the cluster is not found; an error exactly if fetching it failed otherwise |
| ClusterCacheTracker.TearDownIsClean | internal/remote/cluster_cache.go:420-432 | Nothing of the cluster is left, its cache is closed once, other clusters are untouched, and a second tear-down changes nothing |
| ClusterCacheTracker.WatchAfterTearDown | internal/remote/cluster_cache.go:151-198 | The next successful Watch call puts the watch on a new running cache |
| HealthPolling.HealthCheckCluster | internal/remote/cluster_cache.go:299-329 | The counter is the failing suffix of the polls made, and the loop ends with an error at the first poll whose last t outcomes all failed, or at a closed stop channel, and quietly if the cache is gone |
| HealthPolling.Threshold | internal/remote/cluster_cache.go:277-290 | The threshold in force is at least one |
| Certificates.NamesCollideExactly | internal/secret/secret.go:50-52 | Two secret names are equal exactly for the same cluster and purpose, or the front-proxy CA of a cluster named after the other with -auth and the other's auth-proxy CA |
| Certificates.SecretRoundTrip | internal/secret/certificates.go:247-266 | Reading back a saved certificate gives its key pair |
| CertificateAgreement.InvAlways | internal/secret/certificates.go:117-217 | In every interleaving a pair looked up or saved is the stored one |
| CertificateAgreement.StoredForGood | internal/secret/certificates.go:186-197 | A stored secret never changes |
| CertificateAgreement.SuccessAgrees | internal/secret/certificates.go:200-217 | A call that succeeds holds exactly the stored pairs; only the user-supplied certificate may be missing |
| CertificateAgreement.KeyAgreement | internal/secret/certificates.go:200-217 | Any two successful calls for one cluster hold the same pair for each purpose |
| CertificateAgreement.ClustersMayShare | internal/secret/secret.go:50-52 | Calls for two clusters whose names collide can both succeed with one pair |
| CertificateClient.Client.Lookup | internal/secret/certificates.go:117-139 | Left alone succeeds exactly if every secret there is readable, with exactly their pairs |
| CertificateClient.Client.Generate | internal/secret/certificates.go:161-183 | Every missing pair but the user-supplied one is generated and marked; the others are kept |
| CertificateClient.Client.SaveGenerated | internal/secret/certificates.go:186-197 | Left alone it succeeds exactly if no secret of a generated certificate exists, and every new secret is that of a generated certificate |
| CertificateClient.Client.LookupOrGenerate | internal/secret/certificates.go:200-217 | Success means the stored pairs, whatever others create; left alone it succeeds exactly if the secrets there are readable |
| CertificateClient.Client.EnsureAllExist | internal/secret/certificates.go:142-155 | No error exactly if every certificate has certificate and key data; otherwise the error of the first that lacks something |
| CertificateClient.Client.GetByPurpose | internal/secret/certificates.go:107-114 | The first certificate of the purpose, nothing exactly if there is none |
| Bootstrap.ReadyAgrees | controllers/bootstrap/worker.go:217-263 | In every run persisted Ready implies that the secret holds the token of the persisted spec, and every refresh extends the secret's token |
| Bootstrap.WrittenOnce | controllers/bootstrap/helpers.go:59-65 | The secret is written at most once and never changed |
| Bootstrap.ReadyIsNotCleared | controllers/bootstrap/controller.go:154-169 | No step of the controller clears Ready |
| Bootstrap.ReadyExactlyWhen | controllers/bootstrap/helpers.go:59-68 | Between reconciles, in every run, a config with a secret is ready exactly if the patch of the reconcile that wrote it got through and no status lost since is still to be restored |
| Bootstrap.NeverReadyAfterLoss | controllers/bootstrap/helpers.go:60-63 | After a lost patch, or a status lost before the Machine had the secret's name, no run makes the config ready |
| Bootstrap.ReadyPossibleExactly | controllers/bootstrap/controller.go:154-160 | Between reconciles, in every run, a config with a secret is ready or can still become so exactly if neither loss has happened |
| Bootstrap.StatusMayGoTooEarly | controllers/bootstrap/controller.go:154-160 | A run without a lost patch in which the status goes before the Machine has the secret's name |
| Bootstrap.TokensDivergeExactly | controllers/bootstrap/worker.go:248-262 | Between reconciles the token of the spec is not the secret's exactly if the patch of the reconcile that wrote the secret was lost and the config came without a token |
| Bootstrap.TokensMayDiverge | controllers/bootstrap/worker.go:248-262 | A run after a lost patch that persists another token in the spec than the secret holds |
| BootstrapController.Reconciler.Reconcile | controllers/bootstrap/controller.go:97-192 | One reconcile is a run of the protocol and keeps secret and agreement; left alone exactly the restore, refresh or store that is due |
| BootstrapController.Reconciler.ReconcileWorker | controllers/bootstrap/worker.go:43-92 | Left alone: a ready config is kept and refreshed until the infrastructure is ready, another gets its secret and becomes ready unless the secret was there |
| BootstrapController.Reconciler.ReconcileWorkerBootstrapToken | controllers/bootstrap/worker.go:217-263 | Refresh and return for a ready config whose token is not consumed; otherwise the token there is, or a new one |
| BootstrapController.Reconciler.StoreBootstrapData | controllers/bootstrap/helpers.go:35-69 | A new secret holds the token and sets Ready and the name; an existing one is left alone and sets neither; a failed creation changes nothing |
| Creation.Store.CloneConfigsAndGenerateMachine | controllers/controlplane/helpers.go:52-101 | All or nothing up to a failed clean-up, and in every case all references are live and unshared |
| Creation.Store.CleanupFromGeneration | controllers/controlplane/helpers.go:103-121 | Both references are tried, nil ones passed over; success means both are gone |
| Creation.Store.Initialise | controllers/controlplane/controlplane.go:118-124 | Failing at iteration i leaves exactly i machines, with i clones and i configs after a clean clean-up and at most one more otherwise |
| Creation.AddedKeeps | controllers/controlplane/helpers.go:157-178 | Adding a machine with a new clone and config keeps all references live and unshared |
| Creation.AsManyRefs | controllers/controlplane/helpers.go:64-86 | Live and unshared references mean at least as many clones and configs as machines |
| Deletion.OnlyOwnedExactly | controllers/controlplane/delete.go:65-69 | The two counts agree exactly if every machine of the cluster is owned |
| Deletion.CreatedWithinRoom | controllers/controlplane/controller.go:171-182 | Machines are created after the deletion timestamp only by the reconcile running when it was set, and no more than it had room for then |
| Deletion.CreatableExactly | controllers/controlplane/controlplane.go:112-124 | From any point after the timestamp j more machines may be created exactly if the running reconcile has room for j |
| Deletion.NoneWithoutRoom | controllers/controlplane/controller.go:171-173 | Without room, so from the first reconcile that sees the timestamp, no machine of the control plane is created in any continuation |
| Deletion.FinalizerGoesLast | controllers/controlplane/delete.go:59-63 | An object deleted with its finalizer persisted keeps it, and stays, until none of its machines is left, whatever a reconcile still running creates |
| Deletion.OrphansExactly | controllers/controlplane/controller.go:155-159 | Deleting the object can leave machines behind without it exactly if its finalizer is not persisted yet and there are machines or a running reconcile has room for some |
| Deletion.DeletesOnlyWhenAlone | controllers/controlplane/delete.go:65-81 | A machine is deleted only when every machine listed is owned, and then every machine there is unless others created one since |
| DeletionController.Reconciler.ReconcileDelete | controllers/controlplane/delete.go:49-89 | Left alone: the finalizer goes exactly without owned machines, all machines are marked exactly if all are owned |
| DeletionController.Reconciler.DeleteMachines | controllers/controlplane/delete.go:72-87 | Every machine not yet being deleted is tried once; as many fail as calls did, and left alone all others are marked |
| DeletionController.Reconciler.CreateMachines | controllers/controlplane/controlplane.go:118-124 | Machines are created until one fails, whether or not the timestamp is set meanwhile |
| DeletionController.Reconciler.CheckCluster | controllers/controlplane/controller.go:113-140 | An unknown or paused cluster or one without ready infrastructure ends the reconcile without error and without a patch, a failed read with an error |
| DeletionController.Reconciler.Reconcile | controllers/controlplane/controller.go:96-182 | With a timestamp a reconcile creates no machine; the object is gone afterwards only if no owned machine is left, unless it was deleted before its finalizer was persisted; left alone exactly the deletion that is due, and nothing if a check before both branches ends it |

## Left out

- `SpecHash` and all names, hashes and tokens are opaque and compared for equality only; names and tokens generated come from outside (`World`), and a creation under a name in use fails.
- `replicas` is a natural number: for a negative value the slice of `PickNFewest` cannot be made and the controller panics. Node counts are unbounded, where the code counts in 32 bits.
- Go's `sort.Sort` is modelled by its contract, some permutation ordered by the key; an insertion sort on sequences stands for it. The tie-break by name of the machine sort in cluster-api is not part of this model, so ties are open.
- A failed API call has no effect. Reads are not stale, one object is reconciled by one worker at a time, and a patch of spec and status is atomic.
- In the upgrade, a node that has joined stays until its machine is being deleted, machines are created and marked only by the controller, and worker machines do not appear; machines of other controllers make `EnsureOwnership` fail.
- The theorems about upgrades start from joined machines, at least one if any is wanted; runs that begin while machines of an initialisation have no node yet are covered by the results on initialisation only.
- Nodes leave before their Machine objects (`nodeFirst`) in the safety theorems; `UpgradeLimits.NodesMustLeaveFirst` shows why.
- ControlPlaneController.Reconciler.ReconcileControlPlane: of the infrastructure template, the certificates and the kubeconfig only whether they could be reconciled matters here; certificates have modules of their own.
- Machines are values in a map that is reassigned, and certificates values in a list; pointers shared between collections are not captured.
- In the upgrade protocol the creation of a machine with its clone and config is one step, and so is listing the nodes with fetching their pods; `Creation` takes the first apart, but is not tied to the protocol.
- In the deletion protocol the upgrade of a normal reconcile is a given: whether it scales up is a parameter, and the deletions of one that scales down are among those of others. The object has no finalizer but this one. Owner references let a garbage collector delete machines whose object is gone; it is not part of this model.
- Go's read-write lock keeps a new reader out while a writer waits; the cache protocol lets it in. All its runs are covered either way, and progress is proved for the stricter rule.
- In the cluster cache protocol the polling library is not part of this model: a poll may end with an error at the failure threshold or once the stop channel of its own cache is closed. What runs inside a started cache, and the goroutines as such, appear only as threads of the protocol; the class has the sequential effect of each method.
- The bootstrap model covers workers; the control-plane branch stores its data the same way without a token. Secrets are not deleted by others.
- `ClusterStatus` is the number of control-plane nodes; its count of ready nodes is used by nothing modelled here.
- Pure field copies and plumbing: API conversions, defaulting, cloud-init text, status counters, watches and event recording, RBAC, key and certificate generation, network clients, the other machine filters (`AnyFilter`, `Newest`, `OlderThan`, annotations).
