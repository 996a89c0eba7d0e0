/** The cluster cache tracker's own maps and caches, changed in place by its methods. */
module ClusterCacheTracker {
  import opened Wrappers
  import opened HealthPolling
  import P = ClusterCache

  type Id = P.Id

  /** A cache of a workload cluster with its stop channel, which panics when it is closed twice. */
  class ClusterCache {
    ghost const id: Id
    ghost const cluster: Id
    var stopped: bool
    var closes: nat

    ghost predicate Valid()
      reads this
    {
      closes == if stopped then 1 else 0
    }

    constructor (ghost id: Id, ghost cluster: Id)
      ensures Valid() && !stopped && this.id == id && this.cluster == cluster
    {
      this.id := id;
      this.cluster := cluster;
      stopped := false;
      closes := 0;
    }

    method Stop()
      requires Valid()
      modifies this
      ensures Valid() && stopped
      ensures closes == old(closes) + if old(stopped) then 0 else 1
    {
      if stopped {
        return;
      }
      stopped := true;
      assert closes == 0;
      closes := closes + 1;
    }
  }

  ghost function IdsOf<K>(m: map<K, ClusterCache>): map<K, Id> {
    map k | k in m :: m[k].id
  }

  ghost function CachesOf(m: map<Id, ClusterCache>): map<Id, P.Cache>
    reads m.Values
  {
    map c | c in m :: P.Cache(m[c].cluster, m[c].stopped, m[c].closes, None)
  }

  lemma IdsOfUpdate<K>(m: map<K, ClusterCache>, k: K, c: ClusterCache)
    ensures IdsOf(m[k := c]) == IdsOf(m)[k := c.id]
  {
  }

  lemma CachesOfUpdate(m: map<Id, ClusterCache>, i: Id, c: ClusterCache)
    ensures CachesOf(m[i := c]) == CachesOf(m)[i := P.Cache(c.cluster, c.stopped, c.closes, None)]
  {
  }

  ghost function OnExcept(on: map<P.Watch, ClusterCache>, cluster: Id): map<P.Watch, ClusterCache> {
    map w | w in on && w.cluster != cluster :: on[w]
  }

  lemma IdsOfExcept(on: map<P.Watch, ClusterCache>, cluster: Id)
    ensures IdsOf(OnExcept(on, cluster)) == P.WatchesExcept(IdsOf(on), cluster)
  {
  }

  ghost predicate SameWatches(on: map<P.Watch, ClusterCache>, watches: map<Id, set<Id>>) {
    forall w: P.Watch :: w in on <==> w.cluster in watches && w.info in watches[w.cluster]
  }

  class Tracker {
    var clusterCaches: map<Id, ClusterCache>
    var watches: map<Id, set<Id>>
    /** Every cache ever created, and the cache each recorded watch was established on. */
    ghost var created: map<Id, ClusterCache>
    ghost var on: map<P.Watch, ClusterCache>

    ghost predicate Valid()
      reads this, created.Values
    {
      && (forall c | c in created :: created[c].id == c && created[c].Valid())
      && (forall k | k in clusterCaches ::
            clusterCaches[k].id in created && created[clusterCaches[k].id] == clusterCaches[k])
      && (forall w | w in on :: on[w].id in created && created[on[w].id] == on[w])
      && SameWatches(on, watches)
    }

    /** The tracker as the protocol sees it between operations. */
    ghost function Abs(): (s: P.Tracker)
      requires Valid()
      reads this, created.Values
      ensures forall w: P.Watch :: w in s.watches <==> WatchExists(w.cluster, w.info)
      ensures forall k :: k in s.mapped <==> k in clusterCaches
      ensures forall k | k in clusterCaches :: s.mapped[k] == clusterCaches[k].id
    {
      P.Tracker(CachesOf(created), IdsOf(clusterCaches), IdsOf(on), P.RWLock(None, {}), P.RWLock(None, {}), map[])
    }

    constructor ()
      ensures Valid() && Abs() == P.Empty() && fresh(created.Values)
    {
      clusterCaches := map[];
      watches := map[];
      created := map[];
      on := map[];
    }

    predicate WatchExists(cluster: Id, info: Id)
      reads this
    {
      cluster in watches && info in watches[cluster]
    }

    method DeleteWatchesForCluster(cluster: Id)
      requires Valid()
      modifies this`watches, this`on
      ensures Valid() && Abs() == P.AfterForget(old(Abs()), cluster)
    {
      IdsOfExcept(on, cluster);
      hide IdsOf, CachesOf;
      watches := watches - {cluster};
      on := OnExcept(on, cluster);
    }

    function GetClusterCache(cluster: Id): (c: Option<ClusterCache>)
      reads this
      ensures c.Some? <==> cluster in clusterCaches
      ensures c.Some? ==> c.value == clusterCaches[cluster]
    {
      if cluster in clusterCaches then Some(clusterCaches[cluster]) else None
    }

    /** `built` says whether the REST config and the cache could be had. */
    method NewClusterCache(cluster: Id, built: bool, ghost id: Id) returns (c: Option<ClusterCache>)
      requires Valid() && id !in created
      modifies this`clusterCaches, this`created
      ensures Valid()
      ensures created == old(created) || (c.Some? && fresh(c.value) && created == old(created)[id := c.value])
      ensures c.None? <==> old(cluster !in clusterCaches) && !built
      ensures c.Some? ==> cluster in clusterCaches && clusterCaches[cluster] == c.value
      ensures Abs() == if cluster in old(Abs()).mapped || !built then old(Abs())
                       else P.AfterCreate(old(Abs()), cluster, id)
    {
      if cluster in clusterCaches {
        return Some(clusterCaches[cluster]);
      }
      if !built {
        return None;
      }
      var cc := new ClusterCache(id, cluster);
      MapCache(cluster, cc);
      c := Some(cc);
    }

    method MapCache(cluster: Id, cc: ClusterCache)
      requires Valid() && cc.Valid() && cc.id !in created && cc.cluster == cluster && !cc.stopped
      modifies this`clusterCaches, this`created
      ensures Valid() && created == old(created)[cc.id := cc] && clusterCaches == old(clusterCaches)[cluster := cc]
      ensures Abs() == P.AfterCreate(old(Abs()), cluster, cc.id)
    {
      IdsOfUpdate(clusterCaches, cluster, cc);
      CachesOfUpdate(created, cc.id, cc);
      hide IdsOf, CachesOf, SameWatches;
      clusterCaches := clusterCaches[cluster := cc];
      created := created[cc.id := cc];
    }

    method GetOrCreateClusterCache(cluster: Id, built: bool, ghost id: Id) returns (c: Option<ClusterCache>)
      requires Valid() && id !in created
      modifies this`clusterCaches, this`created
      ensures Valid()
      ensures created == old(created) || (c.Some? && fresh(c.value) && created == old(created)[id := c.value])
      ensures c.None? <==> old(cluster !in clusterCaches) && !built
      ensures c.Some? ==> cluster in clusterCaches && clusterCaches[cluster] == c.value
      ensures Abs() == if cluster in old(Abs()).mapped || !built then old(Abs())
                       else P.AfterCreate(old(Abs()), cluster, id)
    {
      c := GetClusterCache(cluster);
      if c.None? {
        c := NewClusterCache(cluster, built, id);
      }
    }

    /** Watch succeeds when the watch is there already, or the cache can be had and the watcher accepts it.  A failure
        of the watcher leaves the new cache running and mapped, and nothing recorded. */
    method Watch(cluster: Id, info: Id, built: bool, established: bool, ghost id: Id) returns (ok: bool)
      requires Valid() && id !in created
      modifies this
      ensures Valid()
      ensures created == old(created)
          || (id in created && fresh(created[id]) && created == old(created)[id := created[id]])
      ensures ok <==> old(WatchExists(cluster, info)) || ((built || old(cluster in clusterCaches)) && established)
      ensures ok ==> WatchExists(cluster, info)
      ensures Abs() == P.AfterWatch(old(Abs()), P.Watch(cluster, info), id, built, established)
    {
      hide IdsOf, CachesOf, SameWatches;
      if WatchExists(cluster, info) {
        return true;
      }
      EnsureEntry(cluster);
      var cache := GetOrCreateClusterCache(cluster, built, id);
      if cache.None? {
        return false;
      }
      if !established {
        return false;
      }
      RecordWatch(cluster, info, cache.value);
      ok := true;
    }

    method EnsureEntry(cluster: Id)
      requires Valid()
      modifies this`watches
      ensures Valid() && cluster in watches && Abs() == old(Abs())
    {
      if cluster !in watches {
        watches := watches[cluster := {}];
      }
    }

    method RecordWatch(cluster: Id, info: Id, ghost c: ClusterCache)
      requires Valid() && cluster in watches && c.id in created && created[c.id] == c
      modifies this`watches, this`on
      ensures Valid() && WatchExists(cluster, info)
      ensures Abs() == P.AfterRecord(old(Abs()), P.Watch(cluster, info), c.id)
    {
      ghost var before := on;
      watches := watches[cluster := watches[cluster] + {info}];
      on := on[P.Watch(cluster, info) := c];
      assert IdsOf(on) == IdsOf(before)[P.Watch(cluster, info) := c.id];
    }

    method DeleteClusterCache(cluster: Id)
      requires Valid()
      modifies this`clusterCaches
      ensures Valid() && Abs() == P.AfterUnmap(old(Abs()), cluster)
    {
      hide CachesOf, SameWatches;
      clusterCaches := clusterCaches - {cluster};
    }

    /** The tear-down that a failed health check and the reconcile of a deleted cluster run. */
    method TearDown(cluster: Id)
      requires Valid()
      modifies this, created.Values
      ensures Valid() && created == old(created)
      ensures Abs() == P.AfterTearDown(old(Abs()), cluster)
    {
      hide IdsOf, CachesOf, SameWatches;
      var c := GetClusterCache(cluster);
      if c.None? {
        return;
      }
      StopCache(c.value);
      DeleteClusterCache(cluster);
      DeleteWatchesForCluster(cluster);
    }

    method StopCache(c: ClusterCache)
      requires Valid() && c.id in created && created[c.id] == c
      modifies c
      ensures Valid() && Abs() == P.AfterStop(old(Abs()), c.id)
    {
      assert forall i | i in created && created[i] == c :: i == c.id;
      c.Stop();
    }

    method HealthCheckCluster(cluster: Id, unhealthyThreshold: int, polls: seq<Poll>)
        returns (ending: Ending, ghost at: nat)
      requires Valid()
      modifies this, created.Values
      ensures Valid() && created == old(created)
      ensures at <= |polls| && (forall i | 0 <= i < at :: !EndsAt(polls, i, Threshold(unhealthyThreshold)))
      ensures ending.Running? <==> at == |polls|
      ensures at < |polls| ==>
          EndsAt(polls, at, Threshold(unhealthyThreshold)) && (ending.Done? <==> polls[at].NotMapped?)
      ensures Abs() == if ending.Failed? then P.AfterTearDown(old(Abs()), cluster) else old(Abs())
    {
      var n, count;
      ending, n, count := HealthPolling.HealthCheckCluster(unhealthyThreshold, polls);
      at := n;
      if ending.Failed? {
        TearDown(cluster);
      }
    }

    /** Reconcile of the cluster: `found` is the outcome of fetching it, None when that failed with another error
        than not found. */
    method Reconcile(cluster: Id, found: Option<bool>) returns (ok: bool)
      requires Valid()
      modifies this, created.Values
      ensures Valid() && created == old(created)
      ensures ok <==> found.Some?
      ensures Abs() == if found == Some(false) then P.AfterTearDown(old(Abs()), cluster) else old(Abs())
    {
      if found.None? {
        return false;
      }
      if !found.value {
        TearDown(cluster);
      }
      ok := true;
    }
  }

  // ----- What the operations amount to ------------------------------------------------------------

  /** A tear-down leaves nothing of the cluster behind, stops its cache exactly once, and touches no other cluster. */
  lemma TearDownIsClean(s: P.Tracker, cluster: Id)
    requires cluster in s.mapped && s.mapped[cluster] in s.caches
    ensures var u := P.AfterTearDown(s, cluster);
            var c := s.mapped[cluster];
            && cluster !in u.mapped && (forall w | w in u.watches :: w.cluster != cluster)
            && u.caches[c].stopped && u.caches[c].closes == s.caches[c].closes + (if s.caches[c].stopped then 0 else 1)
            && (forall k | k != cluster :: k in u.mapped <==> k in s.mapped)
            && (forall k | k in u.mapped :: u.mapped[k] == s.mapped[k])
            && (forall w: P.Watch | w.cluster != cluster :: w in u.watches <==> w in s.watches)
            && (forall w | w in u.watches :: u.watches[w] == s.watches[w])
            && (forall d | d in s.caches && d != c :: u.caches[d] == s.caches[d])
            && P.AfterTearDown(u, cluster) == u
  {
  }

  /** After a tear-down, the next successful Watch call establishes the watch afresh, on a new running cache. */
  lemma WatchAfterTearDown(s: P.Tracker, w: P.Watch, c: Id)
    requires w.cluster in s.mapped && s.mapped[w.cluster] in s.caches && c !in s.caches
    ensures var u := P.AfterWatch(P.AfterTearDown(s, w.cluster), w, c, true, true);
            && w in u.watches && u.watches[w] == c && u.mapped[w.cluster] == c && !u.caches[c].stopped
            && u.caches[s.mapped[w.cluster]].stopped
            && forall v | v in u.watches && v.cluster == w.cluster :: v == w
  {
  }
}
