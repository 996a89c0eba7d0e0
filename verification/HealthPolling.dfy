/** The polling loop of a cluster health check. */
module HealthPolling {

  const UNHEALTHY_THRESHOLD: int := 3

  /** What one poll meets: the cluster's cache no longer mapped, a check of the API server, or a closed stop channel. */
  datatype Poll = NotMapped | Healthy | Unhealthy | StopClosed

  /** `Running` when the polls given did not end the loop. */
  datatype Ending = Running | Done | Failed

  /** The threshold in force: zero means the default, and a negative one acts like one. */
  function Threshold(unhealthyThreshold: int): (t: nat)
    ensures t >= 1
  {
    var t := if unhealthyThreshold == 0 then UNHEALTHY_THRESHOLD else unhealthyThreshold;
    if t < 1 then 1 else t
  }

  /** The last t polls up to poll i all found the cluster unhealthy. */
  predicate LastAllFailed(polls: seq<Poll>, i: nat, t: nat)
    requires i < |polls|
  {
    i + 1 >= t && forall j | i + 1 - t <= j <= i :: polls[j].Unhealthy?
  }

  predicate EndsAt(polls: seq<Poll>, i: nat, t: nat)
    requires i < |polls|
  {
    polls[i].NotMapped? || polls[i].StopClosed? || LastAllFailed(polls, i, t)
  }

  /** The length of the failing suffix. */
  function Streak(polls: seq<Poll>): (n: nat)
    ensures n <= |polls|
    ensures forall j | |polls| - n <= j < |polls| :: polls[j].Unhealthy?
    ensures n < |polls| ==> !polls[|polls| - n - 1].Unhealthy?
  {
    if polls == [] || !polls[|polls| - 1].Unhealthy? then 0 else Streak(polls[..|polls| - 1]) + 1
  }

  /** While the cache stays mapped the counter is the failing suffix, and the loop ends with an error at the first
      poll whose last t outcomes all failed, not before; or when the stop channel is closed.  It ends quietly when
      the cache is gone. */
  method HealthCheckCluster(unhealthyThreshold: int, polls: seq<Poll>)
    returns (ending: Ending, at: nat, unhealthyCount: nat)
    ensures var t := Threshold(unhealthyThreshold);
            && at <= |polls| && (forall i | 0 <= i < at :: !EndsAt(polls, i, t))
            && (ending.Running? <==> at == |polls|)
            && (at < |polls| ==> EndsAt(polls, at, t) && (ending.Done? <==> polls[at].NotMapped?))
            && unhealthyCount == Streak(polls[..if at < |polls| && polls[at].Unhealthy? then at + 1 else at])
  {
    var threshold := if unhealthyThreshold == 0 then UNHEALTHY_THRESHOLD else unhealthyThreshold;
    ghost var t := Threshold(unhealthyThreshold);
    unhealthyCount := 0;
    at := 0;
    while at < |polls|
      invariant 0 <= at <= |polls|
      invariant unhealthyCount == Streak(polls[..at])
      invariant unhealthyCount < t
      invariant forall i | 0 <= i < at :: !EndsAt(polls, i, t)
    {
      if polls[at].NotMapped? {
        return Done, at, unhealthyCount;
      }
      if polls[at].StopClosed? {
        return Failed, at, unhealthyCount;
      }
      StreakStep(polls, at, t);
      if polls[at].Unhealthy? {
        unhealthyCount := unhealthyCount + 1;
      } else {
        unhealthyCount := 0;
      }
      if unhealthyCount >= threshold && polls[at].Unhealthy? {
        return Failed, at, unhealthyCount;
      }
      at := at + 1;
    }
    ending := Running;
  }

  lemma StreakStep(polls: seq<Poll>, i: nat, t: nat)
    requires i < |polls| && t >= 1
    ensures Streak(polls[..i + 1]) == if polls[i].Unhealthy? then Streak(polls[..i]) + 1 else 0
    ensures LastAllFailed(polls, i, t) <==> Streak(polls[..i + 1]) >= t
  {
    var next := polls[..i + 1];
    assert next[..i] == polls[..i];
    var n := Streak(next);
    assert forall j | 0 <= j <= i :: next[j] == polls[j];
    if n < t && i + 1 >= t {
      assert !polls[i - n].Unhealthy?;
    }
  }
}
