/**
 * Issuing a planned list of requests in order and giving up at the first one
 * the client reports as failed. Every modifying loop of the BMC driver has
 * this shape: it issues one request per selected system and returns as soon
 * as a request fails, so no later system is touched.
 *
 * Whether a request fails is decided by an oracle: `rejects` holds the
 * positions, counted from 0 in issue order, of the requests the client
 * reports as failed.
 */
module Issuing {

  /** `sent` is what issuing `plan` in order produces, and `failed` says
      whether the last request issued was reported as failed. */
  ghost predicate SentInOrder<T>(plan: seq<T>, rejects: set<nat>, sent: seq<T>, failed: bool)
  {
    && sent <= plan
    && (forall i :: 0 <= i < |sent| - 1 ==> i !in rejects)
    && (failed <==> |sent| > 0 && |sent| - 1 in rejects)
    && (!failed ==> sent == plan)
  }

  /** Position of the first rejected request among the first `n`, or `n`
      when all of them are accepted. */
  function FirstRejected(n: nat, rejects: set<nat>): (k: nat)
    ensures k <= n
    ensures k < n ==> k in rejects
    ensures forall j :: 0 <= j < k ==> j !in rejects
  {
    if n == 0 then 0
    else
      var k := FirstRejected(n - 1, rejects);
      if k < n - 1 then k
      else if n - 1 in rejects then n - 1
      else n
  }

  /** Reference definition of the requests issued: the plan up to and
      including its first rejected request. */
  function Sent<T>(plan: seq<T>, rejects: set<nat>): seq<T>
  {
    var k := FirstRejected(|plan|, rejects);
    if k < |plan| then plan[..k + 1] else plan
  }

  /** Whether issuing `plan` stops at a failed request. */
  predicate Fails<T>(plan: seq<T>, rejects: set<nat>)
  {
    FirstRejected(|plan|, rejects) < |plan|
  }

  /** The declarative description and the reference definition agree, in
      both directions. */
  lemma SentInOrderIff<T>(plan: seq<T>, rejects: set<nat>, sent: seq<T>, failed: bool)
    ensures SentInOrder(plan, rejects, sent, failed)
            <==> sent == Sent(plan, rejects) && failed == Fails(plan, rejects)
  {
    var k := FirstRejected(|plan|, rejects);
    if sent == Sent(plan, rejects) && failed == Fails(plan, rejects) {
      if k < |plan| {
        assert |sent| - 1 == k;
      }
    }
    if SentInOrder(plan, rejects, sent, failed) {
      if failed {
        assert k == |sent| - 1 by {
          if k < |sent| - 1 {
            assert false;
          }
        }
      }
    }
  }

  /** Issuing stops at a failure exactly when some planned position is
      rejected, and then it stops at the first such position. */
  lemma FailsIffSomeRejected<T>(plan: seq<T>, rejects: set<nat>, sent: seq<T>, failed: bool)
    requires SentInOrder(plan, rejects, sent, failed)
    ensures failed <==> exists i :: 0 <= i < |plan| && i in rejects
    ensures failed ==> |sent| == FirstRejected(|plan|, rejects) + 1
    ensures !failed ==> |sent| == |plan|
  {
    SentInOrderIff(plan, rejects, sent, failed);
    var k := FirstRejected(|plan|, rejects);
    if k < |plan| {
      assert 0 <= k < |plan| && k in rejects;
    }
  }
}
