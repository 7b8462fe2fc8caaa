/**
 * The convergence loop of the search handler: probe the page, compare the number
 * of records with the previous probe, count consecutive probes without growth,
 * scroll, and repeat until enough records are visible or the feed has stalled.
 *
 * The live page is an abstract feed: `feed(k)` is what the extraction probe
 * returns when it is evaluated for the k-th time (counting from 0), that is
 * after k scrolls (`Handler.Probed` builds it from the rendered items). The
 * scroll itself and the two-second pause after it are one step from `feed(k)`
 * to `feed(k + 1)`.
 */
module Convergence {
  import opened Wrappers
  import opened Probe

  type Feed = nat -> seq<Record>

  /** The loop gives up after more than this many consecutive probes without growth. */
  const MaxRetries := 3

  /** The loop's variables `allResults`, `previousCount` and `retryCount`. */
  datatype LoopState = LoopState(allResults: seq<Record>, previousCount: int, retryCount: nat)

  /** The number of records the k-th probe returns. */
  function Count(feed: Feed, k: nat): nat {
    |feed(k)|
  }

  /** The values before the first iteration; -1 makes the first comparison a change. */
  function Start(): LoopState {
    LoopState([], -1, 0)
  }

  /**
   * One iteration up to the scroll: the snapshot replaces the accumulated list, and
   * the stall counter is bumped if its length equals the previous one and reset otherwise.
   */
  function Step(s: LoopState, snapshot: seq<Record>): LoopState {
    var n := |snapshot|;
    LoopState(snapshot, n, if n == s.previousCount then s.retryCount + 1 else 0)
  }

  /** The loop's variables after k iterations, had none of them left the loop. */
  function StateAfter(feed: Feed, k: nat): LoopState {
    if k == 0 then Start() else Step(StateAfter(feed, k - 1), feed(k - 1))
  }

  /** The loop stops here: enough records for the page, or the stall counter is past its limit. */
  predicate Done(s: LoopState, target: nat) {
    |s.allResults| >= target || s.retryCount > MaxRetries
  }

  /** The loop leaves after exactly k iterations. */
  ghost predicate StopsAt(feed: Feed, target: nat, k: nat) {
    Done(StateAfter(feed, k), target) && forall j :: 0 <= j < k ==> !Done(StateAfter(feed, j), target)
  }

  /** The loop starts iteration r (numbered from 0). */
  ghost predicate Reaches(feed: Feed, target: nat, r: nat) {
    forall j :: 0 <= j <= r ==> !Done(StateAfter(feed, j), target)
  }

  /**
   * The loop scrolls in iteration r: it starts that iteration and does not leave it
   * by the stall `break`. The scroll comes after the stall test only, so an iteration
   * whose probe reaches the target still scrolls.
   */
  ghost predicate Scrolls(feed: Feed, target: nat, r: nat) {
    Reaches(feed, target, r) && StateAfter(feed, r + 1).retryCount <= MaxRetries
  }

  /** Where in a loop iteration the browser throws: in its probe or in its scroll. */
  datatype Throw = ProbeThrows(round: nat) | ScrollThrows(round: nat)

  /** The throwing step is reached, so the loop fails there. */
  ghost predicate Hits(feed: Feed, target: nat, t: Throw) {
    match t
    case ProbeThrows(r) => Reaches(feed, target, r)
    case ScrollThrows(r) => Scrolls(feed, target, r)
  }

  /** The feed never shows fewer records than at an earlier probe. */
  ghost predicate Monotone(feed: Feed) {
    forall i: nat, j: nat :: i <= j ==> Count(feed, i) <= Count(feed, j)
  }

  /** The feed never shows more than `bound` records. */
  ghost predicate Bounded(feed: Feed, bound: nat) {
    forall k: nat :: Count(feed, k) <= bound
  }

  /**
   * The `while` loop of the search handler. `target` is `limit + offset`;
   * `fault`, when present, is the probe or the scroll that throws.
   * The loop terminates on every feed that is monotone and bounded by `bound`, within
   * `5 * bound + 9` iterations; on other feeds the source's loop need not terminate.
   */
  method Converge(feed: Feed, target: nat, fault: Option<Throw>, ghost bound: nat)
    returns (allResults: seq<Record>, rounds: nat, failed: bool)
    requires Monotone(feed) && Bounded(feed, bound)
    ensures rounds <= 5 * bound + 9
    ensures failed <==> fault.Some? && Hits(feed, target, fault.value)
    ensures failed ==> rounds == fault.value.round
    ensures !failed ==> StopsAt(feed, target, rounds) && allResults == StateAfter(feed, rounds).allResults
  {
    allResults := [];
    var previousCount := -1;
    var retryCount := 0;
    rounds := 0;
    failed := false;
    while |allResults| < target
      invariant LoopState(allResults, previousCount, retryCount) == StateAfter(feed, rounds)
      invariant retryCount <= MaxRetries && -1 <= previousCount <= bound
      invariant forall j :: 0 <= j < rounds ==> !Done(StateAfter(feed, j), target)
      invariant fault.Some? ==> rounds <= fault.value.round
      invariant rounds + 5 * (bound - previousCount) + 4 - retryCount <= 5 * bound + 9
      decreases 5 * (bound - previousCount) + 4 - retryCount
    {
      if fault == Some(ProbeThrows(rounds)) {
        failed := true;
        return;
      }
      // probe the page: the snapshot replaces the accumulated list
      allResults := feed(rounds);
      assert Count(feed, rounds) <= bound;
      assert rounds > 0 ==> Count(feed, rounds - 1) <= Count(feed, rounds);
      if |allResults| == previousCount {
        retryCount := retryCount + 1;
        if retryCount > MaxRetries {
          rounds := rounds + 1;
          break;
        }
      } else {
        retryCount := 0;
      }
      previousCount := |allResults|;
      // scroll the feed and wait for it to settle: the next probe sees feed(rounds + 1)
      if fault == Some(ScrollThrows(rounds)) {
        assert LoopState(allResults, previousCount, retryCount) == StateAfter(feed, rounds + 1);
        failed := true;
        return;
      }
      rounds := rounds + 1;
    }
  }

  /** Each iteration replaces the accumulated list by the latest snapshot, and records its length. */
  lemma ReplacedNotAppended(feed: Feed, k: nat)
    requires k > 0
    ensures StateAfter(feed, k).allResults == feed(k - 1)
    ensures StateAfter(feed, k).previousCount == |StateAfter(feed, k).allResults| == Count(feed, k - 1)
  {
  }

  /** The first probe is never a stall, whatever it returns. */
  lemma FirstProbeNeverStalls(feed: Feed)
    ensures StateAfter(feed, 1).retryCount == 0
  {
  }

  /**
   * From the second probe on, the stall counter is bumped when the count equals the
   * previous probe's count and reset to 0 when it differs.
   */
  lemma StallCounterStep(feed: Feed, k: nat)
    requires k > 0
    ensures StateAfter(feed, k + 1).retryCount
         == if Count(feed, k) == Count(feed, k - 1) then StateAfter(feed, k).retryCount + 1 else 0
  {
  }

  /**
   * The stall counter after k iterations is at least n exactly when each of the
   * last n probes returned as many records as the probe before it.
   */
  lemma {:induction false} RetryCountIsStallRun(feed: Feed, k: nat, n: nat)
    requires n > 0
    ensures StateAfter(feed, k).retryCount >= n
        <==> n < k && forall j: nat :: k - n <= j < k ==> Count(feed, j) == Count(feed, j - 1)
  {
    if k > 1 {
      if Count(feed, k - 1) == Count(feed, k - 2) {
        if n > 1 {
          RetryCountIsStallRun(feed, k - 1, n - 1);
        }
      }
    }
  }

  /**
   * When the loop stops, either the target was reached or the last five probes
   * returned the same number of records (four probes in a row without growth).
   */
  lemma StallExit(feed: Feed, target: nat, k: nat)
    requires Done(StateAfter(feed, k), target)
    ensures |StateAfter(feed, k).allResults| >= target
         || (k >= 5 && forall j: nat :: k - 5 <= j < k ==> Count(feed, j) == Count(feed, k - 1))
  {
    if |StateAfter(feed, k).allResults| < target {
      RetryCountIsStallRun(feed, k, 4);
      assert Count(feed, k - 2) == Count(feed, k - 1);
      assert Count(feed, k - 3) == Count(feed, k - 2);
      assert Count(feed, k - 4) == Count(feed, k - 3);
      assert Count(feed, k - 5) == Count(feed, k - 4);
    }
  }

  /** A feed whose count alternates between 0 and 1. */
  function Alternating(k: nat): seq<Record> {
    if k % 2 == 0 then [] else [Record("Clinic", NoRating, NoAddress, NoPhone, NoWebsite)]
  }

  /** On the alternating feed the count changes at every probe. */
  lemma {:induction false} AlternatingState(k: nat)
    ensures StateAfter(Alternating, k).retryCount == 0
    ensures |StateAfter(Alternating, k).allResults| <= 1
    ensures k > 0 ==> StateAfter(Alternating, k).previousCount == (k - 1) % 2
  {
    if k > 0 {
      AlternatingState(k - 1);
    }
  }

  /** Without monotonicity the loop can run forever: for a target of 2 it never stops on this feed. */
  lemma AlternatingFeedNeverStops(k: nat)
    ensures !Done(StateAfter(Alternating, k), 2)
  {
    AlternatingState(k);
  }

  /**
   * A feed whose count stays below the target stops after five probes: the first
   * sets the count and the next four are stalls.
   */
  lemma ConstantFeedStopsAfterFiveProbes(feed: Feed, target: nat)
    requires forall k: nat :: Count(feed, k) == Count(feed, 0) < target
    ensures StopsAt(feed, target, 5)
  {
    assert Count(feed, 1) == Count(feed, 2) == Count(feed, 3) == Count(feed, 4) == Count(feed, 0);
    assert StateAfter(feed, 1).retryCount == 0;
    assert StateAfter(feed, 4).retryCount == 3;
    assert StateAfter(feed, 5).retryCount == 4;
  }

  /** A first probe that already reaches the target ends the loop at once. */
  lemma FirstProbeReachingTargetStops(feed: Feed, target: nat)
    requires 0 < target <= Count(feed, 0)
    ensures StopsAt(feed, target, 1)
  {
  }

  /**
   * The last iteration scrolls too: when the first probe reaches the target, the loop
   * stops after it, yet its scroll still runs, so a scroll that throws there fails
   * the whole call.
   */
  lemma FinalIterationStillScrolls(feed: Feed, target: nat)
    requires 0 < target <= Count(feed, 0)
    ensures StopsAt(feed, target, 1) && Hits(feed, target, ScrollThrows(0))
  {
  }

  /** The iteration that leaves by the stall `break` does not scroll. */
  lemma StallBreakSkipsScroll(feed: Feed, target: nat)
    requires forall k: nat :: Count(feed, k) == Count(feed, 0) < target
    ensures Reaches(feed, target, 4) && !Hits(feed, target, ScrollThrows(4))
  {
    ConstantFeedStopsAfterFiveProbes(feed, target);
    assert Count(feed, 4) == Count(feed, 3);
    assert StateAfter(feed, 5).retryCount == StateAfter(feed, 4).retryCount + 1;
  }
}
