/**
 * The `/api/search-hospitals` request handler: the query guard, one browser session
 * per request, the convergence loop over the results feed, the final page slice,
 * and the mapping of the outcome to a 200, 400 or 500 response. The browser is
 * abstracted to a session that renders a sequence of item lists and may throw.
 */
module Handler {
  import opened Wrappers
  import opened Probe
  import opened Convergence

  /** Where, if anywhere, the browser session throws. */
  datatype Fault =
    | NoFault
    | LaunchFault           // launching the browser throws: no browser to close
    | SetupFault            // opening the page, setting the user agent or navigating throws
    | LoopFault(at: Throw)    // the probe or the scroll of one loop iteration throws

  /** A browser session: `rendered(k)` is the list of result items visible at the k-th probe. */
  datatype Session = Session(rendered: nat -> seq<Item>, fault: Fault)

  datatype Response =
    | BadRequest(error: string)  // 400 { error }
    | Found(totalFound: nat, count: nat, limit: nat, offset: nat, data: seq<Record>)  // 200 { success: true, ... }
    | ServerError(error: string)  // 500 { success: false, error }

  /** The response, whether a browser was launched, whether it was closed, and the loop iterations run. */
  datatype Outcome = Outcome(response: Response, launched: bool, closed: bool, rounds: nat)

  const QueryRequired := "Query parameter is required"
  const DefaultLimit := 20
  const DefaultOffset := 0
  const ScrapeFailed := "Failed to scrape data"

  function Min(a: nat, b: nat): nat {
    if a <= b then a else b
  }

  /**
   * `allResults.slice(offset, offset + limit)` for natural `offset` and `limit`:
   * the records from position `offset` on, at most `limit` of them.
   */
  function Paginate<T>(all: seq<T>, offset: nat, limit: nat): (page: seq<T>)
    ensures |page| <= limit && |page| <= |all|
    ensures offset >= |all| ==> page == []
    ensures offset < |all| ==> |page| == Min(limit, |all| - offset)
    ensures forall i :: 0 <= i < |page| ==> offset + i < |all| && page[i] == all[offset + i]
  {
    if offset >= |all| then [] else all[offset..Min(offset + limit, |all|)]
  }

  /** Consecutive pages tile the result list: no record is skipped or repeated between them. */
  lemma PagesTile<T>(all: seq<T>, offset: nat, a: nat, b: nat)
    ensures Paginate(all, offset, a) + Paginate(all, offset + a, b) == Paginate(all, offset, a + b)
  {
    var p, q, r := Paginate(all, offset, a), Paginate(all, offset + a, b), Paginate(all, offset, a + b);
    assert |p + q| == |r|;
    forall i | 0 <= i < |r|
      ensures (p + q)[i] == r[i]
    {
      if i >= |p| {
        assert q[i - |p|] == all[offset + a + (i - |p|)];
      }
    }
  }

  /** The feed that the convergence loop sees: the probe's output on each rendering. */
  function Probed(rendered: nat -> seq<Item>): Feed {
    (k: nat) => Extract(rendered(k))
  }

  /** A page that only ever appends items gives the loop a monotone feed. */
  lemma AppendOnlyPageIsMonotone(rendered: nat -> seq<Item>)
    requires forall i: nat, j: nat :: i <= j ==> rendered(i) <= rendered(j)
    ensures Monotone(Probed(rendered))
  {
    forall i: nat, j: nat | i <= j
      ensures Count(Probed(rendered), i) <= Count(Probed(rendered), j)
    {
      ExtractPrefix(rendered(i), rendered(j));
    }
  }

  /** `if (!query)`: the query parameter is absent or empty. */
  predicate MissingQuery(query: Option<string>) {
    query.None? || query.value == ""
  }

  /** A query parameter's value, or its default when the request leaves it out. */
  function OrDefault(p: Option<nat>, default: nat): nat {
    if p.Some? then p.value else default
  }

  /** The session reaches the loop: neither the launch nor the page setup throws. */
  predicate RunsLoop(query: Option<string>, session: Session) {
    !MissingQuery(query) && !session.fault.LaunchFault? && !session.fault.SetupFault?
  }

  /**
   * The handler. `limit` and `offset` are the query parameters as numbers, absent
   * when the request leaves them out. Termination of the loop is assumed through a
   * monotone feed bounded by `bound`.
   */
  method SearchHospitals(query: Option<string>, limit: Option<nat>, offset: Option<nat>, session: Session, ghost bound: nat)
    returns (out: Outcome)
    requires RunsLoop(query, session) ==> Monotone(Probed(session.rendered)) && Bounded(Probed(session.rendered), bound)
    ensures MissingQuery(query) <==> out.response.BadRequest?
    ensures out.response.BadRequest? ==> out.response.error == QueryRequired
    ensures MissingQuery(query) ==> !out.launched && out.rounds == 0
    ensures out.launched <==> !MissingQuery(query) && !session.fault.LaunchFault?
    ensures out.closed == out.launched
    ensures out.response.ServerError? ==> out.response.error == ScrapeFailed
    ensures out.response.ServerError? <==>
              !MissingQuery(query)
              && (|| session.fault.LaunchFault?
                  || session.fault.SetupFault?
                  || (session.fault.LoopFault?
                      && Hits(Probed(session.rendered), OrDefault(limit, DefaultLimit) + OrDefault(offset, DefaultOffset), session.fault.at)))
    ensures out.response.Found? <==> !MissingQuery(query) && !out.response.ServerError?
    ensures out.response.Found? ==>
              var lim, off := OrDefault(limit, DefaultLimit), OrDefault(offset, DefaultOffset);
              var all := StateAfter(Probed(session.rendered), out.rounds).allResults;
              && StopsAt(Probed(session.rendered), lim + off, out.rounds)
              && out.response == Found(|all|, |Paginate(all, off, lim)|, lim, off, Paginate(all, off, lim))
              && out.response.count <= lim && out.response.count <= out.response.totalFound
  {
    if MissingQuery(query) {
      return Outcome(BadRequest(QueryRequired), false, false, 0);
    }
    if session.fault.LaunchFault? {
      return Outcome(ServerError(ScrapeFailed), false, false, 0);
    }
    if session.fault.SetupFault? {
      return Outcome(ServerError(ScrapeFailed), true, true, 0);
    }
    var maxResults, startFrom := OrDefault(limit, DefaultLimit), OrDefault(offset, DefaultOffset);
    // the wait for the first result may time out; the handler proceeds regardless
    var fault := if session.fault.LoopFault? then Some(session.fault.at) else None;
    var allResults, rounds, failed := Converge(Probed(session.rendered), maxResults + startFrom, fault, bound);
    if failed {
      return Outcome(ServerError(ScrapeFailed), true, true, rounds);
    }
    var page := Paginate(allResults, startFrom, maxResults);
    out := Outcome(Found(|allResults|, |page|, maxResults, startFrom, page), true, true, rounds);
  }

  /** A page beyond the fetched window is empty, and the total still reports what was found. */
  lemma PageBeyondWindow(all: seq<Record>, offset: nat, limit: nat)
    requires offset >= |all|
    ensures Paginate(all, offset, limit) == []
  {
  }

  /** Nine records with offset 8 and limit 10 give a page of one record, the last. */
  lemma NineRecordsFromOffsetEight(all: seq<Record>)
    requires |all| == 9
    ensures Paginate(all, 8, 10) == [all[8]]
  {
  }
}
