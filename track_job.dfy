/**
 * The tracking job: it splits the requested tracking numbers by carrier,
 * hands each supported carrier's numbers to that carrier's client, answers
 * every request of an unsupported or missing carrier with an "Unknown
 * Carrier" result, and reports the consolidated list once it is complete.
 */
module Jobs {
  import opened RubyString
  import opened TrackFromFedex

  datatype Option<T> = None | Some(value: T)

  /** One request: a tracking number and the carrier it was sent with, if any. */
  datatype TrackingInfo = TrackingInfo(trackingNumber: string, carrier: Option<string>)

  /** The carriers that have a client. Each name is mapped to its client
      (`Fedex` to the FedEx client). */
  const CARRIERS: seq<string> := ["Fedex"]

  /** The request names `carrier`, up to case; a request without a carrier
      matches none. */
  predicate ForCarrier(info: TrackingInfo, carrier: string) {
    info.carrier.Some? && CaseEq(info.carrier.value, carrier)
  }

  /** `select`: the requests for `carrier`, in their input order. */
  function Select(pool: seq<TrackingInfo>, carrier: string): seq<TrackingInfo> {
    if pool == [] then []
    else (if ForCarrier(pool[0], carrier) then [pool[0]] else []) + Select(pool[1..], carrier)
  }

  /** The requests not for `carrier`, in their input order. */
  function Reject(pool: seq<TrackingInfo>, carrier: string): seq<TrackingInfo> {
    if pool == [] then []
    else (if ForCarrier(pool[0], carrier) then [] else [pool[0]]) + Reject(pool[1..], carrier)
  }

  /** `Array#-`: the elements of `pool` equal to no element of `removed`, in
      their order in `pool`. */
  function Difference(pool: seq<TrackingInfo>, removed: seq<TrackingInfo>): seq<TrackingInfo> {
    if pool == [] then []
    else (if pool[0] in removed then [] else [pool[0]]) + Difference(pool[1..], removed)
  }

  /** The tracking numbers of `pool`, in order. */
  function TrackingNumbers(pool: seq<TrackingInfo>): seq<string> {
    seq(|pool|, i requires 0 <= i < |pool| => pool[i].trackingNumber)
  }

  /** `unknown_carrier_response`; the status keeps the source's spelling
      `EXEPTION`. */
  function UnknownCarrierResponse(trackingNumber: string): TrackingResult {
    TrackingResult(trackingNumber, "EXEPTION", "Unknown Carrier")
  }

  /** One unknown-carrier result per remaining request, in order. */
  function UnknownCarrierResponses(pool: seq<TrackingInfo>): seq<TrackingResult> {
    seq(|pool|, i requires 0 <= i < |pool| => UnknownCarrierResponse(pool[i].trackingNumber))
  }

  /** What the carrier loop and the final unknown-carrier step produce from
      `pool` when `carriers` remain to be served: each carrier's client
      results in `carriers` order, then the unknown-carrier results; an
      abort of any client aborts the whole. */
  function Consolidated(fedex: FedexService, carriers: seq<string>, pool: seq<TrackingInfo>): TrackOutcome
    decreases |carriers|
  {
    if carriers == [] then
      Tracked(UnknownCarrierResponses(pool))
    else
      match TrackSpec(fedex, TrackingNumbers(Select(pool, carriers[0])))
      case AuthenticationFailed => AuthenticationFailed
      case Tracked(rs) => Prepend(rs, Consolidated(fedex, carriers[1..], Reject(pool, carriers[0])))
  }

  /** One round of the carrier loop: the first carrier's client answers for
      its requests, and what follows is computed from the rest of the pool. */
  lemma ConsolidatedStep(fedex: FedexService, carriers: seq<string>, pool: seq<TrackingInfo>,
                         results: seq<TrackingResult>, tracked: TrackOutcome)
    requires carriers != []
    requires tracked == TrackSpec(fedex, TrackingNumbers(Select(pool, carriers[0])))
    ensures tracked.AuthenticationFailed? ==> Prepend(results, Consolidated(fedex, carriers, pool)) == AuthenticationFailed
    ensures tracked.Tracked? ==>
      Prepend(results, Consolidated(fedex, carriers, pool))
        == Prepend(results + tracked.results, Consolidated(fedex, carriers[1..], Reject(pool, carriers[0])))
  {
    if tracked.Tracked? {
      var later := Consolidated(fedex, carriers[1..], Reject(pool, carriers[0]));
      assert Consolidated(fedex, carriers, pool) == Prepend(tracked.results, later);
      PrependTwice(results, tracked.results, later);
    }
  }

  /** A report of a completed job, as handed to the reporter. */
  datatype Report = Report(trackId: string, results: seq<TrackingResult>)

  /** `x` is a request for `carrier` exactly when it appears in the
      selection, and a request for another carrier exactly when it appears in
      the rest. */
  lemma {:induction false} SelectRejectMembers(pool: seq<TrackingInfo>, carrier: string, x: TrackingInfo)
    ensures x in Select(pool, carrier) <==> x in pool && ForCarrier(x, carrier)
    ensures x in Reject(pool, carrier) <==> x in pool && !ForCarrier(x, carrier)
  {
    if pool != [] {
      SelectRejectMembers(pool[1..], carrier, x);
      assert pool == [pool[0]] + pool[1..];
    }
  }

  /** Selection keeps input order: selecting from a concatenation selects
      from each part. */
  lemma {:induction false} SelectAppend(a: seq<TrackingInfo>, b: seq<TrackingInfo>, carrier: string)
    ensures Select(a + b, carrier) == Select(a, carrier) + Select(b, carrier)
  {
    if a == [] {
      assert a + b == b;
    } else {
      var head := if ForCarrier(a[0], carrier) then [a[0]] else [];
      assert (a + b)[0] == a[0] && (a + b)[1..] == a[1..] + b;
      assert Select(a + b, carrier) == head + Select(a[1..] + b, carrier);
      SelectAppend(a[1..], b, carrier);
      assert Select(a, carrier) == head + Select(a[1..], carrier);
    }
  }

  /** Rejection keeps input order in the same way. */
  lemma {:induction false} RejectAppend(a: seq<TrackingInfo>, b: seq<TrackingInfo>, carrier: string)
    ensures Reject(a + b, carrier) == Reject(a, carrier) + Reject(b, carrier)
  {
    if a == [] {
      assert a + b == b;
    } else {
      var head := if ForCarrier(a[0], carrier) then [] else [a[0]];
      assert (a + b)[0] == a[0] && (a + b)[1..] == a[1..] + b;
      assert Reject(a + b, carrier) == head + Reject(a[1..] + b, carrier);
      RejectAppend(a[1..], b, carrier);
      assert Reject(a, carrier) == head + Reject(a[1..], carrier);
    }
  }

  /** Every request lands in exactly one of the two parts: the lengths add up
      and so do the multisets of requests. */
  lemma {:induction false} SelectRejectPartition(pool: seq<TrackingInfo>, carrier: string)
    ensures |Select(pool, carrier)| + |Reject(pool, carrier)| == |pool|
    ensures multiset(Select(pool, carrier)) + multiset(Reject(pool, carrier)) == multiset(pool)
  {
    if pool != [] {
      SelectRejectPartition(pool[1..], carrier);
      assert pool == [pool[0]] + pool[1..];
    }
  }

  /** The tracking numbers of the two parts are, together, those of the
      pool, each as often as it was requested. */
  lemma {:induction false} SelectRejectNumbers(pool: seq<TrackingInfo>, carrier: string)
    ensures multiset(TrackingNumbers(Select(pool, carrier))) + multiset(TrackingNumbers(Reject(pool, carrier)))
      == multiset(TrackingNumbers(pool))
  {
    if pool != [] {
      var head := [pool[0]];
      assert pool == head + pool[1..];
      SelectRejectNumbers(pool[1..], carrier);
      SelectAppend(head, pool[1..], carrier);
      RejectAppend(head, pool[1..], carrier);
      NumbersAppend(Select(head, carrier), Select(pool[1..], carrier));
      NumbersAppend(Reject(head, carrier), Reject(pool[1..], carrier));
      NumbersAppend(head, pool[1..]);
      var n := TrackingNumbers(head);
      var sel, rej := TrackingNumbers(Select(pool[1..], carrier)), TrackingNumbers(Reject(pool[1..], carrier));
      if ForCarrier(pool[0], carrier) {
        assert Select(head, carrier) == head && Reject(head, carrier) == [];
        assert TrackingNumbers(Select(pool, carrier)) == n + sel;
        assert TrackingNumbers(Reject(pool, carrier)) == rej;
      } else {
        assert Select(head, carrier) == [] && Reject(head, carrier) == head;
        assert TrackingNumbers(Select(pool, carrier)) == sel;
        assert TrackingNumbers(Reject(pool, carrier)) == n + rej;
      }
      assert multiset(TrackingNumbers(pool)) == multiset(n) + multiset(sel) + multiset(rej);
    }
  }

  /** The tracking numbers of a concatenation. */
  lemma NumbersAppend(a: seq<TrackingInfo>, b: seq<TrackingInfo>)
    ensures TrackingNumbers(a + b) == TrackingNumbers(a) + TrackingNumbers(b)
  {
  }

  /** `Array#-` removing the selected requests leaves exactly the rejected
      ones, provided every request of the pool is removed just when it is for
      the carrier. */
  lemma {:induction false} DifferenceIsReject(pool: seq<TrackingInfo>, removed: seq<TrackingInfo>, carrier: string)
    requires forall x :: x in pool ==> (x in removed <==> ForCarrier(x, carrier))
    ensures Difference(pool, removed) == Reject(pool, carrier)
  {
    if pool != [] {
      assert pool[0] in pool;
      DifferenceIsReject(pool[1..], removed, carrier);
    }
  }

  /** Removing a carrier's selection from the pool with `Array#-` leaves the
      requests not for that carrier, in input order, even when equal requests
      occur more than once. */
  lemma DifferenceOfSelect(pool: seq<TrackingInfo>, carrier: string)
    ensures Difference(pool, Select(pool, carrier)) == Reject(pool, carrier)
  {
    forall x | x in pool
      ensures x in Select(pool, carrier) <==> ForCarrier(x, carrier)
    {
      SelectRejectMembers(pool, carrier, x);
    }
    DifferenceIsReject(pool, Select(pool, carrier), carrier);
  }

  /** The unknown-carrier step answers each remaining request, in order, with
      its own tracking number, status EXEPTION and message "Unknown Carrier". */
  lemma UnknownCarrierResponsesSpec(pool: seq<TrackingInfo>)
    ensures |UnknownCarrierResponses(pool)| == |pool|
    ensures forall i :: 0 <= i < |pool| ==>
      UnknownCarrierResponses(pool)[i] == TrackingResult(pool[i].trackingNumber, "EXEPTION", "Unknown Carrier")
    ensures ResultNumbers(UnknownCarrierResponses(pool)) == TrackingNumbers(pool)
  {
  }

  /** When every carrier's client answers, there is one result per request,
      and the results answer for exactly the requested tracking numbers, each
      as often as it was requested. */
  lemma {:induction false} ConsolidatedCoversRequests(fedex: FedexService, carriers: seq<string>, pool: seq<TrackingInfo>)
    ensures Consolidated(fedex, carriers, pool).Tracked? ==>
      var results := Consolidated(fedex, carriers, pool).results;
      && |results| == |pool|
      && multiset(ResultNumbers(results)) == multiset(TrackingNumbers(pool))
    decreases |carriers|
  {
    if carriers != [] {
      var selected := Select(pool, carriers[0]);
      var rest := Reject(pool, carriers[0]);
      var client := TrackSpec(fedex, TrackingNumbers(selected));
      var later := Consolidated(fedex, carriers[1..], rest);
      if client.Tracked? && later.Tracked? {
        assert Consolidated(fedex, carriers, pool) == Tracked(client.results + later.results);
        ConsolidatedCoversRequests(fedex, carriers[1..], rest);
        TrackSpecNumbers(fedex, TrackingNumbers(selected));
        CoveredByParts(pool, carriers[0], client.results, later.results);
      }
    } else {
      UnknownCarrierResponsesSpec(pool);
    }
  }

  /** Results answering for the selection, followed by results answering
      (as a multiset) for the rest, answer for the whole pool. */
  lemma CoveredByParts(pool: seq<TrackingInfo>, carrier: string, first: seq<TrackingResult>, second: seq<TrackingResult>)
    requires ResultNumbers(first) == TrackingNumbers(Select(pool, carrier))
    requires |second| == |Reject(pool, carrier)|
    requires multiset(ResultNumbers(second)) == multiset(TrackingNumbers(Reject(pool, carrier)))
    ensures |first + second| == |pool|
    ensures multiset(ResultNumbers(first + second)) == multiset(TrackingNumbers(pool))
  {
    SelectRejectPartition(pool, carrier);
    SelectRejectNumbers(pool, carrier);
    assert ResultNumbers(first + second) == ResultNumbers(first) + ResultNumbers(second);
  }

  /** With FedEx the only supported carrier: the FedEx client is given the
      tracking numbers of the requests for FedEx (any case) in input order;
      its results come first, then one unknown-carrier result for each other
      request, in input order; a FedEx authentication failure aborts. */
  lemma PerformWithFedexOnly(fedex: FedexService, pool: seq<TrackingInfo>)
    ensures Consolidated(fedex, CARRIERS, pool) ==
      match TrackSpec(fedex, TrackingNumbers(Select(pool, "Fedex")))
      case AuthenticationFailed => AuthenticationFailed
      case Tracked(rs) => Tracked(rs + UnknownCarrierResponses(Reject(pool, "Fedex")))
  {
    assert CARRIERS[1..] == [];
  }

  /** The requests of the job's tests: `FEDEX` and `fedex` are requests for
      the carrier `Fedex`, while `UNKOWN` and a missing carrier are not. */
  lemma FedexSpellings(trackingNumber: string)
    ensures ForCarrier(TrackingInfo(trackingNumber, Some("FEDEX")), "Fedex")
    ensures ForCarrier(TrackingInfo(trackingNumber, Some("fedex")), "Fedex")
    ensures !ForCarrier(TrackingInfo(trackingNumber, Some("UNKOWN")), "Fedex")
    ensures !ForCarrier(TrackingInfo(trackingNumber, None), "Fedex")
  {
    CaseEqPointwise("FEDEX", "Fedex");
    CaseEqPointwise("fedex", "Fedex");
  }

  /** The background job. `trackId` and `results` are the job's fields;
      `reported` is the log of reports handed to the reporter after a
      completed `perform`. */
  class TrackJob {
    var trackId: string
    var results: seq<TrackingResult>
    ghost var reported: seq<Report>

    constructor ()
      ensures trackId == [] && results == [] && reported == []
    {
      trackId := [];
      results := [];
      reported := [];
    }

    /** `perform` followed by its `after_perform` report: serve the carriers
        in order, each with the requests for it taken out of the pool, then
        answer what is left as unknown-carrier requests. A raised
        authentication failure ends the job with nothing reported. */
    method Perform(trackId: string, trackingInfo: seq<TrackingInfo>, fedex: FedexService) returns (outcome: TrackOutcome)
      modifies this
      ensures this.trackId == trackId
      ensures outcome == Consolidated(fedex, CARRIERS, trackingInfo)
      ensures outcome.Tracked? ==>
        results == outcome.results && reported == old(reported) + [Report(trackId, outcome.results)]
      ensures outcome.AuthenticationFailed? ==> reported == old(reported)
    {
      this.trackId := trackId;
      results := [];
      var pool := trackingInfo;
      for c := 0 to |CARRIERS|
        invariant this.trackId == trackId && reported == old(reported)
        invariant Consolidated(fedex, CARRIERS, trackingInfo) == Prepend(results, Consolidated(fedex, CARRIERS[c..], pool))
      {
        var carrier := CARRIERS[c];
        var forCarrier := Select(pool, carrier);
        ghost var old_pool := pool;
        DifferenceOfSelect(pool, carrier);
        pool := Difference(pool, forCarrier);
        var trackingNumbers := TrackingNumbers(forCarrier);
        var tracked;
        ghost var queries;
        tracked, queries := Track(fedex, trackingNumbers);
        assert CARRIERS[c..][1..] == CARRIERS[c + 1..];
        ConsolidatedStep(fedex, CARRIERS[c..], old_pool, results, tracked);
        if tracked.AuthenticationFailed? {
          return tracked;
        }
        results := results + tracked.results;
      }
      results := results + UnknownCarrierResponses(pool);
      outcome := Tracked(results);
      reported := reported + [Report(trackId, results)];
    }
  }
}
