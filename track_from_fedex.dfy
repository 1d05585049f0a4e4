/**
 * The FedEx carrier client: classification of FedEx's raw status text into
 * the canonical status codes, and the per-number query loop with its retry
 * policy for "Server Down" and its abort on "Authentication Failed".
 *
 * The FedEx web service is an oracle: a total function from a tracking number
 * and the index of the attempt for that number (0 for the first query, 1 for
 * the first retry, ...) to the reply FedEx gives.
 */
module TrackFromFedex {
  import opened RubyString

  const MAX_RETRIES: nat := 3

  const CREATED: seq<string> := [
    "Shipment information sent to FedEx"
  ]

  const ON_TRANSIT: seq<string> := [
    "At Pickup",
    "Picked up",
    "In FedEx possession",
    "At local FedEx facility",
    "Left FedEx origin facility",
    "Arrived at FedEx location",
    "Departed FedEx location",
    "In transit",
    "At FedEx destination facility",
    "On FedEx vehicle for delivery"
  ]

  const DELIVERED: seq<string> := [
    "Delivered"
  ]

  const AUTHENTICATION_FAILED: string := "Authentication Failed"
  const SERVER_DOWN: string := "Server Down"

  /** The canonical codes a FedEx result can carry. */
  predicate IsStatusCode(s: string) {
    s == "CREATED" || s == "ON_TRANSIT" || s == "DELIVERED" || s == "EXCEPTION"
  }

  /** One entry of the consolidated result list. */
  datatype TrackingResult = TrackingResult(trackingNumber: string, status: string, message: string)

  /** A status history as FedEx returns it; `results.first` needs at least one entry. */
  type History = h: seq<string> | |h| > 0 witness ["Delivered"]

  /** What one query to FedEx yields: a status history, or a `Fedex::RateError`
      with its message. */
  datatype Reply = Found(history: History) | RateError(message: string)

  /** The FedEx service, indexed by tracking number and attempt index. */
  type FedexService = (string, nat) -> Reply

  /** What `track` hands back: the result list, or the raised `AuthenticationFailed`. */
  datatype TrackOutcome = Tracked(results: seq<TrackingResult>) | AuthenticationFailed

  /** How one tracking number ends: with a result, or by aborting the whole
      call; `queries` is the number of FedEx queries made for it. */
  datatype Resolution = Resolved(result: TrackingResult, queries: nat) | Aborted(queries: nat)

  /** `status_code`: total; a string in one of the three lists gets that
      list's code whatever order the lists are checked in (they are
      disjoint), and every other string gets EXCEPTION. */
  function StatusCode(status: string): (code: string)
    ensures IsStatusCode(code)
  {
    if status in CREATED then "CREATED"
    else if status in ON_TRANSIT then "ON_TRANSIT"
    else if status in DELIVERED then "DELIVERED"
    else "EXCEPTION"
  }

  /** Each listed status gets exactly its own list's code, and EXCEPTION is
      given exactly to the strings in none of the lists. */
  lemma StatusCodeSpec(status: string)
    ensures StatusCode(status) == "CREATED" <==> status in CREATED
    ensures StatusCode(status) == "ON_TRANSIT" <==> status in ON_TRANSIT
    ensures StatusCode(status) == "DELIVERED" <==> status in DELIVERED
    ensures StatusCode(status) == "EXCEPTION" <==> status !in CREATED && status !in ON_TRANSIT && status !in DELIVERED
  {
    StatusListsDisjoint(status);
  }

  /** No raw FedEx status belongs to two of the three lists. */
  lemma StatusListsDisjoint(status: string)
    ensures !(status in CREATED && status in ON_TRANSIT)
    ensures !(status in CREATED && status in DELIVERED)
    ensures !(status in ON_TRANSIT && status in DELIVERED)
  {
  }

  /** The error message, stripped, is "Server Down" up to case. */
  predicate IsServerDown(reply: Reply) {
    reply.RateError? && CaseEq(Strip(reply.message), SERVER_DOWN)
  }

  /** The error message, stripped, is "Authentication Failed" up to case. */
  predicate IsAuthFailure(reply: Reply) {
    reply.RateError? && CaseEq(Strip(reply.message), AUTHENTICATION_FAILED)
  }

  /** The two error messages the client singles out never coincide. */
  lemma ServerDownIsNotAuthFailure(reply: Reply)
    ensures !(IsServerDown(reply) && IsAuthFailure(reply))
  {
  }

  /** The resolution a reply gives when it is not retried, after `queries`
      queries: a status history gives its first entry's code and text, an
      authentication failure aborts, any other error gives EXCEPTION with the
      stripped error text. */
  function Answer(trackingNumber: string, reply: Reply, queries: nat): (r: Resolution)
    ensures r.queries == queries
    ensures r.Resolved? ==> r.result.trackingNumber == trackingNumber && IsStatusCode(r.result.status)
  {
    match reply
    case Found(history) =>
      Resolved(TrackingResult(trackingNumber, StatusCode(history[0]), history[0]), queries)
    case RateError(error) =>
      var message := Strip(error);
      if CaseEq(message, AUTHENTICATION_FAILED) then Aborted(queries)
      else Resolved(TrackingResult(trackingNumber, "EXCEPTION", message), queries)
  }

  /** The three ways a final reply ends a number, one by one. */
  lemma AnswerCases(trackingNumber: string, reply: Reply, queries: nat)
    ensures Answer(trackingNumber, reply, queries).Aborted? <==> IsAuthFailure(reply)
    ensures reply.Found? ==> var status := reply.history[0];
      Answer(trackingNumber, reply, queries) == Resolved(TrackingResult(trackingNumber, StatusCode(status), status), queries)
    ensures reply.RateError? && !IsAuthFailure(reply) ==>
      Answer(trackingNumber, reply, queries) == Resolved(TrackingResult(trackingNumber, "EXCEPTION", Strip(reply.message)), queries)
  {
  }

  /** How one tracking number proceeds from attempt `retries` on: the
      `begin ... rescue ... retry` block of `track`. A "Server Down" is
      retried while fewer than MAX_RETRIES queries have been made; since it
      is never an authentication failure, testing it first does not change
      the outcome. */
  function Attempt(fedex: FedexService, trackingNumber: string, retries: nat): (r: Resolution)
    requires retries < MAX_RETRIES
    ensures retries < r.queries <= MAX_RETRIES
    ensures r.Resolved? ==> r.result.trackingNumber == trackingNumber && IsStatusCode(r.result.status)
    decreases MAX_RETRIES - retries
  {
    var reply := fedex(trackingNumber, retries);
    if IsServerDown(reply) && retries + 1 < MAX_RETRIES then
      Attempt(fedex, trackingNumber, retries + 1)
    else
      Answer(trackingNumber, reply, retries + 1)
  }

  /** How one tracking number is resolved, starting with its first query. */
  function Resolve(fedex: FedexService, trackingNumber: string): Resolution {
    Attempt(fedex, trackingNumber, 0)
  }

  /** From attempt `retries` on, every reply before the last was "Server
      Down", and a last "Server Down" means the retries ran out. */
  lemma {:induction false} AttemptRetries(fedex: FedexService, trackingNumber: string, retries: nat)
    requires retries < MAX_RETRIES
    ensures var r := Attempt(fedex, trackingNumber, retries);
      && (forall a :: retries <= a < r.queries - 1 ==> IsServerDown(fedex(trackingNumber, a)))
      && (IsServerDown(fedex(trackingNumber, r.queries - 1)) ==> r.queries == MAX_RETRIES)
    decreases MAX_RETRIES - retries
  {
    var reply := fedex(trackingNumber, retries);
    if IsServerDown(reply) && retries + 1 < MAX_RETRIES {
      AttemptRetries(fedex, trackingNumber, retries + 1);
      assert Attempt(fedex, trackingNumber, retries) == Attempt(fedex, trackingNumber, retries + 1);
    } else {
      assert Attempt(fedex, trackingNumber, retries).queries == retries + 1;
    }
  }

  /** From attempt `retries` on, the last reply alone gives the resolution. */
  lemma {:induction false} AttemptLastReply(fedex: FedexService, trackingNumber: string, retries: nat)
    requires retries < MAX_RETRIES
    ensures var r := Attempt(fedex, trackingNumber, retries);
      r == Answer(trackingNumber, fedex(trackingNumber, r.queries - 1), r.queries)
    decreases MAX_RETRIES - retries
  {
    var reply := fedex(trackingNumber, retries);
    if IsServerDown(reply) && retries + 1 < MAX_RETRIES {
      AttemptLastReply(fedex, trackingNumber, retries + 1);
      assert Attempt(fedex, trackingNumber, retries) == Attempt(fedex, trackingNumber, retries + 1);
    } else {
      assert Attempt(fedex, trackingNumber, retries) == Answer(trackingNumber, reply, retries + 1);
    }
  }

  /** For one tracking number, 1 to MAX_RETRIES queries are made; every
      answer before the last was "Server Down", and a last "Server Down"
      means the retries ran out. */
  lemma ResolveRetries(fedex: FedexService, trackingNumber: string)
    ensures var r := Resolve(fedex, trackingNumber);
      && 1 <= r.queries <= MAX_RETRIES
      && (forall a :: 0 <= a < r.queries - 1 ==> IsServerDown(fedex(trackingNumber, a)))
      && (IsServerDown(fedex(trackingNumber, r.queries - 1)) ==> r.queries == MAX_RETRIES)
  {
    AttemptRetries(fedex, trackingNumber, 0);
  }

  /** The last answer FedEx gave for a number decides its resolution: a
      status history gives its first entry's code and text, an
      authentication failure aborts, and any other error (including a
      "Server Down" on the last allowed query) gives EXCEPTION with the
      stripped message. */
  lemma ResolveLastReply(fedex: FedexService, trackingNumber: string)
    ensures var r := Resolve(fedex, trackingNumber);
      var last := fedex(trackingNumber, r.queries - 1);
      && (r.Aborted? <==> IsAuthFailure(last))
      && (last.Found? ==>
            r == Resolved(TrackingResult(trackingNumber, StatusCode(last.history[0]), last.history[0]), r.queries))
      && (last.RateError? && !IsAuthFailure(last) ==>
            r == Resolved(TrackingResult(trackingNumber, "EXCEPTION", Strip(last.message)), r.queries))
  {
    var r := Resolve(fedex, trackingNumber);
    AttemptLastReply(fedex, trackingNumber, 0);
    AnswerCases(trackingNumber, fedex(trackingNumber, r.queries - 1), r.queries);
  }

  /** A status history on the first query: one query, the first entry's code,
      and the first entry's text as the message. */
  lemma ResolveFound(fedex: FedexService, trackingNumber: string)
    requires fedex(trackingNumber, 0).Found?
    ensures var status := fedex(trackingNumber, 0).history[0];
      Resolve(fedex, trackingNumber) == Resolved(TrackingResult(trackingNumber, StatusCode(status), status), 1)
  {
  }

  /** FedEx answering "Server Down" to every query: exactly MAX_RETRIES
      queries, then an EXCEPTION result whose message is the last stripped
      error text, itself "Server Down" up to case. */
  lemma ResolveServerDown(fedex: FedexService, trackingNumber: string)
    requires forall a :: 0 <= a < MAX_RETRIES ==> IsServerDown(fedex(trackingNumber, a))
    ensures var last := fedex(trackingNumber, MAX_RETRIES - 1);
      && last.RateError?
      && var message := Strip(last.message);
      && Resolve(fedex, trackingNumber) == Resolved(TrackingResult(trackingNumber, "EXCEPTION", message), MAX_RETRIES)
      && CaseEq(message, SERVER_DOWN)
  {
    var r := Resolve(fedex, trackingNumber);
    ResolveRetries(fedex, trackingNumber);
    ResolveLastReply(fedex, trackingNumber);
    ServerDownIsNotAuthFailure(fedex(trackingNumber, r.queries - 1));
  }

  /** An error other than the two singled out: one query and no retry, with
      the stripped error text as the message. */
  lemma ResolveOtherError(fedex: FedexService, trackingNumber: string)
    requires fedex(trackingNumber, 0).RateError?
    requires !IsServerDown(fedex(trackingNumber, 0)) && !IsAuthFailure(fedex(trackingNumber, 0))
    ensures var message := Strip(fedex(trackingNumber, 0).message);
      Resolve(fedex, trackingNumber) == Resolved(TrackingResult(trackingNumber, "EXCEPTION", message), 1)
  {
  }

  /** An authentication failure aborts after that one query. */
  lemma ResolveAuthFailure(fedex: FedexService, trackingNumber: string)
    requires IsAuthFailure(fedex(trackingNumber, 0))
    ensures Resolve(fedex, trackingNumber) == Aborted(1)
  {
  }

  /** Whether some tracking number of the list makes FedEx report an
      authentication failure. */
  predicate SomeAborts(fedex: FedexService, trackingNumbers: seq<string>) {
    exists i :: 0 <= i < |trackingNumbers| && Resolve(fedex, trackingNumbers[i]).Aborted?
  }

  /** `results` placed before a later outcome; an abort stays an abort. */
  function Prepend(results: seq<TrackingResult>, outcome: TrackOutcome): TrackOutcome {
    match outcome
    case Tracked(rest) => Tracked(results + rest)
    case AuthenticationFailed => AuthenticationFailed
  }

  /** The tracking numbers a result list answers for, in order. */
  function ResultNumbers(results: seq<TrackingResult>): seq<string> {
    seq(|results|, i requires 0 <= i < |results| => results[i].trackingNumber)
  }

  /** What `track` returns: each number's result in input order, unless a
      number aborts, which fails the whole call. */
  function TrackSpec(fedex: FedexService, trackingNumbers: seq<string>): TrackOutcome
    decreases |trackingNumbers|
  {
    if trackingNumbers == [] then
      Tracked([])
    else
      match Resolve(fedex, trackingNumbers[0])
      case Aborted(_) => AuthenticationFailed
      case Resolved(result, _) => Prepend([result], TrackSpec(fedex, trackingNumbers[1..]))
  }

  /** `track` fails exactly when some number of the list aborts. */
  lemma {:induction false} TrackSpecAborts(fedex: FedexService, trackingNumbers: seq<string>)
    ensures TrackSpec(fedex, trackingNumbers).AuthenticationFailed? <==> SomeAborts(fedex, trackingNumbers)
    decreases |trackingNumbers|
  {
    if trackingNumbers != [] {
      var rest := trackingNumbers[1..];
      TrackSpecAborts(fedex, rest);
      if SomeAborts(fedex, rest) {
        var i :| 0 <= i < |rest| && Resolve(fedex, rest[i]).Aborted?;
        assert rest[i] == trackingNumbers[i + 1];
      }
      if SomeAborts(fedex, trackingNumbers) && Resolve(fedex, trackingNumbers[0]).Resolved? {
        var i :| 0 <= i < |trackingNumbers| && Resolve(fedex, trackingNumbers[i]).Aborted?;
        assert i != 0;
        assert trackingNumbers[i] == rest[i - 1];
      }
    }
  }

  /** When `track` succeeds, its result list has one entry per number, in
      input order, each equal to that number's own resolution. */
  lemma {:induction false} TrackSpecTracked(fedex: FedexService, trackingNumbers: seq<string>)
    requires TrackSpec(fedex, trackingNumbers).Tracked?
    ensures var results := TrackSpec(fedex, trackingNumbers).results;
      && |results| == |trackingNumbers|
      && forall i :: 0 <= i < |results| ==>
           Resolve(fedex, trackingNumbers[i]) == Resolved(results[i], Resolve(fedex, trackingNumbers[i]).queries)
    decreases |trackingNumbers|
  {
    if trackingNumbers != [] {
      var rest := trackingNumbers[1..];
      var first := Resolve(fedex, trackingNumbers[0]);
      assert TrackSpec(fedex, trackingNumbers) == Prepend([first.result], TrackSpec(fedex, rest));
      TrackSpecTracked(fedex, rest);
      var results := TrackSpec(fedex, trackingNumbers).results;
      var later := TrackSpec(fedex, rest).results;
      assert results == [first.result] + later;
      forall i | 1 <= i < |results|
        ensures Resolve(fedex, trackingNumbers[i]) == Resolved(results[i], Resolve(fedex, trackingNumbers[i]).queries)
      {
        assert results[i] == later[i - 1] && trackingNumbers[i] == rest[i - 1];
      }
    }
  }

  /** A result list from `track` answers for the given numbers, in order. */
  lemma {:induction false} TrackSpecNumbers(fedex: FedexService, trackingNumbers: seq<string>)
    ensures TrackSpec(fedex, trackingNumbers).Tracked? ==>
      ResultNumbers(TrackSpec(fedex, trackingNumbers).results) == trackingNumbers
    decreases |trackingNumbers|
  {
    if trackingNumbers != [] && TrackSpec(fedex, trackingNumbers).Tracked? {
      var rest := trackingNumbers[1..];
      var first := Resolve(fedex, trackingNumbers[0]);
      assert TrackSpec(fedex, trackingNumbers) == Prepend([first.result], TrackSpec(fedex, rest));
      TrackSpecNumbers(fedex, rest);
      var results := TrackSpec(fedex, trackingNumbers).results;
      var later := TrackSpec(fedex, rest).results;
      assert results == [first.result] + later;
      assert ResultNumbers(results) == [trackingNumbers[0]] + ResultNumbers(later);
    }
  }

  /** `track` fails exactly when some number of the list aborts; otherwise it
      gives one result per number, in input order, each echoing its number,
      carrying a canonical status code and equal to that number's own
      resolution. */
  lemma TrackSpecResults(fedex: FedexService, trackingNumbers: seq<string>)
    ensures TrackSpec(fedex, trackingNumbers).AuthenticationFailed? <==> SomeAborts(fedex, trackingNumbers)
    ensures TrackSpec(fedex, trackingNumbers).Tracked? ==>
      var results := TrackSpec(fedex, trackingNumbers).results;
      && ResultNumbers(results) == trackingNumbers
      && (forall i :: 0 <= i < |results| ==> IsStatusCode(results[i].status))
      && (forall i :: 0 <= i < |results| ==> Resolve(fedex, trackingNumbers[i]) == Resolved(results[i], Resolve(fedex, trackingNumbers[i]).queries))
  {
    TrackSpecAborts(fedex, trackingNumbers);
    TrackSpecNumbers(fedex, trackingNumbers);
    if TrackSpec(fedex, trackingNumbers).Tracked? {
      TrackSpecTracked(fedex, trackingNumbers);
    }
  }

  /** The number of FedEx queries `track` makes for each number it reaches,
      in order: the numbers up to and including the first aborting one. */
  function QueryCounts(fedex: FedexService, trackingNumbers: seq<string>): seq<nat>
    decreases |trackingNumbers|
  {
    if trackingNumbers == [] then
      []
    else
      var r := Resolve(fedex, trackingNumbers[0]);
      [r.queries] + (if r.Aborted? then [] else QueryCounts(fedex, trackingNumbers[1..]))
  }

  /** `track` queries the numbers in order: each number it reaches gets its
      own query count, and every number before the last one reached was
      resolved. */
  lemma {:induction false} QueryCountsPerNumber(fedex: FedexService, trackingNumbers: seq<string>)
    ensures var counts := QueryCounts(fedex, trackingNumbers);
      && |counts| <= |trackingNumbers|
      && (forall j :: 0 <= j < |counts| ==> counts[j] == Resolve(fedex, trackingNumbers[j]).queries)
      && (forall j :: 0 <= j < |counts| - 1 ==> Resolve(fedex, trackingNumbers[j]).Resolved?)
    decreases |trackingNumbers|
  {
    if trackingNumbers != [] && Resolve(fedex, trackingNumbers[0]).Resolved? {
      var rest := trackingNumbers[1..];
      QueryCountsPerNumber(fedex, rest);
      var counts := QueryCounts(fedex, trackingNumbers);
      var later := QueryCounts(fedex, rest);
      assert counts == [counts[0]] + later;
      forall j | 1 <= j < |counts|
        ensures counts[j] == Resolve(fedex, trackingNumbers[j]).queries
        ensures j < |counts| - 1 ==> Resolve(fedex, trackingNumbers[j]).Resolved?
      {
        assert counts[j] == later[j - 1] && trackingNumbers[j] == rest[j - 1];
      }
    }
  }

  /** `track` stops right after the first aborting number: the call fails
      exactly when the last number reached aborted, and a successful call
      reached every number. */
  lemma {:induction false} QueryCountsStop(fedex: FedexService, trackingNumbers: seq<string>)
    ensures var counts := QueryCounts(fedex, trackingNumbers);
      && (TrackSpec(fedex, trackingNumbers).AuthenticationFailed? <==>
            0 < |counts| <= |trackingNumbers| && Resolve(fedex, trackingNumbers[|counts| - 1]).Aborted?)
      && (TrackSpec(fedex, trackingNumbers).Tracked? ==> |counts| == |trackingNumbers|)
    decreases |trackingNumbers|
  {
    if trackingNumbers != [] && Resolve(fedex, trackingNumbers[0]).Resolved? {
      var rest := trackingNumbers[1..];
      QueryCountsStop(fedex, rest);
      var first := Resolve(fedex, trackingNumbers[0]);
      var later := QueryCounts(fedex, rest);
      assert QueryCounts(fedex, trackingNumbers) == [first.queries] + later;
      assert TrackSpec(fedex, trackingNumbers) == Prepend([first.result], TrackSpec(fedex, rest));
      if 0 < |later| <= |rest| {
        assert trackingNumbers[|later|] == rest[|later| - 1];
      }
    }
  }

  /** An authentication failure for any number of the list, on its first
      query or after "Server Down" retries, fails the whole call: no result
      list is produced, whatever the other numbers give. */
  lemma TrackAuthFailure(fedex: FedexService, trackingNumbers: seq<string>, i: nat, a: nat)
    requires i < |trackingNumbers| && a < MAX_RETRIES
    requires forall b :: 0 <= b < a ==> IsServerDown(fedex(trackingNumbers[i], b))
    requires IsAuthFailure(fedex(trackingNumbers[i], a))
    ensures TrackSpec(fedex, trackingNumbers) == AuthenticationFailed
  {
    ResolveAuthFailureAfter(fedex, trackingNumbers[i], a);
    TrackSpecAborts(fedex, trackingNumbers);
  }

  /** An authentication failure after `a` "Server Down" replies aborts the
      number after `a + 1` queries. */
  lemma ResolveAuthFailureAfter(fedex: FedexService, trackingNumber: string, a: nat)
    requires a < MAX_RETRIES
    requires forall b :: 0 <= b < a ==> IsServerDown(fedex(trackingNumber, b))
    requires IsAuthFailure(fedex(trackingNumber, a))
    ensures Resolve(fedex, trackingNumber) == Aborted(a + 1)
  {
    var q := Resolve(fedex, trackingNumber).queries;
    ResolveRetries(fedex, trackingNumber);
    ServerDownIsNotAuthFailure(fedex(trackingNumber, a));
    assert a >= q - 1;
    assert q - 1 == a;
    ResolveLastReply(fedex, trackingNumber);
  }

  /** Two numbers, the first with the status "Shipment information sent to
      FedEx" and the second unknown to FedEx: a CREATED result, then an
      EXCEPTION result carrying FedEx's error text, in input order. */
  lemma TrackTwoNumbers(fedex: FedexService)
    requires fedex("000000000000001", 0) == Found(["Shipment information sent to FedEx"])
    requires fedex("000000000000002", 0) ==
      RateError("This tracking number cannot be found. " + "Please check the number or contact the sender.")
    ensures TrackSpec(fedex, ["000000000000001", "000000000000002"]) == Tracked([
      TrackingResult("000000000000001", "CREATED", "Shipment information sent to FedEx"),
      TrackingResult("000000000000002", "EXCEPTION",
        "This tracking number cannot be found. " + "Please check the number or contact the sender.")])
  {
    var notFound := "This tracking number cannot be found. " + "Please check the number or contact the sender.";
    assert notFound[0] == 'T' && notFound[|notFound| - 1] == '.';
    StripClean(notFound);
    ResolveFound(fedex, "000000000000001");
    ResolveOtherError(fedex, "000000000000002");
    var ns := ["000000000000001", "000000000000002"];
    assert !SomeAborts(fedex, ns) by {
      forall i | 0 <= i < |ns| ensures Resolve(fedex, ns[i]).Resolved? {
        assert ns[i] == "000000000000001" || ns[i] == "000000000000002";
      }
    }
  }

  /** The outcome and the query counts for the numbers from position `i` on,
      by the first of them. */
  lemma TrackStep(fedex: FedexService, trackingNumbers: seq<string>, i: nat)
    requires i < |trackingNumbers|
    ensures var r := Resolve(fedex, trackingNumbers[i]);
      && TrackSpec(fedex, trackingNumbers[i..]) ==
           (if r.Aborted? then AuthenticationFailed else Prepend([r.result], TrackSpec(fedex, trackingNumbers[i + 1..])))
      && QueryCounts(fedex, trackingNumbers[i..]) ==
           [r.queries] + (if r.Aborted? then [] else QueryCounts(fedex, trackingNumbers[i + 1..]))
  {
    assert trackingNumbers[i..][1..] == trackingNumbers[i + 1..];
  }

  /** Prepending twice is prepending the concatenation. */
  lemma PrependTwice(first: seq<TrackingResult>, second: seq<TrackingResult>, outcome: TrackOutcome)
    ensures Prepend(first, Prepend(second, outcome)) == Prepend(first + second, outcome)
  {
    if outcome.Tracked? {
      assert first + (second + outcome.results) == (first + second) + outcome.results;
    }
  }

  /** Testing the reply in the order `track` does (a status history, then an
      authentication failure, then "Server Down") gives the same resolution
      as `Attempt`, which tests for a retry first. */
  lemma AttemptInSourceOrder(fedex: FedexService, trackingNumber: string, retries: nat)
    requires retries < MAX_RETRIES
    ensures var reply := fedex(trackingNumber, retries);
      var r := Attempt(fedex, trackingNumber, retries);
      && (reply.Found? ==>
            r == Resolved(TrackingResult(trackingNumber, StatusCode(reply.history[0]), reply.history[0]), retries + 1))
      && (reply.RateError? ==>
            var message := Strip(reply.message);
            if CaseEq(message, AUTHENTICATION_FAILED) then r == Aborted(retries + 1)
            else if CaseEq(message, SERVER_DOWN) && retries + 1 < MAX_RETRIES then r == Attempt(fedex, trackingNumber, retries + 1)
            else r == Resolved(TrackingResult(trackingNumber, "EXCEPTION", message), retries + 1))
  {
    ServerDownIsNotAuthFailure(fedex(trackingNumber, retries));
  }

  /** The block `track` runs for one tracking number: query FedEx, retry on
      "Server Down" while fewer than MAX_RETRIES queries have been made, and
      report an authentication failure as `Aborted`. */
  method TrackNumber(fedex: FedexService, trackingNumber: string) returns (r: Resolution)
    ensures r == Resolve(fedex, trackingNumber)
  {
    var retries: nat := 0;
    while true
      invariant retries < MAX_RETRIES
      invariant Attempt(fedex, trackingNumber, retries) == Resolve(fedex, trackingNumber)
      decreases MAX_RETRIES - retries
    {
      var queried := retries + 1;
      var reply := fedex(trackingNumber, retries);
      AttemptInSourceOrder(fedex, trackingNumber, retries);
      if reply.Found? {
        return Resolved(TrackingResult(trackingNumber, StatusCode(reply.history[0]), reply.history[0]), queried);
      }
      var message := Strip(reply.message);
      if CaseEq(message, AUTHENTICATION_FAILED) {
        return Aborted(queried);
      }
      if CaseEq(message, SERVER_DOWN) {
        retries := retries + 1;
        if retries < MAX_RETRIES {
          continue;
        }
      }
      return Resolved(TrackingResult(trackingNumber, "EXCEPTION", message), queried);
    }
  }

  /** `TrackFromFedex.track`: query FedEx for each tracking number in turn and
      stop at the first authentication failure. The ghost `queries` holds the
      number of queries made for each number that was queried. */
  method Track(fedex: FedexService, trackingNumbers: seq<string>) returns (outcome: TrackOutcome, ghost queries: seq<nat>)
    ensures outcome == TrackSpec(fedex, trackingNumbers)
    ensures queries == QueryCounts(fedex, trackingNumbers)
  {
    var results: seq<TrackingResult> := [];
    queries := [];
    for i := 0 to |trackingNumbers|
      invariant TrackSpec(fedex, trackingNumbers) == Prepend(results, TrackSpec(fedex, trackingNumbers[i..]))
      invariant QueryCounts(fedex, trackingNumbers) == queries + QueryCounts(fedex, trackingNumbers[i..])
    {
      var resolution := TrackNumber(fedex, trackingNumbers[i]);
      TrackStep(fedex, trackingNumbers, i);
      assert queries + QueryCounts(fedex, trackingNumbers[i..]) ==
        (queries + [resolution.queries]) + (if resolution.Aborted? then [] else QueryCounts(fedex, trackingNumbers[i + 1..]));
      queries := queries + [resolution.queries];
      if resolution.Aborted? {
        outcome := AuthenticationFailed;
        return;
      }
      PrependTwice(results, [resolution.result], TrackSpec(fedex, trackingNumbers[i + 1..]));
      results := results + [resolution.result];
    }
    assert trackingNumbers[|trackingNumbers|..] == [];
    outcome := Tracked(results);
  }
}
