# package_tracker: tracking aggregation, modelled in Dafny

package_tracker accepts a batch of shipment-tracking requests. Each request
has a tracking number and an optional carrier name. A background job,
`TrackJob`, serves every supported carrier in turn: it picks out the requests
for that carrier, hands their tracking numbers to the carrier's client, and
collects the client's results. It then answers each remaining request with an
"Unknown Carrier" result and reports the consolidated list. The only carrier
client is `TrackFromFedex`. It queries FedEx once per tracking number and
retries while FedEx answers "Server Down", up to `MAX_RETRIES` queries in
all. An "Authentication Failed" answer fails the whole call. It classifies
FedEx's raw status text into `CREATED`, `ON_TRANSIT`, `DELIVERED` or
`EXCEPTION`.

The project has three modules:

- `RubyString` (ruby_string.dfy) covers the two Ruby string operations the
  core depends on:
  - `String#strip` is modelled as `Strip`, which removes leading and trailing
    NUL and ASCII whitespace.
  - `String#casecmp?` is modelled as `CaseEq`, an ASCII case-insensitive
    equality.
- `TrackFromFedex` (track_from_fedex.dfy) covers the FedEx client. FedEx is
  an oracle `FedexService` that maps a tracking number and a query index
  (0, 1, 2, …) to a reply: either a non-empty status history or a
  `RateError` with a message.
  - The retry loop for one number is the method `TrackNumber`.
  - `track` is the method `Track`, which loops over the numbers.
  - Both methods are proved equal to the specification functions `Resolve`
    and `TrackSpec`. Lemmas then prove what those functions promise.
  - The raised `AuthenticationFailed` is the outcome value
    `AuthenticationFailed`.
  - `Track` also returns a ghost list of the queries made for each number
    that was queried.
- `Jobs` (track_job.dfy) covers the job.
  - `TrackJob` is a class whose fields are `trackId` and `results`.
  - `Perform` is proved equal to the specification function `Consolidated`.
  - The `after_perform` report is a ghost log, `reported`. It gains one
    entry when `perform` completes and is unchanged when an authentication
    failure ends the job.

The unknown-carrier status is the literal `EXEPTION`, as
app/jobs/track_job.rb:29 writes it and spec/jobs/track_job_spec.rb:24-26
expects. The client's results carry `EXCEPTION` and the job's
unknown-carrier results carry `EXEPTION`.

`MAX_RETRIES = 3` bounds the total number of queries for a number, not the
number of repeats: a number gets at most three queries, including the first
one.

## Model

| member | source | states |
|---|---|---|
| TrackFromFedex.StatusCode | app/lib/track_from_fedex.rb:53-58 | `status_code` is total and always returns one of the four canonical codes |
| TrackFromFedex.StatusCodeSpec | app/lib/track_from_fedex.rb:53-58 | a status gets CREATED, ON_TRANSIT or DELIVERED exactly when it is in that list, and EXCEPTION exactly when it is in none of the three |
| TrackFromFedex.StatusListsDisjoint | app/lib/track_from_fedex.rb:8-27 | no status belongs to two of the three lists, so the order of the checks does not matter |
| TrackFromFedex.ServerDownIsNotAuthFailure | app/lib/track_from_fedex.rb:43-44 | no error message is both "Authentication Failed" and "Server Down" after strip and case folding |
| TrackFromFedex.Answer | app/lib/track_from_fedex.rb:36-48 | a reply that ends a number keeps the query count, and a result it gives echoes the tracking number and has a canonical status |
| TrackFromFedex.AnswerCases | app/lib/track_from_fedex.rb:36-48 | a final reply aborts exactly on "Authentication Failed"; a status history gives the first entry's code and text; any other error gives EXCEPTION with the stripped text |
| TrackFromFedex.Attempt | app/lib/track_from_fedex.rb:33-48 | after `retries` queries, the number ends with more than `retries` and at most MAX_RETRIES queries, and a result echoes the number with a canonical status |
| TrackFromFedex.AttemptRetries | app/lib/track_from_fedex.rb:44-47 | every reply before the last one was "Server Down", and a last "Server Down" happens only on query MAX_RETRIES |
| TrackFromFedex.AttemptLastReply | app/lib/track_from_fedex.rb:35-48 | the resolution is what the last reply alone gives |
| TrackFromFedex.AttemptInSourceOrder | app/lib/track_from_fedex.rb:35-48 | checking the reply in the source's order (history, then authentication failure, then "Server Down" with a retry left, then EXCEPTION) gives the same resolution |
| TrackFromFedex.ResolveRetries | app/lib/track_from_fedex.rb:33-47 | a number gets between 1 and MAX_RETRIES queries; only "Server Down" leads to another query; the retries stop only when they run out or FedEx gives another reply |
| TrackFromFedex.ResolveLastReply | app/lib/track_from_fedex.rb:35-48 | the last reply decides the outcome: abort exactly on authentication failure; a history gives its first entry's code and text; any other error gives EXCEPTION with the stripped text |
| TrackFromFedex.ResolveFound | app/lib/track_from_fedex.rb:35-40 | a status history on the first query gives one query, the first entry's code, and its text as the message |
| TrackFromFedex.ResolveServerDown | app/lib/track_from_fedex.rb:44-48 | when FedEx keeps answering "Server Down", there are exactly MAX_RETRIES queries, then an EXCEPTION result whose message is the stripped "Server Down" text |
| TrackFromFedex.ResolveOtherError | app/lib/track_from_fedex.rb:41-48 | any other error gives one query, no retry, and EXCEPTION with the stripped message |
| TrackFromFedex.ResolveAuthFailure | app/lib/track_from_fedex.rb:43 | "Authentication Failed" aborts after that single query |
| TrackFromFedex.TrackSpecAborts | app/lib/track_from_fedex.rb:32-43 | the whole call fails exactly when some number in the list gets an authentication failure |
| TrackFromFedex.TrackSpecTracked | app/lib/track_from_fedex.rb:32-50 | without an abort, there is one result per number, and result i is the resolution of number i |
| TrackFromFedex.TrackSpecNumbers | app/lib/track_from_fedex.rb:32-48 | the results echo the input tracking numbers in input order |
| TrackFromFedex.TrackSpecResults | app/lib/track_from_fedex.rb:29-51 | `track`'s promise in one place: abort exactly on some authentication failure; otherwise input numbers in order, canonical statuses, and each result is its number's resolution |
| TrackFromFedex.QueryCountsPerNumber | app/lib/track_from_fedex.rb:32-47 | each queried number's count is its own query count; every number queried before the last one was resolved without aborting |
| TrackFromFedex.QueryCountsStop | app/lib/track_from_fedex.rb:32-43 | the call fails exactly when the last number queried aborted, and numbers after it are not queried; a call that completes queries every number |
| TrackFromFedex.TrackAuthFailure | app/lib/track_from_fedex.rb:32-46 | an authentication failure for any one number, on its first query or after "Server Down" retries, fails the whole call, whatever the other numbers give |
| TrackFromFedex.ResolveAuthFailureAfter | app/lib/track_from_fedex.rb:33-46 | an authentication failure after `a` "Server Down" replies aborts the number after exactly `a + 1` queries |
| TrackFromFedex.TrackTwoNumbers | spec/lib/track_from_fedex_spec.rb:158-218 | two numbers give a CREATED result, then an EXCEPTION result with FedEx's "not found" text, in input order |
| TrackFromFedex.TrackNumber | app/lib/track_from_fedex.rb:33-49 | the begin/rescue/retry block for one number computes `Resolve` |
| TrackFromFedex.Track | app/lib/track_from_fedex.rb:29-51 | `track` returns `TrackSpec`, and the query count of every number it queried |
| RubyString.LeadingSpacesSpec | app/lib/track_from_fedex.rb:42 | the number of leading characters `strip` removes is exactly the length of the run of leading whitespace |
| RubyString.TrailingSpacesSpec | app/lib/track_from_fedex.rb:42 | the number of trailing characters `strip` removes is exactly the length of the run of trailing whitespace |
| RubyString.StripSlice | app/lib/track_from_fedex.rb:42 | `strip` returns a contiguous slice of its input, and everything it drops at either end is whitespace |
| RubyString.StripSpec | app/lib/track_from_fedex.rb:42 | the stripped text starts and ends with non-whitespace, and it is empty exactly when the input is all whitespace |
| RubyString.StripClean | app/lib/track_from_fedex.rb:42 | text without whitespace at either end is unchanged by `strip` |
| RubyString.StripIdempotent | app/lib/track_from_fedex.rb:42 | stripping twice is stripping once |
| RubyString.CaseEqPointwise | app/lib/track_from_fedex.rb:43-44 | `casecmp?` holds exactly when the lengths match and the characters agree one by one after ASCII lower-casing |
| RubyString.CaseEqEquivalence | app/lib/track_from_fedex.rb:43-44 | `casecmp?` is reflexive, symmetric and transitive |
| Jobs.SelectRejectMembers | app/jobs/track_job.rb:16-17 | a request is in the carrier's selection exactly when it is for that carrier, and in the rest exactly when it is not |
| Jobs.SelectAppend | app/jobs/track_job.rb:16 | selection keeps input order: it distributes over concatenation |
| Jobs.RejectAppend | app/jobs/track_job.rb:17 | the remaining pool keeps input order: it distributes over concatenation |
| Jobs.SelectRejectPartition | app/jobs/track_job.rb:16-17 | every request is in exactly one of the selection and the rest, counted with multiplicity |
| Jobs.SelectRejectNumbers | app/jobs/track_job.rb:16-18 | the tracking numbers of the selection and of the rest together are the pool's tracking numbers |
| Jobs.NumbersAppend | app/jobs/track_job.rb:18 | collecting tracking numbers distributes over concatenation |
| Jobs.DifferenceIsReject | app/jobs/track_job.rb:17 | when a request of the pool is in the removed list exactly when it is for the carrier, `Array#-` leaves exactly the requests not for the carrier, in input order |
| Jobs.DifferenceOfSelect | app/jobs/track_job.rb:16-17 | removing a carrier's selection with `Array#-` leaves the requests for other carriers, in input order, even when equal requests repeat |
| Jobs.UnknownCarrierResponsesSpec | app/jobs/track_job.rb:22-30 | each leftover request gets one result, in order, with its own number, status EXEPTION and message "Unknown Carrier" |
| Jobs.ConsolidatedStep | app/jobs/track_job.rb:15-19 | one round of the carrier loop appends the carrier's results and continues from the rest of the pool; a client abort aborts the whole job |
| Jobs.ConsolidatedCoversRequests | app/jobs/track_job.rb:15-24 | a completed job has one result per request, and its results answer for exactly the requested tracking numbers, with multiplicity |
| Jobs.CoveredByParts | app/jobs/track_job.rb:16-22 | results for the selection followed by results for the rest answer for the whole pool |
| Jobs.PerformWithFedexOnly | app/jobs/track_job.rb:5-24 | the FedEx client gets the numbers of the FedEx requests (any case) in input order; its results come first, then the unknown-carrier results; a FedEx abort aborts the job |
| Jobs.FedexSpellings | spec/jobs/track_job_spec.rb:9-17 | "FEDEX" and "fedex" select the carrier `Fedex`; "UNKOWN" and a missing carrier do not |
| Jobs.TrackJob.Perform | app/jobs/track_job.rb:9-25 | `perform` stores the track id and returns `Consolidated`; on completion `results` holds the returned list and exactly one report (track id, results) is logged; after an abort nothing is logged |

## Left out

- FedEx itself is replaced by the oracle `FedexService`. This covers the `Fedex::Shipment` gem, its XML requests, the transport and the response parsing. The model also does not cover the credentials lookup in `Rails.application.credentials`.
- An empty status history is not modelled: the type `History` rules it out. In Ruby, `results.first.status` at app/lib/track_from_fedex.rb:38 would raise `NoMethodError` on it, which the `rescue Fedex::RateError` does not catch, so `track` and the job would fail and nothing would be reported.
- A tracking number listed twice gets the same replies for both occurrences, because the oracle is keyed by tracking number and query index. Ruby queries FedEx again for the second occurrence, and FedEx may answer it differently.
- Exceptions from FedEx other than `Fedex::RateError` are not modelled: `track` does not rescue them.
- `TrackerResponder.send_results` makes an HTTP POST, which is modelled only as the ghost `reported` log. A failure of the report is not modelled.
- `constantize` is modelled as a fixed mapping from the carrier `Fedex` to the FedEx client. ActiveJob scheduling is not modelled, and the `after_perform` hook is modelled only in its order relative to `perform`.
- The controller, the request validation and the id generation are not part of this model. They are input plumbing.
- RubyString.CaseEqPointwise: `casecmp?` is modelled with ASCII case folding only; Ruby also folds non-ASCII letters.
- RubyString.StripSpec: `strip` is modelled on characters. Ruby's encoding-level behaviour is not modelled.
- Jobs.TrackJob.Perform: after an authentication failure, the contract does not state what `results` holds. Ruby leaves the partial `@results` of the carriers served so far, but an exception discards them.
- Ruby hashes are modelled as the datatypes `TrackingInfo` and `TrackingResult`. Comparing records with `Array#-` is modelled as datatype equality.
- Jobs.FedexSpellings: the job's five-request test is stated through `PerformWithFedexOnly` and the spellings it uses, not as one concrete run. The test stubs the FedEx client's results, and the job model derives them from the FedEx oracle.
- TrackFromFedex.Attempt: this specification function tests for a retry before it maps the final reply. `AttemptInSourceOrder` proves that the source's order of tests gives the same result.
