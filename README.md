# Lead generation backend: the search handler and the lead validator, in Dafny

This project models the logic of a small lead-generation backend. The backend scrapes
business listings from an infinite-scroll map search page, and it validates leads
before they are stored.

- **Extraction probe** (`Probe`). `extractResults` maps every result item of the
  page to a five-field record. It finds the name, rating, address, phone and website
  by first-match rules, and it puts a sentinel (`'No Rating'`, `'No Address'`, ...)
  in any field it cannot resolve. Items whose name resolves to `'No Name'` are then
  discarded. The page is abstracted to what the probe reads from each item.
- **Convergence loop** (`Convergence`). The `while` loop of the search handler
  probes the page, replaces `allResults` with the fresh snapshot, and counts
  consecutive probes whose length did not change (`retryCount`, reset whenever the
  length changes). It scrolls and repeats until `limit + offset` records are visible
  or more than three probes in a row showed no growth. The live page is an abstract
  feed: one snapshot per iteration. A scroll plus its two-second pause is one step
  of the feed.
- **Request handler and paginator** (`Handler`). The handler answers 400 when `query`
  is missing or empty, without launching a browser. Otherwise it runs the loop and
  answers 200 with the slice `[offset, offset + limit)` of the results and with
  `total_found`. When the browser session throws, it answers 500. The browser is
  closed on both paths whenever one was launched.
- **Lead validator** (`Schema`). `validateLead` rejects a lead whose name is missing,
  not a string, or blank. It trims the name, and turns each falsy optional property
  into `null`. The collection's `$jsonSchema` validator is a constant, used to state
  which validated leads it accepts.
- **String primitives** (`Text`). These are the JavaScript operations the code relies
  on: `includes`, `\d`, `\s`, `replace(/\s/g, '')` and `trim`.

Inputs the code reads from the outside become parameters:
- the rendered page, as a function from the probe number to the items visible then;
- the point where the browser throws, as a `Fault`;
- the two `new Date()` instants, as integers.

Some consequences of the code that are easy to overlook, each stated by a lemma:

- The loop tests the target only at its top (index.js:96). A first probe that already
  has `limit + offset` records therefore ends the loop at once
  (`FirstProbeReachingTargetStops`). The four-stall exit happens only while the count
  stays below the target (`ConstantFeedStopsAfterFiveProbes`).
- The scroll follows the stall test but not the target test (index.js:102-116). The
  iteration that reaches the target still scrolls (`FinalIterationStillScrolls`). The
  iteration that leaves by the stall `break` does not (`StallBreakSkipsScroll`).
- The address and phone heuristics are evaluated independently (index.js:81-82), so one
  detail line can become both fields (`AddressAndPhoneMayCoincide`).
- `!query` (index.js:33) answers 400 for an empty `query` as well as for a missing one.
- When launching the browser itself throws, `browser` stays undefined and the `catch`
  closes nothing (index.js:131). The model's invariant is "closed exactly when launched".
- Items are filtered on the literal string `'No Name'` (index.js:87). An item whose
  label reads "No Name" is dropped as well.
- A Website affordance (`data-value="Website"`) wins even when it has no `href`
  (index.js:83-86). The website is then `'No Website'`, even if another outbound link
  exists (`AffordanceWithoutHrefHidesOtherLinks`).

## Model

| member | source | states |
|---|---|---|
| Text.Includes | index.js:84-85 | `s.includes(t)` holds exactly when `t` occurs in `s` at some offset |
| Text.StripWhitespace | index.js:82 | `d.replace(/\s/g, '')` is no longer than `d`, contains no white space, and keeps exactly the non-white-space characters of `d` |
| Text.StripWhitespaceAppend | index.js:82 | stripping white space distributes over concatenation, so the remaining characters keep their order |
| Text.Trim | db/schema.js:43-48 | the trimmed name neither begins nor ends with white space |
| Text.TrimRemovesOnlyWhitespace | db/schema.js:48 | `trim` removes only a white-space prefix and a white-space suffix: the result is a slice of the input with only white space around it |
| Text.TrimIsEmptyIff | db/schema.js:43 | `name.trim() === ''` holds exactly when the name consists of white space only |
| Text.TrimIdempotent | db/schema.js:48 | trimming twice gives the same result as trimming once |
| Probe.Find | index.js:81-85 | `find` returns nothing exactly when no element matches; otherwise it returns the first matching element, which is in the sequence |
| Probe.AddressSentinelIsNoAddress | index.js:81 | the string `'No Address'` contains neither a comma nor a digit, so it never passes for an address |
| Probe.PhoneSentinelIsNoPhone | index.js:82 | the string `'No Phone'` contains no `+` and does not start with digits, so it never passes for a phone number |
| Probe.ResolveAddress | index.js:79-81 | the address is `'No Address'` exactly when no detail line contains a comma or a digit; otherwise it is the first detail line that does |
| Probe.ResolvePhone | index.js:79-82 | the phone is `'No Phone'` exactly when no detail line contains `+` or starts with five digits once white space is removed; otherwise it is the first such line |
| Probe.WebsiteLink | index.js:83-85 | the website anchor is the first `data-value="Website"` anchor; failing that, the first anchor whose aria-label contains "Website"; failing that, the first anchor with a non-empty href outside `google.com/maps`; failing that, none |
| Probe.RecordShape | index.js:77-86 | every field of the record `ToRecord` builds for an item is a non-empty string: either its sentinel or a value read from the item (its label or title text, its rating text, one of its detail lines, the href of one of its anchors) |
| Probe.Extract | index.js:75-87 | the probe (`ToRecord` on each item, then the `'No Name'` filter `Named`, combined per item in `Emit`) emits at most one record per item, and no emitted record is named `'No Name'` |
| Probe.ExtractAppend | index.js:75-87 | the probe distributes over concatenation of item lists: it keeps item order and looks at each item on its own |
| Probe.ExtractMembers | index.js:76-87 | a record is emitted exactly when some item maps to it and its name is not `'No Name'` |
| Probe.ExtractPrefix | index.js:75-87 | if the page only appends items, the earlier probe's output is a prefix of the later one |
| Probe.AddressAndPhoneMayCoincide | index.js:81-82 | a single detail line containing `+` and digits becomes both the address and the phone |
| Probe.AffordanceWithoutHrefHidesOtherLinks | index.js:83-86 | a Website affordance without an href yields `'No Website'`, even when an outbound link follows it |
| Convergence.Converge | index.js:91-118 | the loop body is `Step`, the variables after k iterations are `StateAfter(feed, k)`, and the exit test is `Done`. Starting from `[]`, -1 and 0, the loop stops after the first iteration `k` at which the list has `limit + offset` records or the stall counter exceeds 3. It returns that iteration's snapshot. It fails exactly when the throwing probe is reached, or the throwing scroll is reached without a stall `break` before it. On a monotone feed of at most `bound` records, it runs at most `5 * bound + 9` iterations |
| Convergence.ReplacedNotAppended | index.js:97-106 | after each iteration the accumulated list is exactly the latest snapshot, and `previousCount` is its length |
| Convergence.FirstProbeNeverStalls | index.js:92-104 | because `previousCount` starts at -1, the first probe resets the stall counter to 0 |
| Convergence.StallCounterStep | index.js:100-105 | from the second probe on, the stall counter is bumped when the count equals the previous count and reset to 0 otherwise |
| Convergence.RetryCountIsStallRun | index.js:100-106 | the stall counter is at least `n` exactly when each of the last `n` probes returned as many records as the probe before it |
| Convergence.StallExit | index.js:96-102 | when the loop stops, either the target is reached or the last five probes returned the same number of records |
| Convergence.AlternatingState | index.js:96-106 | on a feed whose count alternates between 0 and 1, the stall counter stays 0 and the list never grows past one record |
| Convergence.AlternatingFeedNeverStops | index.js:96-118 | without a monotone feed the loop can run forever: on the alternating feed with target 2, it never stops |
| Convergence.ConstantFeedStopsAfterFiveProbes | index.js:96-104 | a feed whose count stays below the target stops after exactly five probes, which are one growth and four stalls |
| Convergence.FirstProbeReachingTargetStops | index.js:96-97 | a first probe that already reaches a positive target ends the loop after one iteration |
| Convergence.FinalIterationStillScrolls | index.js:96-116 | when the first probe reaches the target the loop stops after it, yet that iteration's scroll runs, so a throw there fails the call |
| Convergence.StallBreakSkipsScroll | index.js:100-116 | on a constant feed below the target, the fifth iteration leaves by the stall `break` and never scrolls |
| Handler.Paginate | index.js:120 | the page holds at most `limit` records and no more than were found. It is empty when `offset` is at or past the end. Otherwise it holds `min(limit, total - offset)` records, the i-th being record `offset + i` |
| Handler.PagesTile | index.js:120 | the page at `offset` of size `a`, followed by the page at `offset + a` of size `b`, is the page at `offset` of size `a + b` |
| Handler.AppendOnlyPageIsMonotone | index.js:75-97 | a page that only appends items gives the loop a feed whose counts never decrease |
| Handler.SearchHospitals | index.js:30-137 | a 400 is returned exactly when the query is missing or empty (`MissingQuery`, i.e. `!query`), always with "Query parameter is required", and with no browser and no loop. Otherwise the response is a 500 "Failed to scrape data" exactly when launching, page setup, or a reached probe or scroll of the loop throws, and in every other case a 200. `limit` and `offset` default to 20 and 0 when absent (`OrDefault`). The 200 carries `total_found` equal to the length of the converged list, `data` equal to its slice, `count` at most `limit` and at most `total_found`, and `limit` and `offset` echoed. The browser is closed exactly when it was launched |
| Handler.PageBeyondWindow | index.js:120-126 | an offset at or past the end of the results gives an empty page |
| Handler.NineRecordsFromOffsetEight | index.js:120-126 | with nine records, offset 8 and limit 10, the page is the last record alone |
| Schema.ValidateLead | db/schema.js:42-56 | validation fails, with "Name is required and must be a non-empty string", exactly when the name is not a string that is non-blank after trimming. On success the name is the trimmed input name, which is non-empty and has no white space at either end |
| Schema.DocumentProperties | db/schema.js:47-55 | the validated lead has exactly the properties `name`, `rating`, `address`, `phoneNumber`, `websiteLink`, `createdAt` and `updatedAt` |
| Schema.OptionalFieldsNormalised | db/schema.js:49-52 | each optional property goes through `OrNull`: it is copied unchanged when truthy and becomes `null` otherwise |
| Schema.EmptyStringBecomesNull | db/schema.js:50 | an empty-string address is stored as `null` |
| Schema.OtherPropertiesIgnored | db/schema.js:47-55 | two inputs that agree on `name` and the four optional properties validate to the same result, whatever else they hold |
| Schema.RevalidationIsStable | db/schema.js:48-52 | validating a validated lead again keeps its name and optional properties; only the timestamps change |
| Schema.LeadSchemaTypes | db/schema.js:2-39 | `leadSchema` describes the seven lead properties: `name` a string, the four optional ones string or null, the two timestamps dates |
| Schema.DocumentConforms | db/schema.js:6-27 | a lead whose optional properties are strings or null passes the collection's validator |
| Schema.ConformingDocument | db/schema.js:6-27 | a lead that passes the collection's validator has strings or null in its optional properties |
| Schema.DocumentConformsIff | db/schema.js:6-27 | a stored lead passes the validator exactly when its optional properties are strings or null |
| Schema.ConformsIff | db/schema.js:6-55 | a validated lead passes the validator exactly when each optional input property is a string or falsy; in particular, when each is a string or absent |

## Left out

- `db/connection.js`, the MongoDB connection: environment variables, the client connection and `process.exit` are all I/O.
- Browser start-up, i.e. the production/development switch and `puppeteer.launch`, and page setup, i.e. `newPage`, `setUserAgent` and `goto`. They are reduced to the faults they can raise (`LaunchFault`, `SetupFault`).
- The ten-second wait for the first result. Its timeout is swallowed, so it has no effect on the outcome, and the model proceeds regardless.
- The `scrollBy` calls, the feed-or-window choice and the two-second pause. Together they are one step from one snapshot of the feed to the next.
- DOM and CSS selector semantics, and `innerText`. Each item is given as the strings the probe reads from it, and its anchors are in document order.
- `parseInt` of `limit` and `offset`, and its `NaN` or negative results. Each parameter is either absent, when the defaults 20 and 0 apply, or a natural number, so the negative-index behaviour of `slice` does not arise.
- A `query` given as an array or object (a repeated query parameter). The query is an optional string.
- A `browser.close()` that throws on the success path, which would lead to a second close and a 500. It is not modelled.
- Concurrency between requests, console logging, Express routing, CORS, the JSON middleware, `/health`, and `startServer`/`app.listen`.
- Convergence.Converge: requires a monotone feed bounded by `bound`. The source's loop has no such guard, and `AlternatingFeedNeverStops` shows that on other feeds it need not terminate.
- Handler.SearchHospitals: when the query is present and neither the launch nor the page setup throws (`RunsLoop`), it requires the same monotone, bounded feed, because the loop then runs.
- Schema.ValidateLead: the argument is an object given as a map from property names to values. Calling `validateLead` with `null` or `undefined`, which throws a `TypeError`, is not modelled, nor are inherited properties.
- JavaScript numbers are integers or `NaN`, so fractional numbers and `-0` are not modelled. Dates are integer instants.
- Strings are sequences of Unicode characters; UTF-16 surrogate pairs are not distinguished.
