# Concert creation: a Dafny model of the organiser endpoint's validator

The organiser routes of this ticketing backend expose `POST /concerts`. The
handler takes a JSON concert listing and parses its four date-time strings.
It then runs a fail-fast chain of checks: ticket counts, prices, ordering of
the sale windows, and whether the dates lie in the future. A request that
passes gets a ticket information document stored off-chain, an `ipfs://`
URI for that document, and a "create concert" ledger transaction. The
handler answers with the listing identifier and the content identifier.

The model has four modules:

- `Wrappers` (`wrappers.dfy`): `Option`, which stands for Python's `None`
  and for a parse that raised.
- `Organiser` (`organiser.dfy`): the request record `Concert`, the `try`
  block (`ParseDates`), and the guard chain (`Validate`, `ValidateParsed`).
  The chain's verdict is `Accepted` with the document, `Rejected` with a
  reason that maps to the source's exact `detail` text, or `Crashed`. It
  also holds the document (`TicketInfo`), the URI (`TicketInfoUri`, with
  its inverse `CidOf`) and the handler's reply (`CreateConcert`).
- `OrganiserRules` (`rules.dfy`): a reference reading of the same checks.
  Each rule is an independent entry of a table (`Check`) that gives pass,
  fail or raise. `Decide` runs the rules in `RuleOrder` and stops at the
  first one that does not pass. A lemma proves that the handler's chain is
  exactly this first-failure reading, so the reported error is always the
  first failing rule in source order.
- `OrganiserProperties` (`properties.dfy`): the handler's guarantees,
  stated over the raw request.

Quirks of the source that the model keeps:

- The guard at `python/routes/organiser.py:83` tests the pre-sale end but
  compares the pre-sale start with the clock. Suppose every earlier check
  passes, a pre-sale end is given and the pre-sale start is empty. Then
  Python compares `None` with a `datetime` and raises `TypeError`, so the
  reply is a 500. The model gives this its own verdict, `Crashed`; see
  `CrashIff`.
- The concert start and the general-sale start are parsed even when empty.
  Because of that, the two "is required" checks can never fire; see
  `RequiredChecksNeverFire`.
- The messages say "greater than 0" and "less than", but the checks allow
  equality. A price of 0 and a pre-sale quantity equal to the total pass.
- The code never compares the concert start with the general-sale start. It
  never checks that the pre-sale quantity is non-negative. It never checks
  that the payout percentages sum to 100. A stricter validator would demand
  these orderings and non-negative counts. The model follows the code; see
  `OrderedFutureRequestAccepted`, which accepts without any of them.
- The ticket information is written to `temp/ticket_info_<concert name>.json`
  before the upload. A name the file system refuses (one holding `/`, say)
  makes `open` raise after validation has accepted, and the reply is a 500.
- The transaction receipt's status is never read, so a reverted transaction
  is still answered with status 200, the listing identifier and the content
  identifier. The model gives that reply.

Date-time parsing (`datetime.strptime` with `'%Y-%m-%d %H:%M:%S'`) is a
parameter: a function from a string to a timestamp, or `None` where it
raises `ValueError`. Where a lemma needs the fact that this format rejects
the empty string, the lemma states it as a precondition. The clock is a
parameter `now`. Whether the file system lets `open(path, 'w')` succeed is a
parameter `writable` of the path. The content identifier comes from an `upload` function of
the document, and the listing identifier is the value read from the ledger.
All three are parameters of `CreateConcert`.

## Model

| member | source | states |
|---|---|---|
| `Organiser.ParseDates` | python/routes/organiser.py:56-62 | Parsing fails exactly when the concert start or general-sale start fails to parse, or a non-empty pre-sale string fails to parse. On success both required date-times are present, and an empty pre-sale string leaves its date-time absent. |
| `Organiser.Validate` | python/routes/organiser.py:56-88 | A request is accepted exactly when its date-times parse, its total is positive, its pre-sale quantity is no larger than the total, both prices are non-negative, the pre-sale start is not after the pre-sale end, the pre-sale end is not after the general-sale start, the general-sale and concert starts are not before `now`, and a given pre-sale end comes with a given pre-sale start not before `now`. An accepted request carries its own ticket information document. |
| `Organiser.ValidateParsed` | python/routes/organiser.py:64-88 | On parsed date-times, the same characterisation: accepted exactly when counts and prices are valid, both window orderings hold, and the three future checks pass without raising. |
| `Organiser.MessagesDistinct` | python/routes/organiser.py:62-88 | Two client errors have the same `detail` text exactly when they are the same error, so each check has its own message. |
| `Organiser.TicketInfo` | python/routes/organiser.py:91-98 | The document has exactly the six keys concert name, description, concert start, pre-sale start, pre-sale end and general-sale start. |
| `Organiser.TicketInfoUri` | python/routes/organiser.py:116 | The URI is "ipfs://" followed by the CID, which reads back from it. |
| `Organiser.ListingUri` | python/routes/organiser.py:115-131 | The URI passed to the ledger transaction reads back to the content identifier of the uploaded ticket information document. |
| `Organiser.TicketInfoPath` | python/routes/organiser.py:101 | The temporary file's path starts with "temp/ticket_info_", ends with ".json", and holds the concert name between the two, which reads back from it. |
| `Organiser.CreateConcert` | python/routes/organiser.py:101-153 | The reply is a creation exactly when validation accepts and the temporary file can be written. The creation carries the listing identifier read beforehand and the identifier the store gives the ticket information document, and the transaction's URI names that identifier. A 400 reply occurs exactly on a rejection and carries that rule's message. A 500 reply occurs exactly on the TypeError or on an accepted request whose file cannot be written. |
| `OrganiserRules.DecideAccepts` | python/routes/organiser.py:64-88 | The fail-fast chain accepts, with the document, exactly when every rule in it passes. |
| `OrganiserRules.DecideStopsAtFirst` | python/routes/organiser.py:64-88 | When rule `i` is the first that does not pass, it decides the verdict: a failure rejects with that rule, and a raise crashes. |
| `OrganiserRules.DecideHasFirstStop` | python/routes/organiser.py:64-88 | A chain that does not accept has a first rule that does not pass. |
| `OrganiserRules.DecideStep` | python/routes/organiser.py:64-88 | One step of the chain: a passing rule hands over to the rest, and any other result stops the chain. |
| `OrganiserRules.ValidateFollowsRuleOrder` | python/routes/organiser.py:64-88 | The handler's guard chain equals the first-failure evaluation of the rule table in source order. |
| `OrganiserRules.VerdictIsFirstStop` | python/routes/organiser.py:56-88 | Once parsing succeeds, the request is accepted exactly when every rule passes. Otherwise the verdict is the one of the first rule, in source order, that does not pass. |
| `OrganiserRules.FirstStopDecides` | python/routes/organiser.py:64-88 | The first rule in source order that does not pass decides the verdict, whatever the later rules would say. |
| `OrganiserProperties.MalformedDateRejected` | python/routes/organiser.py:56-62 | The answer is 'Invalid Date Time Format' exactly when a required date-time or a non-empty pre-sale string does not parse, whatever the other fields hold. |
| `OrganiserProperties.EmptyRequiredDateRejected` | python/routes/organiser.py:57-62 | An empty concert start or general-sale start is a format error, because the format rejects the empty string. |
| `OrganiserProperties.EmptyPreSaleIsAbsent` | python/routes/organiser.py:58-59 | After parsing, a pre-sale date-time is absent exactly when its string is empty. |
| `OrganiserProperties.RequiredChecksNeverFire` | python/routes/organiser.py:57-80 | Neither 'General sale start date is required' nor 'Concert start date is required' is ever the verdict or the reply's detail. |
| `OrganiserProperties.TicketCountBoundaries` | python/routes/organiser.py:65-68 | A total of 0 or less is rejected with its own message, exactly then. With a positive total, a pre-sale quantity is rejected exactly when it exceeds the total, so equality passes. |
| `OrganiserProperties.PriceBoundaries` | python/routes/organiser.py:70-73 | Each price is rejected exactly when it is negative, each with its own message. A price of 0 passes. |
| `OrganiserProperties.PreSaleWindowOrdering` | python/routes/organiser.py:75-76 | With valid counts and prices, the window is rejected exactly when both pre-sale ends are given and the start is after the end. Equal timestamps pass. |
| `OrganiserProperties.PreSaleEndOrdering` | python/routes/organiser.py:81-82 | Past the window check, the request is rejected exactly when a pre-sale end is given and lies after the general-sale start. Equal timestamps pass. |
| `OrganiserProperties.CrashIff` | python/routes/organiser.py:83-84 | The handler raises TypeError exactly when every earlier check passes, a pre-sale end is given and the pre-sale start is empty. |
| `OrganiserProperties.PreSaleFutureCheckNeedsEnd` | python/routes/organiser.py:83-84 | Without a pre-sale end, the pre-sale future check never rejects and nothing raises. |
| `OrganiserProperties.PreSaleStartIgnoredWithoutEnd` | python/routes/organiser.py:75-84 | Without a pre-sale end, any parseable or empty pre-sale start gives the same decision, even one in the past. |
| `OrganiserProperties.PreSaleStartFutureCheck` | python/routes/organiser.py:83-84 | With both pre-sale ends given and the earlier checks passing, the request is rejected exactly when the pre-sale start is strictly before `now`. |
| `OrganiserProperties.FutureChecks` | python/routes/organiser.py:85-88 | The general-sale start, then the concert start, is rejected exactly when it is strictly before `now`. A value equal to `now` is accepted, and acceptance is exactly both being at or after `now`. |
| `OrganiserProperties.PastConcertNeverAccepted` | python/routes/organiser.py:87-88 | A concert starting before `now` is never accepted, whatever the other fields hold. |
| `OrganiserProperties.OrderedFutureRequestAccepted` | python/routes/organiser.py:64-88 | A request with valid counts and prices is accepted with its document when now ≤ pre-sale start ≤ pre-sale end ≤ general-sale start and now ≤ concert start. The concert start is not compared with the general sale. |
| `OrganiserProperties.TicketInfoHoldsRequestStrings` | python/routes/organiser.py:91-98 | Each document key holds the request's original string. |
| `OrganiserProperties.TicketInfoIffSameDescription` | python/routes/organiser.py:91-98 | Two requests give the same document exactly when they agree on the six descriptive fields. |
| `OrganiserProperties.TicketInfoOmitsFinancialAndIdentityFields` | python/routes/organiser.py:91-98 | Addresses, payouts, ticket counts, prices and the private key do not affect the document. |
| `OrganiserProperties.TicketInfoUriRoundTrip` | python/routes/organiser.py:115-116 | The URI is "ipfs://" followed by the CID: the CID reads back from it, and a URI reads back to a CID exactly when it is that CID's URI. |
| `OrganiserProperties.TicketInfoUriInjective` | python/routes/organiser.py:116 | Distinct CIDs give distinct URIs. |
| `OrganiserProperties.TicketInfoPathSharedIffSameName` | python/routes/organiser.py:101 | Two requests write the same temporary file exactly when they have the same concert name. |
| `OrganiserProperties.SameDescriptionSameCid` | python/routes/organiser.py:91-105 | Two accepted requests with the same description either both fail the file write or are both created, and then upload the same document and get the same content identifier. |
| `OrganiserProperties.ReplyStatus` | python/routes/organiser.py:61-103 | The status is 200 exactly on acceptance with a writable file, 400 exactly on a rejection, and 500 exactly on the TypeError or a failed file write after acceptance. |

## Left out

- Date-time parsing itself: `strptime`'s acceptance rules are a library's and are a parameter of the model.
- Clock resolution: parsed values have whole seconds and `datetime.now()` has microseconds. The model puts both on one integer timeline.
- Validate: the three `datetime.now()` calls at lines 83, 85 and 87 are one value `now`. A request whose date-time falls between two successive readings of the clock is not modelled.
- The JSON encoding of the temporary file (lines 102-103) and its key order: the document is modelled as a map.
- CreateConcert, ReplyStatus: which paths the file system refuses is the parameter `writable`; the model does not say which names (a `/`, a NUL, an over-long name) make `open` fail. Two concurrent requests with the same concert name share the temporary file, so one may upload the other's document; this race is not modelled, and `cid == upload(TicketInfo(c))` assumes no other request writes the file in between.
- The IPFS upload (line 105) is a function parameter, and its failure is not modelled.
- Reading the listing identifier, building, signing, sending and awaiting the ledger transaction (lines 121-148): these are foreign client calls. The identifier is a parameter. An exception raised by these calls is not modelled. A reverted transaction is modelled: the handler never reads the receipt's status, so the reply is the same as for a mined one.
- The transaction's argument list (lines 123-133) is not modelled. Only the URI it carries is, as `ListingUri`.
- CreateConcert: for the TypeError the reply is `InternalServerError`, whose body the web framework writes. The model does not give that body.
- The collectible endpoints, the concert upload route, the storage client, the health route and application wiring are not part of this model. They are I/O and orchestration around external clients.
- The ledger contracts exercised by the JavaScript tests (market fees, listing states, composable ownership) are not part of this model. Their source is not available.
