# Spacio storage marketplace — a Dafny model of the core

Spacio is a peer-to-peer storage marketplace. Hosts list spare space in three size
buckets (S, M, L). Renters search the listings and request a reservation. The host
approves or declines it. The two sides exchange messages about the reservation. Hosts
verify their identity through an identity provider. The backend is a FastAPI service
over a MongoDB store. The web client is a React application.

This project models the backend's request handlers, its two rule-based services and the
few rules the web client computes itself:

- **Schemas** — the wire enums `StorageSize` and `ReservationStatus`, the request
  schemas with their defaults, and the stored documents. Also the public views of users
  and reservations.
- **Auth** — registration, login and `me`.
- **Listings** — creating a listing, searching with filters and the zip-then-rating
  sort, and lookup by id.
- **Reservations** — the fee formula, creating a reservation, host approve and decline,
  and the "my reservations" list.
- **Messages** — the participant check, sending, and the oldest-first message list.
- **Verification** — session creation, status polling and the provider webhook.
- **Pricing** — the price suggestion: base by size, demand by zip code, indoor premium,
  random variation, the min/max band and the explanation text.
- **Matching** — the recommender: the size estimate from a free-text query, the target
  bucket, additive scores, and the top five.
- **Client** — the booking summary the listing modal shows, when the Reserve button is
  enabled, image-URL parsing, the route guard, and filter updates.

Supporting modules:

- `Wrappers` defines `Option`, `Result` and `ApiError(status, detail)`. An `HTTPException`
  is an `Err(ApiError(..))`.
- `Seqs` holds first-match search, filter, `take`, and permutations of positions.
- `Text` holds ASCII case mapping, substring search, split/join, JavaScript `trim` and
  digit runs.
- `Money` holds rounding to cents.
- `Ranking` is the one stable sort behind every ordering in the system. Matching sorts
  by score, highest first. Listings sort by zip match, then rating. Messages sort by
  creation time.

Modelling conventions:

- Each MongoDB collection is a sequence in store order. `find_one` is the first match.
  `to_list(length=n)` is the first `n` matches.
- A handler that writes returns the new store together with its response.
- Money is a `real`. Calendar dates are day numbers, and datetimes are whole seconds.
- Whatever the code draws from outside is a parameter: the clock (`now`), fresh ids,
  the password hash and check, the identity provider's answers, the pricing jitter, and
  the browser's date parser (`toMs`).
- The authenticated caller is the `User` document the auth dependency loaded. For the
  verification handlers, `IsStored` states that it is the stored document of its id.

The client's types declare reservation fields the backend never fills: `sqftRequested`
and `insurance` (web/src/types.ts:24-38), and the request's `addInsurance` flag
(web/src/api/reservations.ts:4-10). No handler reads or computes them. The reservation
price is the monthly price prorated over a 30-day month, plus a service fee and a flat
deposit.

## Model

| member | source | states |
|---|---|---|
| Schemas.ParseStorageSize | api/app/models/schemas.py:8-11 | only "S", "M" and "L" parse, each to the bucket whose wire value it is |
| Schemas.StorageSizeRoundTrip | api/app/models/schemas.py:8-11 | parsing a bucket's wire value gives the bucket back |
| Schemas.ParseReservationStatus | api/app/models/schemas.py:14-18 | exactly the four status strings parse, each to the status whose wire value it is |
| Schemas.ReservationStatusRoundTrip | api/app/models/schemas.py:14-18 | parsing a status's wire value gives the status back |
| Schemas.UserCreateWithDefaults | api/app/models/schemas.py:21-28 | an omitted isHost, phone or backgroundCheckAccepted defaults to false, none and false |
| Schemas.ToUserPublic | api/app/models/schemas.py:31-39 | the public view carries the stored user's id, name, email, zip code, host flag, phone, creation time and verification status |
| Schemas.PublicUserOmitsSecrets | api/app/models/schemas.py:31-39 | the password hash, the background-check flag and the identity session id never affect the public view |
| Schemas.TokenResponseWithDefaults | api/app/models/schemas.py:45-47 | the token type defaults to "bearer" |
| Schemas.ListingCreateWithDefaults | api/app/models/schemas.py:50-59 | the given title, description, size, price, address summary and zip code are kept; images default to none, availability to true, and the rating to none |
| Schemas.ToReservationPublic | api/app/models/schemas.py:81-92 | the public view copies the id, listing, renter, dates, status, total price, service fee, deposit, hold expiry and creation time of the stored reservation |
| Schemas.PublicReservationOmitsBasePrice | api/app/models/schemas.py:81-92 | the public view does not depend on the stored base price or payment status |
| Auth.Register | api/app/routers/auth.py:16-37 | 400 "Email already registered" exactly when the email is taken; otherwise one document is appended with the payload's fields and the hashed password, marked "verified-mock" exactly when the background check was accepted and "pending" otherwise |
| Auth.RegisterKeepsEmailsUnique | api/app/routers/auth.py:18-20 | registering keeps emails unique across the user store |
| Auth.Login | api/app/routers/auth.py:40-49 | a token exactly when the email is found and the password checks against its hash; the token names that user's id; otherwise 400 "Incorrect email or password" |
| Auth.LoginFailuresLookAlike | api/app/routers/auth.py:45-47 | an unknown email and a wrong password give the same response |
| Auth.Me | api/app/routers/auth.py:55-57 | `me` returns the caller's own id, name, email, zip code, host flag, phone, creation time and verification status |
| Auth.RegisterThenMe | api/app/routers/auth.py:34-37 | `me` for a new account returns what registration returned |
| Auth.RegisterThenLogin | api/app/routers/auth.py:40-49 | logging in right after registering issues a token for the new account |
| Listings.CreateListing | api/app/routers/listings.py:16-35 | 403 "Only hosts can create listings" exactly when the caller is not a host; otherwise the appended document carries the payload, the caller as host, and the given rating, or 4.7 when the rating is missing or zero |
| Listings.CreatedListingIsRated | api/app/routers/listings.py:31 | a host's new listing always has a non-zero rating |
| Listings.ListingOrder | api/app/routers/listings.py:62-68 | a permutation of the page under which zip matches come first, then higher ratings, then store order |
| Listings.StoreMatches | api/app/routers/listings.py:46-60 | the store's answer to the search filters keeps store order and holds each matching listing exactly as often as it is stored, and nothing else |
| Listings.ListListings | api/app/routers/listings.py:38-69 | 422 exactly when a price bound is negative; otherwise a reordering of the first 100 stored matches: store order without a zip code; with one, ratings non-increasing and listings with equal ratings in store order |
| Listings.GetListing | api/app/routers/listings.py:72-79 | 404 "Listing not found" exactly when no listing has the id; otherwise the first listing with that id |
| Reservations.CalculateCosts | api/app/routers/reservations.py:16-22 | base equals the monthly price times the days over 30, with a zero-day stay counted as one day; the fee is the base times the rate rounded to cents; the deposit is the setting; the total is the rounded sum |
| Reservations.BaseNonDecreasingInDays | api/app/routers/reservations.py:17-18 | a longer stay never lowers the base price |
| Reservations.TotalCoversDeposit | api/app/routers/reservations.py:19-21 | for a stay whose end is after its start, with a non-negative price and fee rate, the total is at least the deposit rounded to cents |
| Reservations.DefaultCosts | api/app/core/config.py:15-16 | under the default settings the deposit is $50, the fee is 10% of the base, and the total is at least $50 |
| Reservations.CreateReservation | api/app/routers/reservations.py:25-63 | 404 exactly when the listing is missing; 400 exactly when it exists and the end is not after the start; otherwise one appended reservation pending host confirmation, held for 24 hours, priced by the fee formula on the listing's price |
| Reservations.SetStatusAsHost | api/app/routers/reservations.py:66-85 | 404 exactly when the reservation is missing; 403 exactly when its listing is missing or hosted by someone else; otherwise only that reservation's status changes |
| Reservations.ApproveReservation | api/app/routers/reservations.py:66-85 | succeeds exactly for the host of the reservation's listing, and leaves it confirmed |
| Reservations.DeclineReservation | api/app/routers/reservations.py:88-107 | succeeds exactly for the host of the reservation's listing, and leaves it declined |
| Reservations.HostListingIds | api/app/routers/reservations.py:117-122 | every id belongs to a listing the user hosts; none for a non-host; all of them when there are at most 200 listings |
| Reservations.VisibleReservations | api/app/routers/reservations.py:115-125 | at most 200 stored reservations, in store order and none more often than stored, each rented by the user or on a listing they host; all such reservations when both stores hold at most 200 |
| Reservations.VisibleReservationsExact | api/app/routers/reservations.py:115-125 | when both stores hold at most 200, every stored reservation the user rented, or whose listing they host, appears exactly as often as it is stored, and no other reservation appears |
| Reservations.RenterSeesOwnReservations | api/app/routers/reservations.py:115 | a non-host sees only, and (under the cap) all, their own reservations |
| Reservations.ListMyReservations | api/app/routers/reservations.py:110-126 | exactly the visible reservations, in store order, each as its public view; each one rented by the user or on a listing they host |
| Messages.AssertParticipant | api/app/routers/messages.py:15-27 | 404 "Reservation not found", then 404 "Listing not found", then 403 "Not part of this reservation"; passes exactly for the renter or the host of the listing |
| Messages.RenterIsParticipant | api/app/routers/messages.py:24 | the renter always passes once the reservation and its listing exist |
| Messages.SendMessage | api/app/routers/messages.py:30-50 | succeeds exactly when the participant check does, with the same error otherwise; appends the message with the caller as sender |
| Messages.ByTime | api/app/routers/messages.py:62 | a permutation of the messages with creation times non-decreasing |
| Messages.ListMessages | api/app/routers/messages.py:53-63 | the participant check's outcome; otherwise min(500, n) of the reservation's n messages, none more often than stored, oldest first; all of them when n is at most 500, and none left out is older than one returned |
| Messages.SentMessageIsListed | api/app/routers/messages.py:30-63 | a message sent by a participant is listed afterwards while the reservation holds fewer than 500 messages |
| Verification.UpdateUser | api/app/routers/verification.py:23-26 | an update by id changes only the first user with that id, and nothing when there is none |
| Verification.UpdateKeepsLookups | api/app/routers/verification.py:88-92 | an update that keeps ids keeps every lookup by id |
| Verification.CreateSession | api/app/routers/verification.py:14-61 | 400 "Already verified" exactly when the status is "verified", with nothing written; otherwise the caller becomes a host, then the session id and a pending status are recorded on success, or a 500 is returned with the promotion kept on failure |
| Verification.FailedCreationKeepsPromotion | api/app/routers/verification.py:22-26 | a failed session creation still leaves a former non-host promoted |
| Verification.SessionToLocal | api/app/routers/verification.py:80-86 | "verified", "processing" and "canceled" map to "verified", "processing" and "cancelled"; every other status maps to "pending" |
| Verification.GetStatus | api/app/routers/verification.py:64-105 | without a session, the stored status and nothing written; on a provider failure, the stored status reported unverified and nothing written; otherwise the mapped status is reported and stored, with a write only when it differs |
| Verification.GetStatusSettles | api/app/routers/verification.py:88-92 | a second poll with the same provider answer writes nothing and reports the same |
| Verification.Webhook | api/app/routers/verification.py:108-143 | 400 "Invalid payload" exactly for an unparsable body; a verified or requires_input event naming a stored user sets only that user's status, and every other field and user stays; an unknown user, a missing user id or any other event changes nothing |
| Verification.WebhookAndPollingDisagree | api/app/routers/verification.py:82 | the webhook stores "requires_input" where polling would store "pending" |
| Pricing.BasePrice | api/app/services/pricing.py:7-16 | 60 for "S", 100 for "M", 140 for "L", and 100 for any other size |
| Pricing.BasePriceGrowsWithSize | api/app/services/pricing.py:7 | a larger bucket never has a smaller base price |
| Pricing.DemandFactor | api/app/services/pricing.py:19-25 | 1.1 for high-demand zip codes, 0.9 for low-demand ones, 1.0 otherwise |
| Pricing.DeterministicPrice | api/app/services/pricing.py:15-31 | the base for the size (60, 100 or 140, and 100 for an unknown size) times the demand factor (1.1 for 95112 and 95126, 0.9 for 95127 and 95128, 1.0 otherwise), plus $15 for an explicit indoor flag; hence between $54 and $169 |
| Pricing.Factors | api/app/services/pricing.py:17-29 | one note per rule that fires, each present exactly when its rule fires, the demand note before the indoor one |
| Pricing.NoAdjustmentsIff | api/app/services/pricing.py:39 | the factor text is "no adjustments" exactly when no rule fires |
| Pricing.ExplanationMentions | api/app/services/pricing.py:40-43 | the explanation names the area (or "your area") and the factor text |
| Pricing.IndoorAddsPremium | api/app/services/pricing.py:27-31 | the indoor premium adds exactly $15, and a missing flag prices like false |
| Pricing.DemandOrdersPrices | api/app/services/pricing.py:19-31 | a high-demand zip prices above a neutral one, which prices above a low-demand one |
| Pricing.JitterWithinBand | api/app/services/pricing.py:33-37 | a jitter in [0.95, 1.05] keeps the varied price within 90% and 120% of the deterministic one |
| Pricing.SuggestPrice | api/app/services/pricing.py:10-44 | the suggestion is the deterministic price for the upper-cased size times the jitter, and the band is that price times 0.9 and 1.2, each rounded to cents; min ≤ suggested ≤ max, within $48.60 and $202.80; the explanation is the one for the upper-cased size |
| Pricing.PricingSuggest | api/app/routers/pricing.py:26-40 | the handler answers with the service's suggestion for the request's size, ZIP code and indoor flag, priced from a base of 60, 100 or 140 by size |
| Matching.MaxMatchedHint | api/app/services/matching.py:24-26 | the estimate is at least every matching hint and equals the start value or one of them |
| Matching.ItemsSqft | api/app/services/matching.py:28-32 | 8 sq ft per item of the largest number in the query, capped at 200 |
| Matching.EstimateSqft | api/app/services/matching.py:21-33 | the estimate lies between 80 and 200, is at least every matching hint and the numeric estimate, and equals one of them or 80 |
| Matching.BucketFromSqft | api/app/services/matching.py:36-41 | S up to 60 sq ft, M up to 150, L above |
| Matching.BucketMonotone | api/app/services/matching.py:36-41 | a larger area never lands in a smaller bucket |
| Matching.TargetNeverSmall | api/app/services/matching.py:21-41 | no query targets the S bucket |
| Matching.Keywords | api/app/services/matching.py:74 | the hint words, in their fixed order and each once, that occur in the lower-cased query |
| Matching.SizePoints | api/app/services/matching.py:48-52 | 2 for the target bucket, 1 for a neighbouring bucket, 0 otherwise |
| Matching.ZipPoints | api/app/services/matching.py:54-55 | 2 exactly when a non-empty target zip equals the listing's zip, else 0 |
| Matching.KeywordPoints | api/app/services/matching.py:57-60 | half a point per keyword the text contains; 0 exactly when none is found, the maximum exactly when all are |
| Matching.PricePoints | api/app/services/matching.py:62-64 | positive exactly for a positive price, and then 50 divided by the price |
| Matching.CheaperEarnsMore | api/app/services/matching.py:62-64 | a cheaper listing earns at least as many price points |
| Matching.ScoreListing | api/app/services/matching.py:44-66 | the score is the sum of 2 for the target bucket or 1 for a neighbouring one, 2 for a matching non-empty zip, half a point per keyword found in the lower-cased description and title, and 50 divided by a positive price; so it lies between the price points and 4 plus half a point per keyword plus the price points, and is at least 4 for a same-size, same-zip listing |
| Matching.CheaperListingScoresHigher | api/app/services/matching.py:44-66 | of two listings that differ only in price, the cheaper scores at least as high |
| Matching.TopOrder | api/app/services/matching.py:81-82 | at most five distinct positions, highest score first with input order on ties; every listing left out scores lower than each returned one, or equal and later in the input |
| Matching.MatchListings | api/app/services/matching.py:69-89 | the target bucket of the estimate (never S), the keywords, and the listings at the top positions |
| Matching.MatchListingsExplained | api/app/services/matching.py:84-88 | the explanation is the one built from the result's own bucket and keywords and the given ZIP code |
| Matching.MatchExplanationMentions | api/app/services/matching.py:84-88 | the explanation names the bucket, the ZIP code when a non-empty one is given, and the keywords joined by commas or "your described items" when there are none |
| Matching.HintWordsDistinct | api/app/services/matching.py:6-18 | the hint words are pairwise distinct, as the keys of a dictionary are |
| Matching.MatchIsOrderedByScore | api/app/services/matching.py:81-82 | returned listings come highest score first, input order breaking ties |
| Matching.MatchIsTopFive | api/app/services/matching.py:81-82 | a listing left out scores lower than each returned one, or equal and later in the input |
| Ranking.SortedIndices | api/app/services/matching.py:81 | the stable sort gives a permutation of positions in key order |
| Ranking.TopIndices | api/app/services/matching.py:81-82 | the first n positions of the stable sort: highest score first, input order on ties, and every position left out scores lower, or equal and later |
| Client.QuoteDays | web/src/App.tsx:309-312 | whole days rounded up, at least one |
| Client.QuoteCosts | web/src/App.tsx:305-324 | no quote while a date is empty; otherwise base and fee are each rounded, the deposit is $50, and the total is the unrounded sum rounded once |
| Client.ReserveEnabledIffQuoted | web/src/App.tsx:404 | the Reserve button is enabled exactly when a quote is shown and no request is pending |
| Client.InvertedRangeQuotedAsOneDay | web/src/App.tsx:309-312 | an inverted or empty range is not blocked and is quoted as one day |
| Client.QuoteAgreesWithServerOnDays | web/src/App.tsx:309-312 | for midnight dates with the end after the start, the browser counts the server's days |
| Client.QuoteBaseIsRoundedServerBase | web/src/App.tsx:313-322 | when the day counts agree, the browser's base is the server's base rounded to cents |
| Client.DisplayedTotalCanDiffer | web/src/App.tsx:313-322 | at $31.335 a month for one day, the browser shows a total of $51.15 while its parts and the server's total come to $51.14 |
| Client.ParseImages | web/src/App.tsx:607-610 | at most one URL more than there are commas; each URL is non-empty, trimmed and comma-free |
| Client.ParseImagesFromPieces | web/src/App.tsx:607-610 | every URL is the trimmed form of a piece between commas, and every piece not blank after trimming is kept |
| Client.ParseImagesSingle | web/src/App.tsx:607-610 | a text without commas gives its trimmed self, or nothing when that is blank |
| Client.ParseImagesConcat | web/src/App.tsx:607-610 | the URLs of a text are those of its first piece followed by those of the rest, so order and repeats are kept |
| Client.ParseImagesOfJoin | web/src/App.tsx:607-610 | trimmed, non-empty, comma-free URLs joined with commas parse back to themselves |
| Client.RequireAuth | web/src/App.tsx:571-576 | children exactly for a signed-in user allowed on the page; /login for a visitor; / for a non-host on a host page |
| Client.HandleFilterChange | web/src/App.tsx:61-66 | only the changed key is set, and an empty value clears it |

## Left out

- MongoDB I/O, the async drivers and the store's own ordering are not modelled. A store
  is a sequence, and an unsorted query returns it in sequence order. `sort("createdAt")`
  breaks ties in store order.
- The identity provider is not modelled: session creation and retrieval, the metadata,
  document options and return URL. Its answers are parameters. The webhook's signature
  header is read but never checked by the code, and the model does not check it either.
- Password hashing and checking (passlib) and token creation and decoding (JWT) are not
  modelled, because they are library calls. `hash` and `verify` are parameters. The
  caller `get_current_user` would load (api/app/deps/auth.py:13-27) is an input, so its
  401 paths are not modelled.
- Email syntax checking (`EmailStr`) and FastAPI's request validation are not modelled.
  The one validation with a business rule, the non-negative price bounds of the listing
  search, is modelled as a 422. FastAPI's exact 422 body is not reproduced.
- Floating point is not modelled. Money is exact; Python's `round` (ties to even on
  binary doubles) and JavaScript's `toFixed` are modelled as round-half-up to cents.
- JavaScript `Date` parsing, time zones and `NaN` dates are not modelled. `toMs` stands
  for `new Date(s).getTime()`.
- Only ASCII case mapping is modelled for `lower()`/`upper()`/`toLowerCase()`, and only
  ASCII digits for the `\d+` number extraction.
- Pricing.BaseText: Python's float formatting is modelled only for the three base prices
  the code can reach.
- The random draw of the pricing jitter is not modelled; the jitter is a parameter in
  [0.95, 1.05].
- Capacity and insurance pricing is not modelled, because the code computes neither.
  The client's `sqftRequested`, `insurance` and `addInsurance` fields are declared in
  web/src/types.ts and web/src/api/reservations.ts and never filled.
- The seeding script (api/seed.py) and the client's auth hook (web/src/hooks/useAuth.tsx)
  are not modelled: they are data loading and token storage.
- Rendering, alerts and query invalidation in the web client are not modelled.
- The application wiring in api/main.py is not modelled. It mounts only some of the
  routers, and the settings it loads lack the identity provider's key and the front-end
  URL. The handlers are modelled as written, whether or not they are mounted.
- Verification.Webhook: a parsable body that lacks the event type or the session's
  metadata makes the code raise a 500 (api/app/routers/verification.py:123-125). The
  model's event always has those parts, so that 500 is not represented.
- Pricing.PricingSuggest: the handler's 400 "size is required" is not modelled. Request
  validation already restricts the size to the three buckets, so that branch is
  unreachable.
- Reservations.VisibleReservations: completeness is stated only when both stores hold at
  most 200 documents. Beyond that it states only that the result keeps store order and
  holds nothing more often than the store; which 200 are returned is not stated.
- Reservations.HostListingIds: completeness is stated only for at most 200 listings, for
  the same reason.
- Client.QuoteAgreesWithServerOnDays: relates only the day counts, and only for dates at
  midnight; the client and the server can disagree on the total by a cent
  (Client.DisplayedTotalCanDiffer).
- Messages.ListMessages: the message list is complete only when the reservation holds at
  most 500 messages. Beyond that, it states that no message left out is older than one
  returned.
