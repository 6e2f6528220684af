# Farbarter storefront — a verified model of its core

Farbarter is a peer-to-peer marketplace on Farcaster. Its web storefront does
four things that this project models in Dafny:

- **Listing aggregation.** The home page and the full listing index each load
  the raw listings from the indexer. They look up every seller's profile in one
  bulk request, fetch each listing's metadata document through the IPFS
  gateway, and join the three into one display-ready record per listing
  (`Aggregation`). Each page keeps a two-field load state, the list and a
  `loading` flag (`Loader`). The home grid shows the first three cards and the
  index shows all of them (`ListingsViews`).
- **The single-listing resolver.** It validates the id, reads a positional
  nine-field tuple from the marketplace contract, fetches the metadata and
  builds a record. Otherwise it throws one of a few fixed messages
  (`DetailResolver`). The id check depends on which strings JavaScript's
  `Number` and `BigInt` accept (`NumberSyntax`).
- **Reservation and purchase state.** The listing page stores the resolved
  listing or an error, reserves the listing through the payment-link service,
  and clears the reservation five minutes later (`ListingPage`, with an explicit
  millisecond clock). The purchase control on a listing's detail view picks
  one of three panels and toggles `isLoading` around the purchase callback
  (`ListingAction`). Its one caller, `ListingContainer`, passes no callback,
  so in the shipped app only the no-callback path of `handlePurchase` runs.
- **The frame embed.** Its literal-typed shape and the quote escaping applied
  to its serialised form (`Frames`).

Every network call, contract read and JSON parse is an input value: `Ok(payload)`
or `Err(thrown)`, where `thrown` is an `Error` with a message or any other
value. Decimal rendering, `join` and `split` live in `Text`; the shared
datatypes live in `Common`.

Where the code differs from what its documentation describes, the model
follows the code:

- **Profile lookup without users.** If the lookup fails, or its body has no
  `users`, the whole list load fails. The profiles do not degrade to "no
  profile".
- **Fallback image keeps the profile.** The fallback-image branch still attaches
  the seller profile found by `find`.
- **`"-1"` and `"1.5"` pass the id check.** They are numbers to `Number`, so the
  check lets them through. `"1.5"` then fails inside the `try` and comes back
  wrapped.
- **One payment-link shape.** The payment link is read only from
  `data.url.paymentLink`. A reply without `url` leaves the page reserved with
  no revert timer.
- **Two copies of one pipeline.** The full index duplicates the home page's
  pipeline, so one definition models both.

## Model

| member | source | states |
|---|---|---|
| `Text.DecimalRoundTrip` | src/App.tsx:73 | an integer written in decimal, as a template literal or `join` writes it, reads back as the same integer |
| `Text.DecimalInjective` | src/App.tsx:100 | distinct integers are written as distinct strings |
| `Text.SplitJoin` | src/App.tsx:73 | splitting a join on the separator recovers the parts when there is at least one part and none contains the separator |
| `Text.CommaListRoundTrip` | src/App.tsx:73 | `xs.join(",")` of a non-empty list of integers parses back to exactly that list |
| `Aggregation.Dedup` | src/App.tsx:68 | `[...new Set(xs)]` holds exactly the values of `xs`, each once |
| `Aggregation.DedupFirstOccurrenceOrder` | src/App.tsx:68 | the unique values appear in the order of their first occurrence in the input |
| `Aggregation.DedupCountsOnce` | src/pages/ListingsPage.tsx:63 | every input value occurs exactly once in the unique list and no other value occurs |
| `Aggregation.FindProfile` | src/App.tsx:91 | `find` gives nothing exactly when no profile matches the fid; otherwise a matching profile with no match before it |
| `Aggregation.FallbackImageUrlInjective` | src/App.tsx:100 | the placeholder image URL is a function of the listing id alone, and distinct ids get distinct URLs |
| `Aggregation.Enrich` | src/App.tsx:82-103 | the record keeps every raw field; a readable document supplies `imageUrl` as it is, absent included; a failed fetch or parse, or a `null` document, gives the id-seeded placeholder; the seller is the first matching profile in both branches |
| `Aggregation.EnrichAll` | src/App.tsx:81-105 | one enriched record per raw listing, by index, each built from its own metadata outcome |
| `Aggregation.LoadFailsExactly` | src/App.tsx:55-116 | the load fails exactly when the listings fetch fails, the profile lookup fails, or the lookup's body has no `users` (logging `profilesData.length` throws), whatever the number of listings |
| `Aggregation.LoadEnrichesEachListing` | src/pages/ListingsPage.tsx:75-102 | a successful load keeps the length and order of the raw list; each record keeps its raw fields, takes its image from its own metadata outcome (or the placeholder) and its seller from the first matching profile |
| `Aggregation.MetadataIsolation` | src/App.tsx:83-103 | changing one listing's metadata outcome changes no other listing's record |
| `Aggregation.ProfileQueryReadsBack` | src/App.tsx:72-74 | the bulk-lookup query of a non-empty listing set reads back as the unique seller ids |
| `Aggregation.SellersNamedOnceInOrder` | src/pages/ListingsPage.tsx:63-68 | the ids sent to the lookup name every listing's seller exactly once, name nobody else, and keep first-occurrence order |
| `Aggregation.RequestsInOrder` | src/App.tsx:57-87 | the indexer is requested first, then the lookup for the unique sellers if that settled, then each listing's metadata by index only if the lookup settled with `users`; a body without `users` ends the load after two requests |
| `Aggregation.SharedSellerScenario` | src/App.tsx:81-105 | two listings by one seller, the second's metadata failing: both are kept in order, the first with its document image, the second with `https://picsum.photos/seed/2/400/300`, both with the seller's profile |
| `Aggregation.SharedSellerRequests` | src/App.tsx:57-86 | the same two listings, with a lookup that returns `users`, request the profile lookup `...bulk?fids=10`, naming the seller once, then both metadata documents |
| `Loader.ListingsLoader.constructor` | src/App.tsx:45-46 | a page starts with an empty list and `loading` set |
| `Loader.ListingsLoader.FetchListings` | src/App.tsx:53-117 | the list is replaced by the enriched list only when every step settles and the lookup returns `users`; any failure leaves it as it was, `loading` ends false on every path, and the issued requests are `Requests` |
| `ListingsViews.FirstThree` | src/components/listings/ListingsGrid.tsx:28 | `slice(0, 3)` has length min(3, n) and is a prefix of the input, so these are the first three in indexer order |
| `ListingsViews.HomeView` | src/App.tsx:136-142 | the home page shows a spinner exactly while loading, and then at most three cards: a prefix of the list, all of it when shorter than three |
| `ListingsViews.IndexView` | src/pages/ListingsPage.tsx:126-136 | the index shows a spinner exactly while loading, and then every listing in order |
| `ListingsViews.IndexAfterLoad` | src/pages/ListingsPage.tsx:49-136 | a freshly mounted index shows a spinner, then exactly the enriched list `Load` produces, one card per raw listing in order with its raw fields, or no card when the load failed |
| `ListingsViews.HomeAfterLoad` | src/App.tsx:53-142 | a freshly mounted home page shows a spinner, then the first min(3, n) records of the enriched list `Load` produces (with their image and seller), or no card when the load failed |
| `NumberSyntax.BigIntAcceptedIsNumber` | src/lib/listings.ts:38-47 | every string `BigInt` accepts is also a number to `Number`, so it passes the NaN check |
| `NumberSyntax.DigitsAreInteger` | src/lib/listings.ts:38-47 | a run of decimal digits is a number to `Number` and an integer to `BigInt` |
| `NumberSyntax.NegativeNumeralIsInteger` | src/lib/listings.ts:38 | a minus sign followed by digits is a number and an integer, so it is not NaN |
| `NumberSyntax.FractionSyntax` | src/lib/listings.ts:38 | digits, a point and digits form a decimal literal and never a signed integer |
| `NumberSyntax.FractionIsNumberNotInteger` | src/lib/listings.ts:38-47 | a fractional numeral is a number to `Number` but `BigInt` refuses it |
| `NumberSyntax.BlankIsZero` | src/lib/listings.ts:38 | every string made only of white space (the empty string included) is read as zero by both `Number` and `BigInt`, so it passes the NaN check |
| `NumberSyntax.WordIsNaN` | src/lib/listings.ts:38 | `"abc"` is NaN |
| `DetailResolver.FetchMetadataFromIpfs` | src/lib/listings.ts:82-94 | the payload is returned as received, without validation; any failure becomes "Failed to fetch metadata from IPFS" |
| `DetailResolver.WrapFailure` | src/lib/listings.ts:73-79 | an `Error` is rethrown as "Failed to fetch listing details: " followed by its message, anything else as the bare message; either way the result starts with "Failed to fetch listing details" |
| `DetailResolver.GetListingDetails` | src/lib/listings.ts:35-80 | a failed id check throws "Invalid listing ID" unwrapped before any call; past it every failure carries the wrapper's prefix; the contract is read exactly when `BigInt` accepts the id; past the check and `BigInt`, the calls are exactly the read, then (when the read returns) one metadata fetch with tuple element 4, whether that fetch succeeds or fails; the result is a record exactly when both calls succeed |
| `DetailResolver.PositionalMapping` | src/lib/listings.ts:62-72 | on success each field comes from its tuple position (seller 0, fid 1, price 2, supply 3, active 5, sales 6, token 7, chain 8), and the metadata is the fetched document |
| `DetailResolver.InvalidIdMessageOnlyFromCheck` | src/lib/listings.ts:38-42 | "Invalid listing ID" is reported exactly when the id check fails; no later failure can produce it |
| `DetailResolver.IpfsFailureSurfaces` | src/lib/listings.ts:60-92 | a metadata failure reaches the caller as "Failed to fetch listing details: Failed to fetch metadata from IPFS", with no fallback record, after exactly the read and the metadata fetch with tuple element 4 |
| `DetailResolver.ReachesContract` | src/lib/listings.ts:42-60 | an id that passes the check and that `BigInt` accepts is read from the contract first; a failed read is rethrown wrapped, and metadata is never fetched |
| `DetailResolver.NegativeIdReachesContract` | src/lib/listings.ts:38-47 | a negative integer id such as `"-1"` passes the id check and is accepted by `BigInt` |
| `DetailResolver.FractionFailsInsideTry` | src/lib/listings.ts:38-47 | a fractional id such as `"1.5"` passes the id check; the `BigInt` conversion error is wrapped and nothing is read |
| `DetailResolver.ConversionMessage` | src/lib/listings.ts:47-76 | the wrapped conversion error reads "Failed to fetch listing details: Cannot convert <id> to a BigInt" |
| `DetailResolver.NonNumeralsRefused` | src/lib/listings.ts:38-40 | the empty id and `"abc"` are refused with "Invalid listing ID" and no call |
| `Frames.EscapeQuotes` | metadata.ts:18 | the escaped text holds no `"`; its length is the input's plus five per quote; text without quotes is unchanged |
| `Frames.EscapeAppend` | metadata.ts:18 | escaping works character by character: it distributes over concatenation |
| `Frames.UnescapeEscape` | metadata.ts:18 | decoding the entity recovers the serialised text, provided that text never contained `&quot;` itself |
| `Frames.EscapeNotInjective` | metadata.ts:18 | without that proviso the round trip fails: a quote and the entity text escape to the same string |
| `Frames.WriteMetadata` | metadata.ts:16-23 | a serialisation failure is logged and never propagated; otherwise the logged text is the escaped serialisation, free of `"` |
| `Frames.SiteFrameWellTyped` | metadata.ts:25-39 | the site-wide embed has version "next" and action type "launch_frame", with both image URLs present |
| `ListingAction.ActionFor` | src/components/listings/ListingAction.tsx:33-60 | an inactive listing shows the "no longer active" notice whatever its supply; an active one with supply 0 shows "SOLD OUT"; otherwise the buy button is shown, disabled and labelled "PROCESSING..." exactly when loading, else "BUY NOW" |
| `ListingAction.LoadingOnlyTouchesButton` | src/components/listings/ListingAction.tsx:41-60 | the loading flag never changes which panel is shown; it changes the panel's value exactly when the buy button is shown |
| `ListingAction.PurchaseButton.constructor` | src/components/listings/ListingAction.tsx:17 | the control mounts with `isLoading` false |
| `ListingAction.PurchaseButton.View` | src/components/listings/ListingAction.tsx:47-59 | the button is disabled exactly while `isLoading` |
| `ListingAction.PurchaseButton.BeginPurchase` | src/components/listings/ListingAction.tsx:19-25 | without a callback nothing changes; with one, `isLoading` is raised and the callback runs |
| `ListingAction.PurchaseButton.SettlePurchase` | src/components/listings/ListingAction.tsx:26-30 | whether the callback resolves or throws, the error is swallowed and `isLoading` is lowered |
| `ListingAction.ClickBuy` | src/components/listings/ListingAction.tsx:17-60 | one click on an available listing with a callback shows a disabled "PROCESSING..." button while it runs and "BUY NOW" afterwards; otherwise the panel never changes |
| `ListingPage.ErrorText` | src/pages/ListingPage.tsx:20-23 | an `Error` is stored as its message, anything else as "Failed to fetch listing" |
| `ListingPage.EmbedFor` | src/pages/ListingPage.tsx:34-47 | the embed has version "next", title "Buy for <price> USDC", URL origin + "/listings/" + id + "/buy", and both image URLs equal to the metadata's `imageUrl` |
| `ListingPage.EmbedWellTypedIffImage` | src/pages/ListingPage.tsx:34-47 | the embed has the declared frame type exactly when the metadata carries an image URL |
| `ListingPage.EmbedUrlNamesListing` | src/pages/ListingPage.tsx:42 | under one origin, distinct ids give distinct launch URLs |
| `ListingPage.ActionOf` | src/pages/ListingPage.tsx:138-172 | inactive shows "Listing Not Available" whatever the reservation; active and reserved shows the pay link, whose target is the stored link or the empty string when there is none; active and unreserved shows Buy/Back |
| `ListingPage.AnyDue` | src/pages/ListingPage.tsx:59-61 | some revert timer fires exactly when some deadline has been reached |
| `ListingPage.Pending` | src/pages/ListingPage.tsx:59-61 | the timers left are exactly those whose deadline lies ahead |
| `ListingPage.ListingPage.constructor` | src/pages/ListingPage.tsx:8-12 | a mounted page has no listing, no error, no reservation and no payment link |
| `ListingPage.ListingPage.FetchListing` | src/pages/ListingPage.tsx:14-28 | a missing or empty id stores "No listing ID provided" and calls nothing; otherwise the resolver's record, or its error message, is stored; reservation state is untouched |
| `ListingPage.ListingPage.BuyListing` | src/pages/ListingPage.tsx:49-65 | a failed request changes nothing; a reply reserves the listing; a reply with `url` stores its `paymentLink` and schedules a revert 300000 ms later; a reply without `url` schedules none; the listing and error are untouched |
| `ListingPage.ListingPage.Tick` | src/pages/ListingPage.tsx:59-61 | advancing the clock fires every due revert timer, clearing the reservation; the payment link is never cleared |
| `ListingPage.ListingPage.View` | src/pages/ListingPage.tsx:30-172 | a non-empty error is shown first; then "Loading..." while there is no listing; then the details, with the embed and the action area; a `null` metadata document makes the render throw |
| `ListingPage.OpenWithoutId` | src/pages/ListingPage.tsx:14-31 | a page without an id shows "Loading...", calls nothing, and then shows "No listing ID provided" |
| `ListingPage.OpenListing` | src/pages/ListingPage.tsx:14-31 | a page with an id shows "Loading..." and then the resolver's error exactly when it fails, or the details with Buy/Back (active) or "not available" (inactive) |
| `ListingPage.ReservationWindow` | src/pages/ListingPage.tsx:49-61 | on a loaded, active listing, after a successful reservation the page shows the pay link for exactly 300000 ms and Buy/Back from then on, and the link stays stored afterwards |
| `ListingPage.ReplyWithoutUrl` | src/pages/ListingPage.tsx:57-61 | a reply without `url` leaves an active listing reserved for good, with a pay link whose target is empty |

## Left out

- Network, contract and storage I/O (`fetch`, `axios`, the viem client and the contract ABI) are outcome inputs, not calls.
- `Promise.all` concurrency is modelled by index. Request order within the metadata phase is by listing index; their interleaving is not modelled.
- `console.log`/`console.error`, `alert("Purchase")` and the `Helmet` meta tags (including `JSON.stringify` of the embed) are output only and are not modelled. Their arguments are still evaluated: reading `profilesData.length` on a lookup body without `users` throws, and `Load` fails on it.
- `Aggregation.ProfilesReply` has two cases, `users` present as an array or absent. A `users` field that is some other value (say `{}`) is not modelled.
- `DetailResolver.GetListingDetails`: the price is an abstract `formatPrice(tuple.2)`, not viem's `formatUnits(·, 6)`, which is a foreign library.
- `DetailResolver.GetListingDetails`: the integers converted by `Number(bigint)` are kept exact. Precision loss above 2^53 is not modelled.
- `Text.Decimal` writes every integer in plain decimal digits. JavaScript switches to exponent notation from 10^21 on, and ids or fids that large are not modelled.
- `NumberSyntax` models which strings `Number` and `BigInt` accept, not the values they read.
- `DetailResolver.BigIntSyntaxError` uses the V8 engine's message wording. Other engines word it differently.
- `Frames.WriteMetadata` takes the outcome of `JSON.stringify` as its input. The serialiser itself is not modelled.
- Real timers are replaced by an explicit clock and `Tick`. A timer that fires after the page unmounts is not modelled.
- React rendering details are not modelled: batching of state updates, re-running the effect when the route id changes, and strict-mode double effects. A page's route id is fixed at mount.
- The purely presentational components are not part of this model: `ListingCard` (with its float price formatting), `ListingStats`, `ListingHeader`, `ListingImage` and `ListingContainer`. The routes in `src/main.tsx` are left out too.
- The listing metadata's other properties (name, description, location, supply, online flag) are only displayed and are not modelled.
