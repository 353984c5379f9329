# SkinScrapper valuation core, modelled in Dafny

SkinScrapper values a Counter-Strike inventory. Given a Steam profile reference (a 17-digit
SteamID64, a profile URL, a vanity URL or a bare vanity name), it resolves the SteamID64 and
fetches the public inventory. Items are collated by market name, and every distinct name gets a
price matrix across four venues: Skinport, CSFloat, the Steam Community Market and a Buff
placeholder. Each quote is netted of the venue's fees. The matrix names the best venue by net ask
and carries a liquidity score with a time-to-sell band. The HTTP handler answers with the rows
ranked by best net ask and a total rounded to cents.

The project models three files:

- `lib/pricing.ts`: the venue adapters, price-text parsing, EUR conversion, fee application,
  liquidity scoring, the price matrix and the batch builder.
- `lib/steam.ts`: SteamID resolution and the inventory join.
- `app/api/inventory/route.ts`: the `GET` handler.

Every network answer is an input value: what a venue's endpoint returned, already decoded into a
small datatype whose variants are its outcomes (failed, schema mismatch, catalogue, listings).
URL parsing and the keyed vanity lookup are parameters that are functions. API keys are
`Option<string>` parameters, and a key counts as configured when it is present and non-empty.

Modules, one per concern:

| module | file | models |
|---|---|---|
| `Common` | common.dfy | `Option`, `Math.round`, rounding to cents, `toFixed(2)`, decimal digits |
| `Sorting` | sorting.dfy | the stable descending sort used for the best venue and the response rows |
| `NumberText` | number_text.dfy | `parseNumberString` and JavaScript's `Number` on the text it leaves |
| `Quotes` | quotes.dfy | `Venue`, `VenueQuote`, `VenueNet`, `FeeModel`, `PriceMatrix` |
| `Adapters` | adapters.dfy | the four venue adapters and `eurToUsd` |
| `Fees` | fees.dfy | `applyFees` |
| `Liquidity` | liquidity.dfy | `computeLiquidity` |
| `Matrix` | matrix.dfy | `buildPriceMatrix` and its best-venue choice |
| `Batch` | batch.dfy | `buildMatrices` (a method draining the name queue into a map) |
| `SteamId` | steam_id.dfy | `resolveToSteamId64`, `resolveVanity`, trimming and the two path patterns |
| `Inventory` | inventory.dfy | `fetchInventory` (a method building the description map, then the items) |
| `InventoryRoute` | route.dfy | the `GET` handler: the collation loop, the fee model, the totals loop and the ranking |

Where the code works by updating state in a loop, the model does too, with a method and loop
invariants. This covers the description map, the collation, the running total and the name
queue. Each such method is proved against a specification function, and the properties are
proved about that function.

Numbers are exact reals. JavaScript's `Number.isFinite` check is modelled as rejecting NaN
(`None`). Overflow to infinity is not modelled (see "Left out").

Where the code behaves in a way a reader might not expect, the model follows the code:

- A matrix whose four venues all failed scores 0, so its time-to-sell band is 7 to 15.4 days
  (`Matrix.AllVenuesFailed`). It is not the fastest band.
- `parseNumberString` maps non-empty text with no digit, dot or comma (such as "N/A") to 0, not
  null. Stripping leaves the empty string, and `Number("")` is 0
  (`NumberText.NonNumericTextIsZero`).
- `parseNumberString` removes every comma, so a decimal-comma price such as "12,05€" reads as a
  hundred times its value (`NumberText.DecimalCommaPrice`).
- The handler tests the resolved id for truthiness, so an empty id from the keyed lookup is
  answered with 400, like an unresolved one.
- The Skinport `currency` field is parsed but ignored. Amounts are always converted from EUR at 1.08.
- CSFloat listings are not checked against the requested name. Every listing returned counts.

## Model

| member | source | states |
|---|---|---|
| Common.Round | steam-inventory-valuation-skinport-csfloat/lib/pricing.ts:181 | `Math.round(x)` is the integer nearest `x`, halves rounding up: within half of `x`, above `x − 0.5` |
| Common.RoundCents | app/api/inventory/route.ts:53 | `Math.round(x*100)/100` lies within half a cent of `x` and is a whole number of cents |
| Common.ToFixed2 | steam-inventory-valuation-skinport-csfloat/lib/pricing.ts:184 | `Number(x.toFixed(2))` is within half a cent of `x`, whole cents, and non-negative for non-negative `x` |
| Common.RoundCentsMonotone | app/api/inventory/route.ts:53 | rounding the total to cents preserves order |
| Common.RoundCentsOfCents | app/api/inventory/route.ts:53 | an amount already in whole cents is left unchanged by the rounding |
| NumberText.Retain | steam-inventory-valuation-skinport-csfloat/lib/pricing.ts:57 | the regex replace keeps only characters of the class, each taken from the input, never lengthening it; `RetainAppend`, `RetainAll` and `RetainNone` state that it keeps every character of the class, in order, and drops the rest |
| NumberText.RetainAppend | steam-inventory-valuation-skinport-csfloat/lib/pricing.ts:57 | stripping distributes over concatenation |
| NumberText.JsNumber | steam-inventory-valuation-skinport-csfloat/lib/pricing.ts:57-58 | `Number` on digits and dots is NaN (None) exactly for a second dot or a dot alone; without a dot it is the digits' value; any value is non-negative |
| NumberText.NumberOfPrice | steam-inventory-valuation-skinport-csfloat/lib/pricing.ts:57-58 | `Number` reads "d.cc" as d + cc/100 |
| NumberText.ParseNumberString | steam-inventory-valuation-skinport-csfloat/lib/pricing.ts:55-59 | absent or empty text is null; other text is null exactly when its digits and dots are NaN for `Number`; without a dot it is the value of its digits; any number is non-negative |
| NumberText.Stripped | steam-inventory-valuation-skinport-csfloat/lib/pricing.ts:57 | the two replaces leave only digits and dots |
| NumberText.MalformedNumbersAreNull | steam-inventory-valuation-skinport-csfloat/lib/pricing.ts:57-58 | "1.2.3" and "$." parse to null (the `Number.isFinite` branch) |
| NumberText.ParsePriceText | steam-inventory-valuation-skinport-csfloat/lib/pricing.ts:55-59 | a price "d.cc" with decoration around it (such as "$" or " USD") parses to d + cc/100 |
| NumberText.NonNumericTextIsZero | steam-inventory-valuation-skinport-csfloat/lib/pricing.ts:55-58 | non-empty text without digits, dots or commas parses to 0, not null |
| NumberText.DecimalCommaPrice | steam-inventory-valuation-skinport-csfloat/lib/pricing.ts:57 | "d,cc" with decoration parses to 100·d + cc, because every comma is dropped |
| NumberText.DigitsOnlyNumber | steam-inventory-valuation-skinport-csfloat/lib/pricing.ts:150 | the volume text read as its digits only: a text of digits is its value, a text without digits is 0 |
| NumberText.NonDigitIgnored | steam-inventory-valuation-skinport-csfloat/lib/pricing.ts:150 | removing any one non-digit character anywhere in the volume text leaves the number read unchanged |
| NumberText.GroupedVolume | steam-inventory-valuation-skinport-csfloat/lib/pricing.ts:150 | "1,234" reads as 1234 |
| NumberText.DigitsValueAppend | steam-inventory-valuation-skinport-csfloat/lib/pricing.ts:57 | joining two digit strings shifts the first by the length of the second |
| Adapters.EurToUsd | steam-inventory-valuation-skinport-csfloat/lib/pricing.ts:61-64 | null stays null; otherwise the amount times 1.08, within half a cent, in whole cents, and non-negative for a non-negative amount |
| Adapters.FindByName | steam-inventory-valuation-skinport-csfloat/lib/pricing.ts:82 | `find` gives the first catalogue item with the name, or none when no item has it |
| Adapters.SkinportQuote | steam-inventory-valuation-skinport-csfloat/lib/pricing.ts:70-101 | a failed fetch or a missing item gives a null quote; otherwise the converted min and median prices and the quantity as listings, with no bid or volume |
| Adapters.MinOf | steam-inventory-valuation-skinport-csfloat/lib/pricing.ts:123 | `Math.min` of a non-empty list is an element and is no larger than any element |
| Adapters.DollarPrices | steam-inventory-valuation-skinport-csfloat/lib/pricing.ts:122 | each listing price in cents becomes dollars, in order |
| Adapters.CsfloatQuote | steam-inventory-valuation-skinport-csfloat/lib/pricing.ts:104-136 | no key or a failed fetch gives a null quote; a mismatch or no listings gives ask null with 0 listings; otherwise the cheapest listing in dollars and the listing count |
| Adapters.SteamQuote | steam-inventory-valuation-skinport-csfloat/lib/pricing.ts:139-157 | a failed fetch gives a null quote; otherwise ask and median parsed from the price texts, and, exactly when a non-empty volume text was given, a volume that is the number its digits spell |
| Adapters.VolumeWithoutDigitsIsZero | steam-inventory-valuation-skinport-csfloat/lib/pricing.ts:150 | a non-empty volume text without digits gives volume 0, not null |
| Adapters.GroupedVolumeReads | steam-inventory-valuation-skinport-csfloat/lib/pricing.ts:150 | a volume of "1,234" gives 1234 sales |
| Adapters.BuffQuote | steam-inventory-valuation-skinport-csfloat/lib/pricing.ts:159-162 | the Buff placeholder is always a quote for Buff with no prices, volume or listings |
| Adapters.AdaptersDegradeToNullQuotes | steam-inventory-valuation-skinport-csfloat/lib/pricing.ts:70-162 | no adapter lets a failure through: each failure, a missing CSFloat key and the Buff placeholder give a quote without prices |
| Adapters.MinOfIsLeast | steam-inventory-valuation-skinport-csfloat/lib/pricing.ts:122-123 | the CSFloat ask does not depend on the order of the listings |
| Fees.NetOf | steam-inventory-valuation-skinport-csfloat/lib/pricing.ts:171 | the net of a price is never negative |
| Fees.Net | steam-inventory-valuation-skinport-csfloat/lib/pricing.ts:171 | null stays null, and a price is netted with the venue's percentage, the haircut and the payout fee |
| Fees.ApplyFees | steam-inventory-valuation-skinport-csfloat/lib/pricing.ts:167-173 | the quote is kept; the net ask comes from the ask, or from the median when there is no ask, and is null exactly when both are; the net bid comes from the bid |
| Fees.NetWithinPrice | steam-inventory-valuation-skinport-csfloat/lib/pricing.ts:171 | with rates in [0,1) and a non-negative payout, the net lies between 0 and the price |
| Fees.NetMonotone | steam-inventory-valuation-skinport-csfloat/lib/pricing.ts:171 | a higher price never nets less |
| Fees.NetAskWithinRawPrice | steam-inventory-valuation-skinport-csfloat/lib/pricing.ts:167-173 | under a valid fee model the net ask never exceeds the price it came from |
| Fees.UnlistedVenueNetsFullPrice | steam-inventory-valuation-skinport-csfloat/lib/pricing.ts:168-172 | a venue missing from the fee model, with no haircut, nets its full ask |
| Fees.DefaultFees | steam-inventory-valuation-skinport-csfloat/lib/pricing.ts:196 | the fallback fees are Steam 15%, Skinport 12%, CSFloat 1%, Buff 0, no payout fee or haircut, and form a valid model |
| Liquidity.Volumes | steam-inventory-valuation-skinport-csfloat/lib/pricing.ts:176 | one volume per quote, missing as 0 |
| Liquidity.ListingCounts | steam-inventory-valuation-skinport-csfloat/lib/pricing.ts:177 | one listing count per quote, missing as 0 |
| Liquidity.MaxAtLeastOne | steam-inventory-valuation-skinport-csfloat/lib/pricing.ts:178-179 | `Math.max(1, ...xs)` is at least 1 and every element, and is 1 or an element |
| Liquidity.ComputeLiquidity | steam-inventory-valuation-skinport-csfloat/lib/pricing.ts:175-185 | the band is the time-to-sell of the score it returns |
| Liquidity.Score | steam-inventory-valuation-skinport-csfloat/lib/pricing.ts:175-181 | the 0.7/0.3 weighted, max-normalised mean of volumes and listings, rounded; its properties are `ScoreInRange` (0..100), `IdleMarketScoresZero` (idle market scores 0) and `SingleActiveVenueScore` (one venue trading scores 18 in exact arithmetic) |
| Liquidity.TimeToSell | steam-inventory-valuation-skinport-csfloat/lib/pricing.ts:182-184 | `[max(0.25, 7 − score/100·6), 2.2×that]` each to two decimals; its properties are `TimeToSellBand`, `TimeToSellNonIncreasing` and `TimeToSellExtremes` |
| Liquidity.CompositeInUnitRange | steam-inventory-valuation-skinport-csfloat/lib/pricing.ts:180 | a venue's 0.7/0.3 weighted normalised activity lies in [0,1] |
| Liquidity.SumCompositeBounds | steam-inventory-valuation-skinport-csfloat/lib/pricing.ts:180-181 | the sum over n venues lies in [0,n] |
| Liquidity.ScoreInRange | steam-inventory-valuation-skinport-csfloat/lib/pricing.ts:181 | with non-negative volumes and listings the score lies in 0..100 |
| Liquidity.SumCompositeOfIdle | steam-inventory-valuation-skinport-csfloat/lib/pricing.ts:180 | with no volume and no listings anywhere, the weighted sum is 0 |
| Liquidity.IdleMarketScoresZero | steam-inventory-valuation-skinport-csfloat/lib/pricing.ts:175-181 | a market with no volume and no listings scores 0 |
| Liquidity.SingleActiveVenueScore | steam-inventory-valuation-skinport-csfloat/lib/pricing.ts:175-181 | any one of four venues trading (volume ≥ 1), whichever slot it is in, with no listings anywhere scores 18 in exact arithmetic (17.5 rounded up) |
| Liquidity.TimeToSellBand | steam-inventory-valuation-skinport-csfloat/lib/pricing.ts:182-184 | for a score in 0..100 the fast end is (700 − 6·score)/100 days, at least 1 day and no later than the slow end |
| Liquidity.TimeToSellNonIncreasing | steam-inventory-valuation-skinport-csfloat/lib/pricing.ts:182-184 | a higher score never lengthens either end of the band |
| Liquidity.TimeToSellExtremes | steam-inventory-valuation-skinport-csfloat/lib/pricing.ts:182-184 | score 0 gives 7 to 15.4 days, score 100 gives 1 to 2.2 days |
| Matrix.RawQuotes | steam-inventory-valuation-skinport-csfloat/lib/pricing.ts:189-195 | the quotes are listed Skinport, CSFloat, Steam, Buff, whatever order the fetches finished in |
| Matrix.Priced | steam-inventory-valuation-skinport-csfloat/lib/pricing.ts:197 | the filter keeps only quotes with a net ask, and is empty exactly when none has one |
| Matrix.BestSkipsUnpriced | steam-inventory-valuation-skinport-csfloat/lib/pricing.ts:197 | a leading quote without a net ask does not affect the best venue |
| Matrix.BestWithPricedHead | steam-inventory-valuation-skinport-csfloat/lib/pricing.ts:197 | a leading priced quote wins unless the rest holds a strictly higher net ask |
| Matrix.BestVenue | steam-inventory-valuation-skinport-csfloat/lib/pricing.ts:197 | `filter(netAsk != null).sort(desc)[0] ?? null`; its property is `BestVenueIsFirstHighest` (null iff nothing is priced, else the earliest highest) |
| Matrix.BestVenueIsFirstHighest | steam-inventory-valuation-skinport-csfloat/lib/pricing.ts:197 | the best venue is null iff no quote has a net ask; otherwise it is the earliest quote with the highest net ask |
| Matrix.BuildPriceMatrix | steam-inventory-valuation-skinport-csfloat/lib/pricing.ts:188-200 | four quotes in the fixed venue order, each the adapter's quote netted by the given fees (or the defaults), and a band matching the score |
| Matrix.MatrixBestVenue | steam-inventory-valuation-skinport-csfloat/lib/pricing.ts:196-197 | the matrix's best venue is null iff no venue has a net ask, else the first highest, with a non-negative net ask |
| Matrix.MatrixLiquidityInRange | steam-inventory-valuation-skinport-csfloat/lib/pricing.ts:198 | with non-negative Skinport quantities the score lies in 0..100 and the band starts at 1 day or later and is ordered |
| Matrix.FailedFeedsGiveNullQuotes | steam-inventory-valuation-skinport-csfloat/lib/pricing.ts:189-195 | when every fetch fails, all four raw quotes are price-less |
| Matrix.AllVenuesFailed | steam-inventory-valuation-skinport-csfloat/lib/pricing.ts:188-200 | when every fetch fails: four quotes without net ask or bid, no best venue, score 0, band 7 to 15.4 days |
| Matrix.SteamOnlyTradingScores18 | steam-inventory-valuation-skinport-csfloat/lib/pricing.ts:175-199 | Steam reporting at least one sale, with no Skinport or CSFloat listings, gives the matrix a score of 18 in exact arithmetic |
| Matrix.TwoVenueExample | steam-inventory-valuation-skinport-csfloat/lib/pricing.ts:196-197 | under the default fees, asks of $100 on Skinport and $120 on CSFloat net $88 and $118.80, and CSFloat is best |
| Sorting.Insert | steam-inventory-valuation-skinport-csfloat/lib/pricing.ts:197 | insertion adds exactly the one element |
| Sorting.SortDesc | steam-inventory-valuation-skinport-csfloat/lib/pricing.ts:197 | the sort is a permutation of its input |
| Sorting.SortIsOrdered | app/api/inventory/route.ts:51 | the result is in descending key order |
| Sorting.SortIsStable | app/api/inventory/route.ts:51 | elements with equal keys keep their original relative order |
| Batch.BuildMatrices | steam-inventory-valuation-skinport-csfloat/lib/pricing.ts:202-215 | draining the queue gives exactly one entry per distinct name, each that name's own price matrix |
| Batch.DistinctNamesCount | steam-inventory-valuation-skinport-csfloat/lib/pricing.ts:203-209 | distinct names give as many entries as names |
| Batch.RepeatedNameCollapses | steam-inventory-valuation-skinport-csfloat/lib/pricing.ts:208-209 | a repeated name overwrites its entry, so there are fewer entries than names |
| SteamId.TrimStart | steam-inventory-valuation-skinport-csfloat/lib/steam.ts:4 | drops exactly the leading ECMAScript white space |
| SteamId.TrimEnd | steam-inventory-valuation-skinport-csfloat/lib/steam.ts:4 | drops exactly the trailing ECMAScript white space |
| SteamId.Trim | steam-inventory-valuation-skinport-csfloat/lib/steam.ts:4 | `trim` is the run of the input between its leading and trailing white space, which it drops entirely; the result starts and ends with a non-space character |
| SteamId.TrimEmptyIffBlank | steam-inventory-valuation-skinport-csfloat/lib/steam.ts:4-5 | trimming leaves nothing exactly when the input is all white space |
| SteamId.TrimUnpadded | steam-inventory-valuation-skinport-csfloat/lib/steam.ts:4 | text without white space at either end is unchanged |
| SteamId.FirstFrom | steam-inventory-valuation-skinport-csfloat/lib/steam.ts:9-12 | a regex `match` takes the leftmost position where the pattern holds, or none when it holds nowhere |
| SteamId.SegmentEnd | steam-inventory-valuation-skinport-csfloat/lib/steam.ts:12 | `[^\/]+` extends to the next '/' or the end |
| SteamId.VanitySegment | steam-inventory-valuation-skinport-csfloat/lib/steam.ts:12-13 | the captured vanity name is the non-empty run of non-'/' text right after `/id/`, ending at the next '/' or the end |
| SteamId.StripTrailingSlash | steam-inventory-valuation-skinport-csfloat/lib/steam.ts:7 | one trailing '/' is removed, and nothing else changes |
| SteamId.ResolveVanity | steam-inventory-valuation-skinport-csfloat/lib/steam.ts:19-28 | without a key only a 17-digit id resolves, to itself; with a key, the lookup's answer |
| SteamId.Classify | steam-inventory-valuation-skinport-csfloat/lib/steam.ts:9-16 | the leftmost `/profiles/` match yields its 17 captured digits; else the leftmost `/id/` match goes to vanity resolution of its segment; else a 17-digit candidate is itself and other text goes to vanity resolution; without a key any id is 17 digits |
| SteamId.ResolveToSteamId64 | steam-inventory-valuation-skinport-csfloat/lib/steam.ts:3-17 | blank input is unresolved; otherwise the trimmed input, or its URL path without trailing '/', is classified as above (profiles digits, then vanity segment, then bare id or vanity lookup); without a key every resolved id is 17 digits |
| SteamId.BlankInputUnresolved | steam-inventory-valuation-skinport-csfloat/lib/steam.ts:4-5 | white-space-only input is unresolved |
| SteamId.BareIdResolvesToItself | steam-inventory-valuation-skinport-csfloat/lib/steam.ts:15 | a bare SteamID64 that is not a URL resolves to itself, key or no key |
| SteamId.Candidate | steam-inventory-valuation-skinport-csfloat/lib/steam.ts:6-7 | the trimmed text itself, or for a parseable URL its path without one trailing slash; its property is `CandidateOfPath` |
| SteamId.CandidateOfPath | steam-inventory-valuation-skinport-csfloat/lib/steam.ts:7 | for a URL, the candidate is its path without the trailing slash |
| SteamId.ProfilePathClassifies | steam-inventory-valuation-skinport-csfloat/lib/steam.ts:9-10 | `/profiles/<17 digits>` yields those digits |
| SteamId.ProfileUrlResolves | steam-inventory-valuation-skinport-csfloat/lib/steam.ts:3-10 | a profile URL, with or without a trailing slash, resolves to its id |
| SteamId.NoProfilesInIdPath | steam-inventory-valuation-skinport-csfloat/lib/steam.ts:9 | an `/id/<name>` path never matches the profiles pattern |
| SteamId.IdPathClassifies | steam-inventory-valuation-skinport-csfloat/lib/steam.ts:9-13 | `/id/<name>` goes to the vanity resolution of the name |
| SteamId.VanityUrlResolves | steam-inventory-valuation-skinport-csfloat/lib/steam.ts:3-13 | a vanity URL resolves as its vanity name does |
| SteamId.SchemelessProfileResolves | steam-inventory-valuation-skinport-csfloat/lib/steam.ts:3-10 | text that is not a URL, such as `steamcommunity.com/profiles/<id>/…`, resolves to the id after the first `/profiles/` |
| SteamId.BareNameResolves | steam-inventory-valuation-skinport-csfloat/lib/steam.ts:15-16 | a bare name without '/' that is not a URL is itself when it is 17 digits, else goes to vanity resolution |
| Inventory.JoinKey | steam-inventory-valuation-skinport-csfloat/lib/steam.ts:38-44 | `classid_instanceid`, with "0" for an absent or empty instance id; stated by `JoinKeyParts` and `MissingInstanceIsZero` |
| Inventory.JoinKeyParts | steam-inventory-valuation-skinport-csfloat/lib/steam.ts:38-44 | a key is the class id, an underscore, then the instance id, or "0" when the instance id is absent or empty |
| Inventory.LastWithKey | steam-inventory-valuation-skinport-csfloat/lib/steam.ts:38-40 | the description the map keeps for a key is the last one with that key, and there is none iff no description has it |
| Inventory.Join | steam-inventory-valuation-skinport-csfloat/lib/steam.ts:44-54 | an item keeps the asset's ids and takes the five naming and icon fields from its description, all absent without one |
| Inventory.JoinAll | steam-inventory-valuation-skinport-csfloat/lib/steam.ts:42-56 | one item per asset, in asset order, each joined to its matching description |
| Inventory.IndexDescriptions | steam-inventory-valuation-skinport-csfloat/lib/steam.ts:38-40 | the description map has exactly the keys of the descriptions, each mapped to the last description with it |
| Inventory.FetchInventory | steam-inventory-valuation-skinport-csfloat/lib/steam.ts:31-57 | null iff the response is not ok or lacks either array; otherwise the join of every asset |
| Inventory.LaterDescriptionWins | steam-inventory-valuation-skinport-csfloat/lib/steam.ts:40 | a later description with the same key replaces an earlier one |
| Inventory.OtherKeysIrrelevant | steam-inventory-valuation-skinport-csfloat/lib/steam.ts:40-44 | descriptions with other keys do not change an asset's match |
| Inventory.UnmatchedAssetHasNoName | steam-inventory-valuation-skinport-csfloat/lib/steam.ts:44-53 | an asset without a description carries no name and no icon |
| Inventory.MissingInstanceIsZero | steam-inventory-valuation-skinport-csfloat/lib/steam.ts:38 | a missing, empty or "0" instance id give the same key |
| InventoryRoute.ItemName | app/api/inventory/route.ts:22-23 | a name exists iff one of market hash name, market name or name is non-empty; it is the first non-empty one in that order |
| InventoryRoute.IconOf | app/api/inventory/route.ts:24 | the icon path is `icon_url` if non-empty, else `icon_url_large` if non-empty, else empty, and empty exactly when both are |
| InventoryRoute.IconField | app/api/inventory/route.ts:24-27 | the shown icon is empty exactly when the icon path is, and otherwise is the path behind the Steam CDN prefix |
| InventoryRoute.Names | app/api/inventory/route.ts:21-23 | unnamed items are skipped, so there are never more names than items |
| InventoryRoute.Dedup | app/api/inventory/route.ts:31 | the map's key list holds exactly the names that occur |
| InventoryRoute.EntryStep | app/api/inventory/route.ts:20-29 | one more item bumps its own name's entry (count +1, icon filled if missing) and leaves every other entry alone |
| InventoryRoute.Collate | app/api/inventory/route.ts:19-31 | the loop yields the distinct names in first-appearance order, with each name's first icon and the number of items bearing it |
| InventoryRoute.DedupHasNoDuplicates | app/api/inventory/route.ts:31 | each name is listed once |
| InventoryRoute.DedupKeepsFirstAppearanceOrder | app/api/inventory/route.ts:31 | names are listed in order of first appearance |
| InventoryRoute.CountsAddUp | app/api/inventory/route.ts:26 | the counts over the distinct names add up to the number of named items |
| InventoryRoute.FirstIconIsFirst | app/api/inventory/route.ts:24-27 | the icon is empty iff no item of the name has one; otherwise it is the icon of the first item that has one |
| InventoryRoute.IconIsStable | app/api/inventory/route.ts:27 | once a name has an icon, later items do not change it |
| InventoryRoute.RouteFees | app/api/inventory/route.ts:32-36 | Steam 15%, Skinport 12%, CSFloat 1%, Buff 2%, no payout fee, no haircut, and a valid model |
| InventoryRoute.TotalWorth | app/api/inventory/route.ts:39-44 | the sum over rows of best net ask × count; its properties are `TotalWorthOfSorted`, `TotalWorthNonNegative` and the `ValueRows` loop that accumulates it |
| InventoryRoute.TotalWorthOfSorted | app/api/inventory/route.ts:39-51 | ranking the rows does not change their total |
| InventoryRoute.TotalWorthNonNegative | app/api/inventory/route.ts:44 | non-negative best net asks give a non-negative total |
| InventoryRoute.ValueRows | app/api/inventory/route.ts:39-50 | one row per name in order, with its meta and matrix; the running total is the sum of best net ask times count |
| InventoryRoute.ExpectedRows | app/api/inventory/route.ts:37-50 | one row per distinct name |
| InventoryRoute.ValueInventory | app/api/inventory/route.ts:19-53 | the items are the expected rows ranked by best net ask, and the total is their worth rounded to cents |
| InventoryRoute.Get | app/api/inventory/route.ts:7-53 | 400 when the query does not resolve to a non-empty id, 404 when the inventory is unusable, else the ranked rows and the rounded total |
| InventoryRoute.ValuationTotalNonNegative | app/api/inventory/route.ts:44-53 | the reported total is never negative |
| InventoryRoute.ItemsAreRankedRows | app/api/inventory/route.ts:51 | the items are the rows permuted, in descending order, stable on ties, with the same total |
| InventoryRoute.RowsCoverNamedItems | app/api/inventory/route.ts:20-31 | the rows name each named item exactly once, and their counts add up to the named items |
| InventoryRoute.RowNamesAreDedup | app/api/inventory/route.ts:31-40 | the row names are distinct and are exactly the names that occur |

## Left out

- Network I/O, caching hints and response decoding: each endpoint's answer is an input value, and zod schema validation appears only as the "mismatch" outcome.
- `new URL(...)` is the parameter `parseUrl`, giving the pathname of a parseable URL.
- The keyed `ResolveVanityURL` call is the parameter `lookup`. Its `success === 1` test is folded into that function's answer.
- `process.env` values (the CSFloat and Steam API keys, `DEFAULT_CURRENCY`) are parameters. The Steam currency code is folded into the decoded Steam answer `feedsFor` supplies.
- `new Date().toISOString()`: one clock reading `now` per matrix stands for the four timestamps.
- `buildMatrices` runs three workers over a shared queue with a 200 ms pause after each item. That concurrency and pacing are not modelled: one worker drains the queue in order, which fills the same map.
- `Promise.all` in `buildPriceMatrix` is not modelled: the four answers are given, and the matrix order does not depend on completion order.
- The 500 response for an exception thrown inside the handler is not modelled. No modelled operation throws.
- IEEE-754 doubles: prices are exact reals, so binary rounding error is not modelled, and neither is overflow of very long digit strings to Infinity.
- `Liquidity.SingleActiveVenueScore`: 18 is the exact-real result. The mean times 100 is 17.5, exactly on `Math.round`'s tie. In doubles `0.7 * v / v` can fall just below 0.7, for example at v = 3, 6 or 12, and the program then scores 17.
- `Matrix.SteamOnlyTradingScores18`: 18 in exact arithmetic only, for the same reason. With doubles, Steam volumes such as 3, 6 and 12 score 17.
- `Common.ToFixed2`: states the decimal rounding of the exact value, not the rounding of its binary double.
- `Array.prototype.sort` runs in place. It is modelled by a functional stable insertion sort, because ECMAScript 2019 and later require `sort` to be stable.
- The UI components and the other API routes are not part of this model.
