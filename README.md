# Standings and rewards engine of the recycling-rewards landing page

This project models the derivation logic of a recycling-rewards web application in Dafny:

- the public landing page (`components/LandingPage.tsx`): which users count as participants; the hero totals (bottles, CO2 offset, pioneer count); the searchable, sortable participant grid; the rotating top-three carousel; the MVP; each grid card's estimated value and tier badge. It also models the three pieces of state the page keeps between renders: sort settings, carousel index, and the live XRP price cache.
- a participant's own dashboard (`components/ParticipantDashboard.tsx`): the pending notice, cycle progress and its bar, portfolio value, projected-growth series, and receipts table.

Files and modules:

| file | module | models |
|---|---|---|
| `types.dfy` | `Types` | the user record and its parts |
| `text.dfy` | `Text` | ASCII `toLowerCase`, `includes`, and `<` on strings |
| `sorting.dfy` | `Sorting` | the grid comparator, the carousel comparator, and the stable sort they run under |
| `standings.dfy` | `Standings` | the pure derivations of the landing page |
| `landing_page.dfy` | `LandingPage` | the page's step functions and the class `LandingState` holding its mutable state |
| `participant_dashboard.dfy` | `Dashboard` | the participant dashboard |

How the model represents things:

- Numbers are `nat` (bottle counts) or `real` (XRP, prices, percentages).
- A division by a zero monthly target gives `Infinity` or `NaN`, as in JavaScript. This is modelled explicitly.
- With a consistent comparator, `Array.prototype.sort` returns an ordered permutation of its input, and since ECMAScript 2019 it is also stable. `Sorting.StableSort` is a reference definition of a stable sort: an insertion sort that puts each element before the first element it does not go after. The lemmas state what any stable sort yields: an ordered permutation in which equal keys keep their input order.
- Timers and the network are modelled as explicit method calls on `LandingState`, not as concurrency:
  - `CarouselTick` is one firing of the 4-second interval.
  - `PriceIntervalTick` is one firing of the 60-second interval.
  - `UsersChanged` and `CurrencyChanged` re-run an effect whose dependency changed.
  - `FetchSettled` is a price fetch completing, with an abstract `FetchResult`: it threw, the body had no `ripple`, or it had `ripple` with `usd` and `bwp`.
  - Each started fetch remembers the display currency its closure captured.
- `getRank` and `MOCK_XRP_PRICE_BWP` come from a constants module that is not part of this model. They are parameters: `rankOf` and `mockXrpPriceBwp`.

In these places the code behaves differently from what a reader might expect, and the model follows the code:

- PENDING participants are not excluded. They count in the totals, in "Active Pioneers", in the grid and in the carousel, because the filter at LandingPage.tsx:15 looks at the role only.
- A change in the top-three length does not reset or re-bound the carousel index. The index may stay out of range until the next firing brings it back (`LandingPage.ShrinkScenario`).
- A zero monthly target is not guarded: the progress becomes `Infinity` or `NaN` (`Dashboard.ZeroTarget`). It does not raise a configuration error.
- The price cache stores only the rate, not the currency it was fetched for. A fetch started before a currency switch can settle after the switch, and then it stores the old currency's rate under the new label (`LandingPage.StaleCurrencyScenario`). This reading assumes the parent passes a new `settings` object when the currency changes, so that the settling fetch's closure still sees the currency of the render that started it. The parent component is not part of this model. If it mutated one settings object in place, the late fetch would read the new currency instead. So the cache can be read as a rate paired with the wrong currency.

## Model

| member | source | states |
|---|---|---|
| `Standings.Participants` | components/LandingPage.tsx:15 | the filter is no longer than its input and keeps only PARTICIPANT-role users, whatever their status |
| `Standings.ParticipantsOccurrences` | components/LandingPage.tsx:15 | a participant-role user appears among the participants exactly as often as in the input; any other user does not appear |
| `Standings.ParticipantSumIsMasked` | components/LandingPage.tsx:15-18 | summing the filtered list equals the sum over all users of their bottles counted only when the role is PARTICIPANT |
| `Standings.TotalBottles` | components/LandingPage.tsx:18 | total bottles equals the independent masked sum: every participant's bottles, no other role's |
| `Standings.AdminNeverContributes` | components/LandingPage.tsx:15-20 | removing an ADMIN record changes neither total bottles, nor CO2 offset, nor the pioneer count |
| `Standings.StatusDoesNotMatter` | components/LandingPage.tsx:15-19 | changing a user's registration status changes neither total bottles nor the pioneer count (PENDING participants count) |
| `Standings.Co2Offset` | components/LandingPage.tsx:20 | the CO2 offset is 0.08 times the bottles of participant-role users |
| `Standings.ParticipantCountIsCount` | components/LandingPage.tsx:15-19 | the filter keeps as many users as an independent count of participant-role users |
| `Standings.ActivePioneers` | components/LandingPage.tsx:19 | active pioneers is at most the number of users and equals the number of participant-role users, whatever their status |
| `Text.MatchesIgnoresTermCase` | components/LandingPage.tsx:37 | lower-casing the search term does not change which names match |
| `Text.EmptyTermMatches` | components/LandingPage.tsx:37 | every name matches the empty search term |
| `Text.NameMatchesItself` | components/LandingPage.tsx:37 | a name always matches a search for itself |
| `Standings.Search` | components/LandingPage.tsx:37 | the search keeps at most its input's entries, in input order, and only those whose lower-cased name contains the lower-cased term |
| `Standings.SearchConcat` | components/LandingPage.tsx:37 | the search keeps its input order: searching a concatenation is the concatenation of the searches |
| `Standings.SearchSingleton` | components/LandingPage.tsx:37 | a single user is kept exactly when its lower-cased name contains the lower-cased term |
| `Standings.SearchOccurrences` | components/LandingPage.tsx:37 | a matching user appears in the search result exactly as often as in its input; a non-matching user does not appear |
| `Standings.SearchEmptyTermKeepsAll` | components/LandingPage.tsx:37 | the search with an empty term keeps every entry in order |
| `Standings.Grid` | components/LandingPage.tsx:36-53 | the grid is a permutation of the participants that pass the search |
| `Standings.GridEntries` | components/LandingPage.tsx:36-37 | every grid entry is a participant-role user of the input whose name matches the term |
| `Standings.GridMembers` | components/LandingPage.tsx:36-37 | a user occurs in the grid exactly as often as in the input if it is a participant whose lower-cased name contains the lower-cased term, and otherwise not at all |
| `Standings.GridEmptyTerm` | components/LandingPage.tsx:36-53 | with an empty search the grid is the sorted list of all participants |
| `Standings.GridEmptyIffNoMatch` | components/LandingPage.tsx:36-37 | the grid is empty (the "no participants found" case) exactly when no participant-role user matches the term |
| `Sorting.Compare` | components/LandingPage.tsx:38-52 | the grid comparator returns -1, 0 or 1 and is negative exactly when the first user's field is `<` the second's (ascending) or `>` it (descending); the carousel comparator is negative exactly when the first user has more bottles |
| `Sorting.CompareZeroIffSameKey` | components/LandingPage.tsx:50-52 | the comparator returns 0 exactly when both users have equal values in the selected field |
| `Sorting.CompareAntisymmetric` | components/LandingPage.tsx:50-52 | swapping the two users negates the comparator's result |
| `Sorting.CompareTransitive` | components/LandingPage.tsx:39-52 | "does not go after" is transitive for every key and direction |
| `Text.StrLessTotal` | components/LandingPage.tsx:50-51 | for the name key, two different names are always ordered by `<` one way or the other |
| `Text.StrLessTransitive` | components/LandingPage.tsx:50-51 | `<` on names is transitive |
| `Sorting.SortSorted` | components/LandingPage.tsx:38-53 | the stable sort's result is ordered under the comparator |
| `Sorting.StableSort` | components/LandingPage.tsx:38-53 | the sorted result is a permutation of its input |
| `Sorting.SortStable` | components/LandingPage.tsx:38-53 | for every key value, the users with that value appear in the sorted result in their input order |
| `Sorting.SortedFixpoint` | components/LandingPage.tsx:38-53 | sorting an already ordered list leaves it unchanged |
| `Sorting.SortIdempotent` | components/LandingPage.tsx:38-53 | sorting twice with the same comparator gives the same result as sorting once |
| `Sorting.SortedMeaning` | components/LandingPage.tsx:39-51 | what "ordered" means in each field and direction (ascending or descending bottles, XRP, names) |
| `Standings.GridOrdered` | components/LandingPage.tsx:38-53 | the grid is ordered by the selected key in the selected direction |
| `Standings.GridStable` | components/LandingPage.tsx:38-53 | grid entries with equal keys keep their relative order among the matching participants |
| `Standings.GridResortUnchanged` | components/LandingPage.tsx:36-53 | re-sorting the grid with the same settings leaves it unchanged |
| `Standings.GridExample` | components/LandingPage.tsx:36-53 | participants with 500, 1200 and 50 bottles, bottles descending, no search, give the order 1200, 500, 50 |
| `Sorting.BottlesDifferenceIsBottlesDesc` | components/LandingPage.tsx:23 | the carousel comparator `b.totalBottles - a.totalBottles` sorts exactly as the grid's bottles-descending comparator |
| `Standings.RankedByBottles` | components/LandingPage.tsx:23 | the carousel ranking is a permutation of the participants, as long as the pioneer count |
| `Standings.TopThree` | components/LandingPage.tsx:24 | the top three has min(3, pioneer count) entries, and they are the ranking's first entries in order |
| `Standings.TopUser` | components/LandingPage.tsx:55 | the MVP is absent exactly when the pioneer count is 0, and otherwise it is the ranking's first entry |
| `Standings.RankingIsDefaultGrid` | components/LandingPage.tsx:23 | the carousel ranking equals the grid in its initial settings (bottles, descending, empty search) |
| `Standings.TopThreeIsBest` | components/LandingPage.tsx:23-24 | the top three has min(3, n) entries, all participants, in descending bottles, none below any participant ranked after them |
| `Standings.TopUserIsMvp` | components/LandingPage.tsx:55 | the MVP is absent exactly when there are no participants; otherwise it is a participant with the most bottles, the first such in input order |
| `Standings.TierBadge` | components/LandingPage.tsx:302-306 | WHALE gets "Whale" in purple, MASTER gets "Pro" in blue and NOVICE gets "Novice" in slate, each exactly; the text is one of those three and fixes the colour |
| `Standings.TierBadgeDistinguishes` | components/LandingPage.tsx:302-306 | distinct tiers get distinct labels and distinct colours (MASTER shows as "Pro") |
| `Standings.EstimatedValue` | components/LandingPage.tsx:329 | the estimated value is the XRP balance times the cached price, or times 32.5 when the cache is null or 0 |
| `Standings.Cards` | components/LandingPage.tsx:291-329 | one card per grid entry, in grid order, with the entry's name, bottles, XRP, tier label and estimated value |
| `LandingPage.NextSort` | components/LandingPage.tsx:85-92 | choosing the active key flips the direction; choosing another key makes it active with ascending for name and descending for bottles and XRP |
| `LandingPage.ToggleTwiceRestores` | components/LandingPage.tsx:85-92 | choosing the active key twice restores the sort state |
| `LandingPage.LastRunDecides` | components/LandingPage.tsx:85-92 | after any earlier presses, a run of n+1 presses of a newly chosen key leaves that key's default direction when n is even and the other direction when n is odd |
| `LandingPage.LandingState.constructor` | components/LandingPage.tsx:25-33 | the initial state: the given user list, bottles/desc, empty search, index 0, the top-three length of that list, null price, one fetch in flight for the current currency |
| `LandingPage.LandingState.HandleSort` | components/LandingPage.tsx:85-92 | a sort-button press sets the sort state to `NextSort` of the old one |
| `LandingPage.LandingState.GridView` | components/LandingPage.tsx:36-53 | the grid the state shows for its own user list is ordered by the state's sort settings, no longer than the user list, and holds every participant-role user matching the state's search term exactly as often as the user list does, and nothing else |
| `LandingPage.LandingState.SetSearchTerm` | components/LandingPage.tsx:256-261 | typing in the search box replaces the search term |
| `LandingPage.NextCarouselIndex` | components/LandingPage.tsx:79 | one firing yields an index below the length: the next index, 0 after the last, and for an index left past the end by a shrink (up to twice the length) the index minus the length plus one, as `%` gives |
| `LandingPage.CarouselReturns` | components/LandingPage.tsx:76-83 | with the length fixed, the index returns to its start after as many firings as the length |
| `LandingPage.LandingState.CarouselTick` | components/LandingPage.tsx:76-83 | a firing, possible only while the captured length is positive, moves the index to `(prev + 1) % length`, which is in range |
| `LandingPage.LandingState.UsersChanged` | components/LandingPage.tsx:76-83 | a new user list is stored and restarts rotation with its top-three length; the index is left untouched |
| `LandingPage.LandingState.Highlighted` | components/LandingPage.tsx:129-138 | for the state's own user list, a carousel card is in front exactly when the index is below the top-three length, and the card in front is the top-three entry at the carousel index |
| `LandingPage.ShrinkScenario` | components/LandingPage.tsx:76-83 | after two firings with three participants and a shrink to one, the index stays 2 and nothing is highlighted until the next firing returns it to 0 |
| `LandingPage.ApplyFetch` | components/LandingPage.tsx:60-68 | a settled fetch overwrites the cache only when the response has `ripple`, with `usd` for "USD" and `bwp` otherwise; a throw or a body without `ripple` leaves it unchanged |
| `LandingPage.FailuresKeepCache` | components/LandingPage.tsx:60-68 | any run of failed or `ripple`-less fetches leaves the cache as it was (null stays null) |
| `LandingPage.LastSuccessWins` | components/LandingPage.tsx:58-73 | after a run of fetches the cache holds the rate of the last one that brought `ripple` |
| `LandingPage.NeverUnset` | components/LandingPage.tsx:63-65 | once a rate is cached, no fetch returns the cache to null |
| `LandingPage.FallbackUntilFirstSuccess` | components/LandingPage.tsx:329 | until a fetch brings `ripple`, every card is valued at the 32.5 fallback |
| `LandingPage.LandingState.PriceIntervalTick` | components/LandingPage.tsx:71 | the 60-second interval starts a fetch under the current display currency |
| `LandingPage.LandingState.CurrencyChanged` | components/LandingPage.tsx:58-73 | a change of display currency starts a fetch at once; the same currency starts nothing |
| `LandingPage.LandingState.FetchSettled` | components/LandingPage.tsx:59-69 | a fetch settling applies `ApplyFetch` with the currency it captured and leaves the other fetches in flight |
| `LandingPage.StaleCurrencyScenario` | components/LandingPage.tsx:58-73 | a USD fetch that settles after the switch to BWP leaves the USD rate cached while BWP is displayed |
| `Dashboard.DashboardView` | components/ParticipantDashboard.tsx:13-51 | a PENDING user gets the pending notice with their payment method (cash steps exactly when the method is "CASH"); everyone else gets the progress, the bar's width and colour for it, the balance times the fixed price, the growth series of their history and the receipts view |
| `Dashboard.PendingComputesNothing` | components/ParticipantDashboard.tsx:16-46 | a pending user's view depends only on the payment method, not on bottles, balance, target or price |
| `Dashboard.CycleProgress` | components/ParticipantDashboard.tsx:50 | progress is finite exactly for a non-zero target, and then it is the percentage: progress times target equals bottles times 100; with a positive target it is at least 0, and at least 100 exactly when the target is met; a zero target gives Infinity with bottles and NaN without |
| `Dashboard.ProgressExample` | components/ParticipantDashboard.tsx:50 | 250 bottles against a target of 200 give 125, un-clamped |
| `Dashboard.BarWidth` | components/ParticipantDashboard.tsx:67 | the bar width is min(progress, 100): the progress up to 100, exactly 100 above it or for Infinity, and NaN exactly when the progress is |
| `Dashboard.BarIsGreen` | components/ParticipantDashboard.tsx:67 | the bar is green exactly when its width is 100, and never for NaN |
| `Dashboard.GreenIffTargetMet` | components/ParticipantDashboard.tsx:50-67 | with a positive target the bar is green exactly when this month's bottles reach the target |
| `Dashboard.ZeroTarget` | components/ParticipantDashboard.tsx:50-67 | with a zero target any bottle makes the bar green and full, and none leaves its width NaN |
| `Dashboard.GrowthSeries` | components/ParticipantDashboard.tsx:139 | the series has one more point than the history: ("Start", 0), then month i with `xrpEarned * (i+1)` |
| `Dashboard.GrowthSeriesAppend` | components/ParticipantDashboard.tsx:139 | one more month of history appends one point and leaves the earlier points unchanged |
| `Dashboard.GrowthMonths` | components/ParticipantDashboard.tsx:139 | the chart's month axis is "Start" followed by the history's months in order |
| `Dashboard.ReceiptsView` | components/ParticipantDashboard.tsx:101-129 | the table appears exactly when records exist and are non-empty, with those records as rows in order; otherwise the empty message |

## Left out

- Number formatting is not modelled: `toFixed`, `toLocaleString` and `Math.round` of the displayed progress. Values are kept exact.
- IEEE floating point is not modelled. Bottles are `nat` and money is `real`. The only JavaScript number oddities modelled are `Infinity` and `NaN` from a zero target.
- Standings.EstimatedValue: a cached `NaN` (which `|| 32.5` would also replace) is not modelled, because the cache holds reals.
- LandingPage.NeverUnset, LandingPage.LastSuccessWins: these hold under the `FetchResult` abstraction, where every `ripple` object carries both `usd` and `bwp`. A `ripple` object lacking the field for the display currency would store `undefined`, which the value fallback and the price badge treat like null. This case is not modelled. The HTTP request, JSON parsing and `console.error` are also abstracted by `FetchResult`.
- `setInterval`, `clearInterval`, real time, effect cleanup on unmount and React's render batching are not modelled. Timer firings are explicit method calls. Unmounting, after which no state exists, is not modelled.
- The live-price badge (`liveXrpPrice && ...`), medal colours, the YouTube embed, the recharts rendering and all other markup are presentation and are not modelled.
- `getRank` and `MOCK_XRP_PRICE_BWP` live in a constants module that is not part of this model. They are parameters, and the model assumes `getRank` returns one of three tiers.
- The types module is not part of this model. Roles are ADMIN and PARTICIPANT, and statuses are PENDING and ACTIVE, as the code compares against.
- `toLowerCase` is ASCII only, without Unicode case folding.
- Text.StrLess: compares Dafny characters, which are Unicode scalar values, while JavaScript compares UTF-16 code units. Names containing characters above U+FFFF may order differently. Names are modelled as `string`, not as UTF-16 code-unit sequences.
- The pending notice's fee amount and phone number are display text and are not modelled.
- components/Layout.tsx and components/NewsFeed.tsx are presentation and are not part of this model.
