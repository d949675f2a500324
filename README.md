# Storefront session core

A verified model of the session-state core of a small browser storefront
(`main.js`). The page loads a product catalog and a category list from a
remote API. It shows a product grid that the user narrows by toggling
category tags and typing a search term. It keeps a wishlist of product ids in
local storage, and it draws each card with truncated text and a five-star
rating.

The model has six modules:

- `Wrappers` (`wrappers.dfy`): `Option`, for JavaScript values that may be missing.
- `Text` (`text.dfy`): ASCII `toLowerCase`, ECMAScript `trim`, `includes`, and `truncateText`.
- `OrderedSet` (`ordered_set.dfy`): the selected-category array and the wishlist `Set`. Both are insertion-ordered sequences of distinct values. This covers `indexOf`, toggling by `splice`/`push` (or `delete`/`add`), and `new Set(array)`.
- `Catalog` (`catalog.dfy`): the product record, `Array.prototype.filter`, `filterProducts` and `displayProducts`.
- `Rating` (`rating.dfy`): `Math.round`, the clamped filled-star count, and the five-icon loop of `generateStarRating`.
- `Storefront` (`storefront.dfy`): class `CatalogController`. Its fields are the page's globals `allProducts`, `allCategories`, `currentView`, `selectedCategories`, `wishlist` and the stored wishlist array. Its methods are the handlers that change them.

Three behaviours of `main.js` worth knowing:

- A failed product request calls `showError`. `initializeShop` then calls `displayProducts(allProducts)` with the still-empty catalog. That call clears the grid and shows the "no results" placeholder, so the error message does not stay visible (main.js:32, main.js:68-71). `InitializeShop` states this.
- Toggling a category on always appends it at the end of the selection (`push`, main.js:90).
- The wishlist handler returns nothing. The new membership it shows on the button (main.js:206) is modelled as the returned value of `ToggleWishlist`.

`Storefront.SessionScenario` is a client of the controller, in the style of a test harness. It walks through one session: a failed first load, a retry, a successful load, then toggling a product twice in the wishlist. Its assertions show what callers can prove from the methods' contracts alone.

## Model

| member | source | states |
|---|---|---|
| Text.ToLower | main.js:226 | lower-casing keeps the length and maps each character through ASCII lower-casing, so no upper-case letter remains |
| Text.ToLowerIdempotent | main.js:235-236 | lower-casing an already lower-cased string changes nothing |
| Text.TrimStart | main.js:226 | the result is a suffix, starts with a non-whitespace character or is empty, and everything dropped is whitespace |
| Text.TrimEnd | main.js:226 | the result is a prefix, ends with a non-whitespace character or is empty, and everything dropped is whitespace |
| Text.Trim | main.js:226 | the result is a middle slice of the input, all of the input outside it is whitespace, and it neither starts nor ends with whitespace |
| Text.TrimEmptyIff | main.js:226 | trimming gives the empty string exactly when the input is all whitespace |
| Text.Contains | main.js:235-236 | `includes` as a left-to-right scan; `ContainsIff` states that it is true exactly when the needle occurs at some position |
| Text.ContainsSound | main.js:235-236 | when `includes` answers yes, the needle occurs at the returned position |
| Text.ContainsComplete | main.js:235-236 | wherever the needle occurs, `includes` answers yes |
| Text.ContainsIff | main.js:235-236 | `includes` is true exactly when the needle occurs at some position |
| Text.Truncate | main.js:298-301 | `truncateText`, including the `!text` guard and `substring` clamping a negative length to 0; `TruncateSpec` states its contract |
| Text.TruncateSpec | main.js:298-301 | missing or empty text gives ""; text that fits is returned unchanged; longer text gives its first `maxLength` characters plus "...", `maxLength + 3` characters in all |
| OrderedSet.IndexOf | main.js:88 | the result is -1 exactly when the value is absent, and otherwise the first position holding it |
| OrderedSet.Toggled | main.js:88-90 | remove the first occurrence (`splice`, or `Set.delete` at main.js:200) or append (`push`, or `Set.add` at main.js:201); `ToggledMultiset`, `ToggledFlips` and `ToggleAbsentTwice` state its contract |
| OrderedSet.ToggledMultiset | main.js:87-90 | toggling removes one copy of a present value or adds one copy of an absent one; every other value keeps its count |
| OrderedSet.ToggledFlips | main.js:87-90 | on a list without duplicates, toggling flips the value's membership, leaves every other value's membership unchanged, and creates no duplicates |
| OrderedSet.ToggledKeepsDistinct | main.js:89-90 | toggling a list without duplicates creates none |
| OrderedSet.MultiplicityOfDistinct | main.js:199-200 | in a list without duplicates a member occurs exactly once |
| OrderedSet.ToggleAbsentTwice | main.js:87-90 | toggling an absent value twice restores the original list exactly |
| OrderedSet.ToggleTwiceSameMembers | main.js:199-201 | toggling twice on a list without duplicates restores the same members, still without duplicates |
| OrderedSet.Distinct | main.js:6 | building a `Set` from an array gives a list without duplicates |
| OrderedSet.DistinctMembers | main.js:6 | the `Set` built from an array holds exactly the array's values |
| OrderedSet.DistinctOfDistinct | main.js:6 | an array without duplicates builds a `Set` holding exactly that array in order, so the stored wishlist reloads unchanged |
| Catalog.Filter | main.js:230 | filtering yields an order-preserving subsequence of its input, never longer |
| Catalog.FilterMembers | main.js:230 | an element is kept exactly when it is in the input and passes the test |
| Catalog.FilterCount | main.js:230 | each value occurs in the result as often as in the input when it passes, and not at all otherwise; with the subsequence property this fixes the result exactly |
| Catalog.FilterAll | main.js:227-240 | a filter whose test every element passes returns the input unchanged |
| Catalog.FilterTwice | main.js:229-237 | two filters in a row equal one filter with the conjunction of their tests |
| Catalog.NormalizeTerm | main.js:226 | lower-case then trim the search box value; `NormalizeTermEmptyIff` and `SearchCaseInsensitive` state its contract |
| Catalog.NormalizeTermEmptyIff | main.js:226 | the normalized search term is empty exactly when the search box holds only whitespace |
| Catalog.SearchCaseInsensitive | main.js:226 | the search box value and its lower-cased form give the same term, and so the same visible products |
| Catalog.InSelection | main.js:229-230 | no category selected, or the product's category is selected; `FilterProductsMembers` states its role |
| Catalog.MatchesTerm | main.js:233-237 | the term is empty, or the lower-cased title or description contains it; `FilterProductsMembers` states its role |
| Catalog.Passes | main.js:229-237 | the conjunction of both tests; `FilterProductsMembers` and `FilterProductsOnePass` state its role |
| Catalog.FilterProducts | main.js:225-241 | the visible products form an order-preserving subsequence of the catalog |
| Catalog.FilterProductsMembers | main.js:229-237 | a product is visible exactly when it is in the catalog, its category is selected (or none is), and its lower-cased title or description contains the term (or the term is empty) |
| Catalog.FilterProductsOnePass | main.js:229-237 | filtering by category and then by search equals one filter with both tests |
| Catalog.OnePass | main.js:229-237 | for a given normalized term, category then search equals one filter with both tests |
| Catalog.FilterOrderIrrelevant | main.js:229-237 | applying the search test before the category test gives the same visible products |
| Catalog.SearchThenCategory | main.js:229-237 | search then category equals one filter with both tests |
| Catalog.FilterProductsUnrestricted | main.js:226-231 | with no selection and a blank term the visible products are the whole catalog, in order |
| Catalog.FilterProductsByCategoryOnly | main.js:229-231 | with a blank term the visible products are exactly the catalog's products in a selected category, in order |
| Catalog.Display | main.js:109-117 | an empty list shows the "no results" placeholder and any other list shows its cards |
| Rating.RoundNearest | main.js:216 | `Math.round` lands within half a unit of its argument, halves going up |
| Rating.Round | main.js:216 | `Math.round` as floor of x + 0.5; `RoundNearest` states its contract |
| Rating.FilledStars | main.js:216 | the filled count is between 0 and 5 |
| Rating.FilledStarsNearest | main.js:216 | the filled count is the integer in 0..5 nearest the rating: 0 below one half, 5 from four and a half up |
| Rating.FilledStarsExamples | main.js:216 | ratings 0, 4.4, 4.6, -1, 6 and a missing rating give 0, 4, 5, 0, 5 and 0 filled stars |
| Rating.GenerateStarRating | main.js:215-223 | exactly five icons: the first `FilledStars` filled and the rest outlined, so the filled count equals `FilledStars` |
| Storefront.ArrayOrEmpty | main.js:28 | `Array.isArray(data) ? data : []` (also main.js:42); `FetchProducts` and `FetchCategories` state its use |
| Storefront.CatalogController.constructor | main.js:2-6 | start-up state: empty catalog and selection, landing view, wishlist built from the stored array with duplicates dropped |
| Storefront.CatalogController.SwitchView | main.js:52-63 | the view is landing exactly for the name "landing" and shop otherwise; a load starts exactly when entering the shop with an empty catalog; only the view changes |
| Storefront.CatalogController.FetchProducts | main.js:23-35 | a received array replaces the catalog, and a non-array body empties it; a failure leaves the catalog unchanged, returns [] and shows the error |
| Storefront.CatalogController.FetchCategories | main.js:37-50 | a received array replaces the categories, and a non-array body empties them; a failure empties them silently |
| Storefront.CatalogController.InitializeShop | main.js:65-72 | after both requests the whole catalog is displayed; a failed product load on an empty catalog ends on the "no results" placeholder |
| Storefront.CatalogController.InitializeShopFiltered | main.js:65-72 | the corrected load: the same two loads, then the grid shows the catalog filtered by the current selection and search text |
| Storefront.UnfilteredReloadShowsUnselected | main.js:71 | reloading as written while category "a" is selected shows a product of category "b", which the filter for that selection hides |
| Storefront.ReloadShowsOnlySelected | main.js:229-237 | after the corrected load every card shown passes the selected categories and the search text |
| Storefront.CatalogController.Refilter | main.js:225-241 | the grid shows the filtered catalog, an order-preserving subsequence of it, and no field changes |
| Storefront.CatalogController.ToggleCategory | main.js:87-93 | the selection becomes the toggled list, only the toggled category flips membership, no duplicates appear, and the grid is re-filtered with the new selection |
| Storefront.CatalogController.ToggleWishlist | main.js:199-213 | only the id's membership flips; the stored array becomes exactly the new wishlist; the result is the new membership |

## Findings

| source | as written | input that shows it | evidently intended | confidence | as-written member | corrected member |
|---|---|---|---|---|---|---|
| main.js:71 | a catalog load shows `displayProducts(allProducts)`, ignoring the selected categories and the search text | a failed first load, category "a" toggled on (tags load independently), then landing and back to shop with a catalog of a product in "a" and one in "b": both cards show while only "a" is highlighted | show the catalog narrowed by the current selection and search text | medium, not executed | Storefront.UnfilteredReloadShowsUnselected | Storefront.CatalogController.InitializeShopFiltered |

`InitializeShop` keeps the code's behaviour. `InitializeShopFiltered` is the corrected load, and `ReloadShowsOnlySelected` proves what it shows.

## Left out

- Network fetching and the `Promise.all` scheduling (main.js:23-50, 65-72). These are remote I/O and event-loop concerns. A response is a parameter, and the two requests are applied one after the other. A late response overwriting newer state is not modelled.
- DOM construction and styling (main.js:74-125, 127-197, 290-296). Category tags, their capitalisation and highlighting, product cards, the no-results toggling and the error HTML are presentation only. The grid is modelled as a `Grid` value.
- The `'Untitled'` title fallback and `product.rating.count` on cards (main.js:157, 165-166). These are card presentation.
- `toFixed(2)` price formatting (main.js:170, 251). This is floating-point formatting.
- The `Math.random()` id fallback (main.js:128). It is nondeterministic. Product ids are integers.
- The 200 ms search debounce and the 3000 ms toast dismissal (main.js:287, 310-313). These are timers. `Refilter` is the filter run that the debounce or the search button eventually triggers.
- The product modal, add-to-cart toast and modal close handling (main.js:243-288, 316-327). These are DOM event plumbing.
- Reading local storage (main.js:6). A stored value that is not valid JSON makes `JSON.parse` throw at start-up. The model takes the parsed array, or its absence, as a parameter.
- Text.ToLower: lower-cases ASCII letters only. Unicode case mapping is not modelled.
- JavaScript strings are UTF-16 code units. Here they are sequences of Unicode characters.
- Rating.FilledStars: a `NaN` rating (which `rating || 0` turns into 0) is not representable. The rating is an optional real.
- A missing product title or description is the empty string, which is what the filter substitutes for it (main.js:235-236).
