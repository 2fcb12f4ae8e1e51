# Pharmacy point of sale — a verified model of its core logic

The application runs a pharmacy counter. Clerks (role SALES) and administrators (role
ADMIN) sign in. Clerks build a cart of drugs and submit it as a sale. The API validates
every line against the Drug table. It snapshots names and prices into line items, totals
them, and then records the sale and decrements stock as one transaction. Administrators
also see the inventory page, the revenue analytics and the user administration.

This project models that core in Dafny and proves what each piece promises:

- `sales_route.dfy` (`SalesRoute`) covers POST /api/sales. The Drug and Sale tables form
  the class `Store`. The validation loop, the decrement loop and the all-or-nothing commit
  are methods proved equal to specification functions (`Validate`, `AfterDecrement`,
  `Outcome`). The file also holds the duplicate-id finding and its correction.
- `analytics_route.dfy` (`AnalyticsRoute`) covers GET /api/analytics. It resolves the
  period to a window, selects with an inclusive filter and folds revenue, units and the
  count. The `drugSales` Map is filled in place by two nested loops. The ranking sorts
  by quantity, highest first, and keeps five.
- `sorting.dfy` (`Sorting`) is the descending sort and the `slice(0, n)` that the
  ranking and the user listing use.
- `middleware.dfy` (`Middleware`) is the route gate, a pure decision function.
- `users_route.dfy` (`UsersRoute`) covers GET/POST/PUT /api/users. The ordered checks are
  functions. The user table is the class `UserTable`, whose methods keep ids and emails
  unique.
- `roles.dfy` (`Roles`) holds the `UserRole` enum.
- `sales_page.dfy` (`SalesPage`) is the cart of the sales page: add, remove and update a
  row, the running total, the submit checks and the in-stock list.
- `inventory_page.dfy` (`InventoryPage`) holds the inventory page's search and category
  filter, the category choices, the stock and expiry badges, and the drug form's numeric
  checks.
- `js_number.dfy` (`JsNumber`) is `parseInt` in base 10, as both pages apply it.
- `wrappers.dfy` (`Wrappers`) holds `Option` and `Result`.
- `time_units.dfy` (`TimeUnits`) holds the hour and day lengths in milliseconds, which the
  analytics windows and the expiry badges share.

Money is whole minor currency units (`int`) and times are integer milliseconds. Database
ids are counters. The clock, the session, the signed token and the password hash are
parameters.

The sales handler checks neither that quantities are positive nor that repeated lines
of one drug fit its stock (see "Findings"); the sales page refuses quantities of 0 or
less on the client only (app/sales/page.tsx:111). Tied drugs in the ranking keep the
Map's insertion order.

## Model

| member | source | states |
|---|---|---|
| SalesRoute.Validate | app/api/sales/route.ts:46-75 | Definition of the validation as written: lines in order, each checked against the stock read before any decrement, stopping at the first failure. Its properties are in `ValidateSucceeds` and `ValidateFirstFailure`. |
| SalesRoute.AfterDecrement | app/api/sales/route.ts:96-106 | The Drug table after the transaction's decrements: the same drugs, each lowered by the units all lines request of it. |
| SalesRoute.Outcome | app/api/sales/route.ts:24-111 | Definition of the handler's answer: `ItemsRequired` for missing or empty items, else the validation's error, else a sale whose total is the sum of the subtotals. Its properties are in `OutcomeFailure` and `OutcomeSuccess`. |
| SalesRoute.Store.CreateSale | app/api/sales/route.ts:24-111 | POST as written: the result is the one `Outcome` describes. On success the sale is appended and every drug's stock drops by the units requested of it. On any error neither table changes. Ids stay keyed and each stored sale's total is the sum of its subtotals. |
| SalesRoute.ValidateLines | app/api/sales/route.ts:36-75 | The validation loop returns exactly `Validate`: lines in order, stopping at the first failure. The running `total` is the sum of the subtotals of the items it built. |
| SalesRoute.DecrementStock | app/api/sales/route.ts:96-106 | The decrement loop leaves every drug at its old quantity minus the units requested of it, and no other change. |
| SalesRoute.ValidateSucceeds | app/api/sales/route.ts:46-75 | Validation succeeds iff every line passes its check. The items are then the lines' snapshots, one per line, in request order. |
| SalesRoute.ValidateFirstFailure | app/api/sales/route.ts:46-63 | A failed validation reports the error of the first failing line; every earlier line passed. |
| SalesRoute.ValidateFailurePersists | app/api/sales/route.ts:51-63 | An early return: a failure within a prefix of the lines is the result for the whole list. |
| SalesRoute.OutcomeFailure | app/api/sales/route.ts:29-63 | Missing or empty `items` gives `ItemsRequired`. Otherwise a failure names the first failing line's error; every earlier line passed. |
| SalesRoute.OutcomeStatus | app/api/sales/route.ts:29-63 | A refused POST answers 404 exactly for a drug id absent from the table. It answers 400 exactly for missing items or a quantity above the stock, and then reports the available stock below the requested quantity. |
| SalesRoute.OutcomeSuccess | app/api/sales/route.ts:65-94 | A created sale has one item per line, in order. Each item snapshots the drug's name and price with `subtotal == price * quantity`. The total is the sum of the subtotals. |
| SalesRoute.ValidatedSubtotals | app/api/sales/route.ts:65-74 | Every validated item has `subtotal == price * quantity`. |
| SalesRoute.TotalAppend | app/api/sales/route.ts:37-66 | The accumulated total is additive over any split of the item list. |
| SalesRoute.AfterDecrementStep | app/api/sales/route.ts:97-106 | One more decrement changes only that line's drug, by that line's quantity. |
| SalesRoute.AfterDecrementKeyed | app/api/sales/route.ts:97-106 | Decrementing neither adds nor removes drugs and keeps each drug under its own id. |
| SalesRoute.RequestedAbsent | app/api/sales/route.ts:97-106 | A drug that no line names keeps its stock. |
| SalesRoute.RequestedMatchesItems | app/api/sales/route.ts:68-106 | Stock conservation: the units taken from each drug equal the units of that drug recorded in the sale's items. |
| SalesRoute.DistinctLinesKeepStock | app/api/sales/route.ts:47-106 | With distinct drug ids and non-negative stocks, a validated request takes at most each drug's stock and leaves no stock negative. |
| SalesRoute.DuplicateLinesOverdraw | app/api/sales/route.ts:58-106 | As written: two lines of one drug with stock 1 both pass, and the stock ends at -1. |
| SalesRoute.NegativeQuantityAccepted | app/api/sales/route.ts:58-66 | As written: a quantity of -5 passes, the total is -500 and the stock rises from 1 to 6. |
| SalesRoute.ValidateLinesChecked | app/api/sales/route.ts:46-75 | The corrected loop returns exactly `ValidateRemaining` and, on success, the total of the items and the decremented stock. |
| SalesRoute.CheckedFailure | app/api/sales/route.ts:51-63 | In the corrected loop, a line that fails against the stock the earlier lines leave decides the whole result. |
| SalesRoute.CheckedSuccess | app/api/sales/route.ts:58-75 | In the corrected loop, a line that passes adds its snapshot to the items and decrements its drug by its quantity. |
| SalesRoute.AfterDecrementNone | app/api/sales/route.ts:96-106 | With no lines, no stock changes. |
| SalesRoute.TotalSnoc | app/api/sales/route.ts:66 | One more item adds its subtotal to the running total. |
| SalesRoute.ValidateRemainingKeepsStock | app/api/sales/route.ts:58-106 | Corrected: with repeated ids as well, a validated request takes between 0 and the stock of every drug. Every stock ends between 0 and its old value. |
| SalesRoute.ValidateRemainingRefines | app/api/sales/route.ts:46-75 | Whatever the corrected validation accepts, the original accepts with identical items. |
| SalesRoute.ValidateRemainingPositive | app/api/sales/route.ts:58-66 | Corrected: every line of a request the validation accepts has a quantity above 0. |
| SalesRoute.ValidateRemainingRefusesNonPositive | app/api/sales/route.ts:46-66 | Corrected: the first line with a quantity of 0 or less, after lines that pass, gives `InvalidQuantity` for the whole request. |
| SalesRoute.ValidateRemainingFailurePersists | app/api/sales/route.ts:51-63 | The corrected loop's early return: a failing prefix decides the result. |
| SalesRoute.ValidateRemainingSnoc | app/api/sales/route.ts:46-75 | A line of the corrected loop is checked against the stock left by the lines before it. |
| SalesRoute.Store.Commit | app/api/sales/route.ts:77-108 | The transaction as one step: the new sale is appended and the decremented stock replaces the Drug table together; ids stay keyed. |
| SalesRoute.Store.CreateSaleChecked | app/api/sales/route.ts:24-111 | Corrected POST: the same all-or-nothing step as `CreateSale`, with `OutcomeChecked` as the result. Every stock stays non-negative. |
| AnalyticsRoute.TotalRevenue | app/api/analytics/route.ts:55 | Definition: the `reduce` of the selected sales' totals. Related to line subtotals by `RevenueIsSubtotals`. |
| AnalyticsRoute.TotalDrugsSold | app/api/analytics/route.ts:58-61 | Definition: the nested `reduce` of line quantities. Related to `Units` by `TotalDrugsSoldIsUnits`. |
| AnalyticsRoute.Group | app/api/analytics/route.ts:64-80 | The `drugSales` Map after visiting the lines in order; it has at most one key per line. Its keys, totals and names are characterised by `GroupKeys`, `GroupTotals` and `GroupNames`. |
| AnalyticsRoute.TopSelling | app/api/analytics/route.ts:82-84 | The top-selling list has at most five entries; `TopSellingRanks` states its order and maximality. |
| AnalyticsRoute.ReportOf | app/api/analytics/route.ts:4-97 | Definition of the JSON report: revenue, units, count and ranking over the sales in the resolved window. Its properties are in `ReportConsistent` and `EmptyWindowReport`. |
| AnalyticsRoute.ResolveWindow | app/api/analytics/route.ts:7-35 | `custom` with both dates gives exactly those dates. Otherwise the window ends now and spans between one day and 365 days. |
| AnalyticsRoute.PeriodWindows | app/api/analytics/route.ts:7-35 | The period table: 24h, 7d, 30d and 12m reach back 1, 7, 30 and 365 days. An absent, empty or unknown period, or `custom` without both dates, falls back to 24h. |
| AnalyticsRoute.SelectSales | app/api/analytics/route.ts:38-52 | The query returns no more sales than the table holds. |
| AnalyticsRoute.SelectMembers | app/api/analytics/route.ts:38-52 | A sale is selected iff it is in the table and `from <= createdAt <= to`, inclusive at both ends. |
| AnalyticsRoute.SelectSalesAppend | app/api/analytics/route.ts:38-52 | Selection keeps table order: it distributes over concatenation. |
| AnalyticsRoute.SelectNone | app/api/analytics/route.ts:38-52 | With no sale in the window, nothing is selected. |
| AnalyticsRoute.UnitsAppend | app/api/analytics/route.ts:58-61 | The unit fold is additive over concatenation. |
| AnalyticsRoute.TotalDrugsSoldIsUnits | app/api/analytics/route.ts:58-61 | The nested reduce equals the units of all lines of all selected sales. |
| AnalyticsRoute.RevenueIsSubtotals | app/api/analytics/route.ts:55 | For recorded sales, the sum of the totals is the sum of all line subtotals. |
| AnalyticsRoute.GroupByDrug | app/api/analytics/route.ts:64-80 | The nested `forEach` that fills the Map in place produces exactly `Group` of all lines, in visiting order. |
| AnalyticsRoute.VisitLines | app/api/analytics/route.ts:67-79 | The inner `forEach` over one sale's lines extends the Map the way `Group` does. |
| AnalyticsRoute.GroupKeys | app/api/analytics/route.ts:64-80 | The Map has one entry per drug id that occurs in the lines, and its key list names each such id once. |
| AnalyticsRoute.GroupKeysOrder | app/api/analytics/route.ts:64-80 | Keys are in insertion order: for an earlier key and a later one, every line of the later key comes after some line of the earlier key. |
| AnalyticsRoute.GroupTotals | app/api/analytics/route.ts:68-77 | Each entry's quantity is the sum of its id's line quantities. Its revenue is the sum of that id's subtotals. |
| AnalyticsRoute.GroupNames | app/api/analytics/route.ts:72-77 | Each entry carries the `drugName` of the first line of its id. |
| AnalyticsRoute.AbsentIdGroupsZero | app/api/analytics/route.ts:68-77 | An id on no line has zero units and zero revenue. |
| AnalyticsRoute.GroupQuantitySum | app/api/analytics/route.ts:58-80 | The grouped quantities add up to the units of all lines. |
| AnalyticsRoute.GroupRevenueSum | app/api/analytics/route.ts:64-80 | The grouped revenues add up to the sum of all line subtotals. |
| AnalyticsRoute.AddLineSum | app/api/analytics/route.ts:68-77 | Visiting one line changes the sum of a grouped field by that line's contribution. |
| AnalyticsRoute.AddLineSumExisting | app/api/analytics/route.ts:69-71 | A line of an id already in the Map changes the sum only by the change in that id's entry. |
| AnalyticsRoute.AddLineSumNew | app/api/analytics/route.ts:72-77 | A line of a new id adds its fresh entry to the sum. |
| AnalyticsRoute.AddLineName | app/api/analytics/route.ts:68-77 | One more line keeps the name of every id already in the Map and names a new id after that line. |
| AnalyticsRoute.FirstLineKept | app/api/analytics/route.ts:67-79 | The first line of an id among the earlier lines stays its first line. |
| AnalyticsRoute.FirstLineLast | app/api/analytics/route.ts:72-77 | A line whose id no earlier line has is that id's first line. |
| AnalyticsRoute.VisitStep | app/api/analytics/route.ts:67-79 | Visiting the next line of a sale groups one more line. |
| AnalyticsRoute.SumOfBump | app/api/analytics/route.ts:69-71 | Updating one existing entry shifts the sum by the change in that entry. |
| AnalyticsRoute.SumOfAgree | app/api/analytics/route.ts:64-80 | Maps that agree on the listed keys have equal sums. |
| AnalyticsRoute.GroupSnoc | app/api/analytics/route.ts:67-79 | Grouping one more line is one more `AddLine` step. |
| AnalyticsRoute.AllItemsSnoc | app/api/analytics/route.ts:66-80 | The lines of the next sale are visited after those of the earlier sales. |
| AnalyticsRoute.ValuesOfEntries | app/api/analytics/route.ts:82 | `values()` lists the entry of a key for every value. When every key has an entry, it lists exactly one per key, the entry of the i-th key at position i. |
| AnalyticsRoute.TopSellingRanks | app/api/analytics/route.ts:82-84 | Exactly five entries, or every grouped value when there are fewer. They are non-increasing in quantity and drawn from the grouped values, and nothing left out outranks anything kept. |
| AnalyticsRoute.TopSellingFromEntries | app/api/analytics/route.ts:82-84 | Every ranked entry is the grouped entry of some drug id. |
| AnalyticsRoute.GetAnalytics | app/api/analytics/route.ts:4-97 | The handler returns `ReportOf` the request and the clock. Its ranking has at most five entries, highest quantity first. |
| AnalyticsRoute.ReportUnitsConsistent | app/api/analytics/route.ts:55-93 | For every sale table, the grouped quantities sum to `totalDrugsSold` and the ranking is the top five of that grouping. |
| AnalyticsRoute.ReportConsistent | app/api/analytics/route.ts:55-93 | For sales whose total is the sum of their subtotals (the invariant `Store.Valid` keeps), the grouped revenues also sum to `totalRevenue`, beside the unit and ranking clauses. |
| AnalyticsRoute.EmptyWindowReport | app/api/analytics/route.ts:55-87 | With no sale in the window, revenue, units sold and the count are 0 and the ranking is empty. |
| Sorting.Insert | app/api/analytics/route.ts:83 | Inserting into a non-increasing list keeps it non-increasing and adds exactly the new element. |
| Sorting.ConsNonIncreasing | app/api/analytics/route.ts:83 | An element whose key is at least the head's can go in front of a sorted list. |
| Sorting.InsertFront | app/api/analytics/route.ts:83 | Keeping the head in front of the insertion into the tail is an insertion into the whole list. |
| Sorting.SortDesc | app/api/analytics/route.ts:83 | The result is non-increasing in the key and a permutation of the input. |
| Sorting.Take | app/api/analytics/route.ts:84 | `slice(0, n)`: a prefix of exactly `n` elements, or the whole list when it is shorter. |
| Sorting.TakeOfSortedIsLargest | app/api/analytics/route.ts:82-84 | The first `n` of a sorted list stay sorted, are drawn from the list, and nothing left out has a larger key. |
| Sorting.SplitMultiset | app/api/analytics/route.ts:84 | A list's elements are those of its first `n` plus the rest. |
| Sorting.PrefixBeatsSuffix | app/api/analytics/route.ts:82-84 | In a sorted list, every element of the first `n` has a key at least that of every later element. |
| Middleware.Gate | middleware.ts:6-41 | Redirect to /login with `callbackUrl = pathname` iff the path is not public and has no token. Rewrite to /unauthorized iff a SALES token asks for a non-public path under /inventory or /analytics. Otherwise `Next`. |
| Middleware.PublicPathsPass | middleware.ts:15-17 | Paths starting with /login or /api/auth pass with or without a token. This check comes before the token check. |
| Middleware.MissingTokenRedirects | middleware.ts:20-24 | Without a token, every other path redirects to /login and remembers the path. |
| Middleware.OtherRolesPass | middleware.ts:27-40 | A token with any role but SALES, unknown strings included, passes. |
| Middleware.SalesGated | middleware.ts:30-37 | A SALES token on a gated path is rewritten to /unauthorized. |
| Middleware.GatedPrefixExtends | middleware.ts:30-31 | Gating is by prefix: every extension of /inventory or /analytics is gated for SALES. |
| Middleware.SalesReachesOtherPages | middleware.ts:33-40 | A SALES token reaches every path outside the two gated prefixes. |
| Roles.ParseRole | app/api/users/route.ts:66 | `Object.values(UserRole).includes(s)`: succeeds exactly for "ADMIN" and "SALES", naming that member. |
| Roles.ParseRoleName | app/api/users/route.ts:66 | Every role's string value parses back to that role. |
| UsersRoute.CheckCreate | app/api/users/route.ts:47-83 | POST passes iff the session is ADMIN, name, email and password are non-empty, the role (SALES when omitted) is valid and the email is unused. The stored role is the one requested. |
| UsersRoute.CheckUpdate | app/api/users/route.ts:120-144 | PUT passes iff the session is ADMIN, the id and a non-empty role are given, and the role is valid. |
| UsersRoute.CheckOrder | app/api/users/route.ts:12-144 | The checks fire in order. `Unauthorized` (status 401) comes first in both handlers, then `MissingFields` (status 400). An omitted role means SALES and an empty role is invalid. |
| UsersRoute.FindById | app/api/users/route.ts:147-149 | The position found holds that id; `None` means no user has it. |
| UsersRoute.Views | app/api/users/route.ts:19-26 | Each returned row is the user's columns without the password. |
| UsersRoute.UserTable.List | app/api/users/route.ts:8-35 | Fails (401) iff the session is not ADMIN. Otherwise returns every user's password-free view, newest first, as a permutation of the table. |
| UsersRoute.UserTable.Create | app/api/users/route.ts:45-108 | On success exactly one user is appended, storing `hash(password)`; the result omits the password. Each error is the one `CheckCreate` names, with the table unchanged. Ids and emails stay unique. |
| UsersRoute.UserTable.UpdateRole | app/api/users/route.ts:118-162 | Succeeds iff `CheckUpdate` passes and a user has the id. Then only that user's role changes. An error leaves the table unchanged; a missing id is the 500 the database error gives. |
| UsersRoute.UpdateTouchesOnlyRole | app/api/users/route.ts:147-157 | A role update keeps every other field and every other user. |
| SalesPage.InStock | app/sales/page.tsx:51 | A drug is offered iff it was fetched and has quantity > 0. |
| SalesPage.InStockAppend | app/sales/page.tsx:51 | The in-stock filter keeps list order: it distributes over concatenation. |
| SalesPage.InStockIdempotent | app/sales/page.tsx:51 | Filtering twice is filtering once. |
| SalesPage.AddItem | app/sales/page.tsx:72-74 | Appends `{drugId: "", quantity: 1}` and keeps the existing rows. |
| SalesPage.RemoveItem | app/sales/page.tsx:76-78 | Removes exactly the row at the index and keeps the others in order. An index out of range changes nothing. |
| SalesPage.RemoveAddedItem | app/sales/page.tsx:72-78 | Removing the row just added gives back the earlier cart. |
| SalesPage.QuantityFrom | app/sales/page.tsx:85 | `parseInt(value) \|\| 1`: never 0. It is the parsed number when that is non-zero, and 1 for NaN or 0. |
| SalesPage.QuantityFromDecimal | app/sales/page.tsx:85 | A typed non-zero number is kept, negatives included. |
| SalesPage.QuantityFromBlank | app/sales/page.tsx:85 | An empty field or "0" becomes 1. |
| SalesPage.UpdateItem | app/sales/page.tsx:80-88 | Only the row at the index changes, and only the chosen field; an edited quantity is never 0. |
| SalesPage.Find | app/sales/page.tsx:92 | `find`: the first drug with the id, or `None` iff no drug has it. |
| SalesPage.CalculateTotal | app/sales/page.tsx:90-95 | Definition: the sum over rows of the listed drug's price times the row's quantity, 0 for a row whose drug is not listed. Its properties are in `TotalAppend`, `UnknownLineAddsNothing` and `AddItemKeepsTotal`. |
| SalesPage.TotalAppend | app/sales/page.tsx:90-95 | The running total is additive over concatenation of carts. |
| SalesPage.UnknownLineAddsNothing | app/sales/page.tsx:92-93 | A row whose drug is not listed adds 0 wherever it sits. |
| SalesPage.AddItemKeepsTotal | app/sales/page.tsx:72-95 | Adding a blank row leaves the total unchanged when no listed drug has the empty id. |
| SalesPage.CheckRow | app/sales/page.tsx:106-119 | Definition of one row's three checks in order: a drug chosen, a quantity above 0, and no more than the listed stock. |
| SalesPage.SubmitCheck | app/sales/page.tsx:100-120 | Definition: `NoItems` for an empty cart, otherwise the first failing row's error. Characterised by `SubmitPasses` and `FirstProblemPrefix`. |
| SalesPage.ValidateCart | app/sales/page.tsx:100-120 | The submit loop with its early returns returns exactly `SubmitCheck`. |
| SalesPage.SubmitPasses | app/sales/page.tsx:100-120 | The cart is sent iff it is non-empty and every row passes its three checks. |
| SalesPage.FirstProblemNone | app/sales/page.tsx:106-120 | No row fails iff every row passes. |
| SalesPage.FirstProblemPrefix | app/sales/page.tsx:106-120 | The first failing row decides the result whatever follows it. |
| SalesPage.PassingCartRows | app/sales/page.tsx:106-120 | In a sent cart each row has a drug and a positive quantity, within any listed stock. |
| SalesPage.AddItemBlocksSubmit | app/sales/page.tsx:72-120 | A freshly added blank row blocks the submit. |
| SalesPage.RepeatedDrugPassesSubmit | app/sales/page.tsx:115-119 | Rows are checked one at a time: two rows of one drug with stock 1 both pass. |
| InventoryPage.Lower | app/inventory/page.tsx:46 | `toLowerCase` keeps the length and maps each character. |
| InventoryPage.Contains | app/inventory/page.tsx:46 | `includes` is true iff the pattern occurs at some position of the text. |
| InventoryPage.EmptySearchMatches | app/inventory/page.tsx:46 | An empty search term matches every name. |
| InventoryPage.FilteredDrugs | app/inventory/page.tsx:45-49 | The filter never lists more drugs than were fetched. |
| InventoryPage.FilteredMembers | app/inventory/page.tsx:45-49 | A drug is listed iff it was fetched, its lower-cased name contains the lower-cased term, and it matches the chosen category, if any. |
| InventoryPage.MatchesWhenFilterOff | app/inventory/page.tsx:45-49 | With an empty search and no category, every drug matches. |
| InventoryPage.FilteredAppend | app/inventory/page.tsx:45-49 | The filter keeps list order: it distributes over concatenation. |
| InventoryPage.FilterOffShowsAll | app/inventory/page.tsx:45-49 | With an empty search and no category, the whole list is shown, in order. |
| InventoryPage.Categories | app/inventory/page.tsx:51 | A category is offered iff some drug carries it, non-null and non-empty. |
| InventoryPage.CategoriesDistinct | app/inventory/page.tsx:51 | The offered categories are distinct and non-empty. |
| InventoryPage.CategoriesFirstAppearance | app/inventory/page.tsx:51 | The categories come in order of first appearance in the list. |
| InventoryPage.FirstIndexOf | app/inventory/page.tsx:51 | Every offered category has a first carrier in the list. |
| InventoryPage.StockBadges | app/inventory/page.tsx:175-184 | Quantity 0 shows "Out of Stock" and 1–10 "Low Stock". Above 10 or below 0 shows neither, and never both. |
| InventoryPage.IsExpired | app/inventory/page.tsx:69-72 | Definition: a date is present and before now. |
| InventoryPage.IsExpiringSoon | app/inventory/page.tsx:74-81 | Definition: a date is present and from now to 30 days on, inclusive. |
| InventoryPage.ExpiryBadges | app/inventory/page.tsx:194-203 | "Expired" and "Expiring Soon" never both show, even when the two checks read the clock at different instants. Neither shows without a date. |
| InventoryPage.ExpiryClasses | app/inventory/page.tsx:69-81 | Read at one instant, expired (before now) and expiring soon (now up to 30 days on) exclude each other. Together they cover every date up to now + 30 days. |
| InventoryPage.CheckDrugForm | app/inventory/page.tsx:271-285 | The form is saved iff the price is a number ≥ 0 and the quantity parses to a number ≥ 0. The price is checked first. |
| InventoryPage.FormQuantities | app/inventory/page.tsx:273-285 | A typed whole number is accepted as that number. A negative number or an empty field is refused as an invalid quantity. |
| JsNumber.ParseInt | app/sales/page.tsx:85 | Definition of base-10 `parseInt`: skip white space, read one optional sign and the longest run of digits, NaN without a digit. Its round trips are `ParseIntDecimal` and `ParseIntNegativeDecimal`. |
| JsNumber.TrimStartSuffix | app/inventory/page.tsx:273 | Skipping leading white space leaves a suffix of the input that does not start with white space. |
| JsNumber.TrimStartNoSpace | app/inventory/page.tsx:273 | Text that does not start with white space is read from its first character. |
| JsNumber.LeadingDigits | app/inventory/page.tsx:273 | The digits read are all decimal digits. |
| JsNumber.LeadingDigitsMaximal | app/inventory/page.tsx:273 | The digits read are a prefix of the text, followed by a non-digit or by its end. |
| JsNumber.LeadingDigitsNonEmpty | app/inventory/page.tsx:273 | Text that starts with a digit yields at least one digit. |
| JsNumber.Unsigned | app/sales/page.tsx:85 | A leading `+` or `-` is dropped. Any other text is returned unchanged. |
| JsNumber.SignedValueMinus | app/sales/page.tsx:85 | After a minus sign, the digits that follow are read and negated. |
| JsNumber.ParseIntDigits | app/inventory/page.tsx:273 | A run of digits followed by a non-digit reads as the value of the run. |
| JsNumber.ParseIntNegativeDigits | app/sales/page.tsx:85 | The same after a minus sign, negated. |
| JsNumber.ParseMinus | app/sales/page.tsx:85 | A minus sign before text that starts with digits negates their value. |
| JsNumber.ParseIntDecimal | app/inventory/page.tsx:273 | `parseInt` reads back the decimal form of any natural number and stops at the first non-digit. |
| JsNumber.ParseIntNegativeDecimal | app/sales/page.tsx:85 | With a leading minus sign it reads back the negated number. |
| JsNumber.ParseUnsigned | app/sales/page.tsx:85 | Text starting with a digit reads as its leading digits. |
| JsNumber.ParseNegative | app/sales/page.tsx:85 | A minus sign followed by a digit negates the leading digits. |
| JsNumber.ParseIntNaN | app/sales/page.tsx:85 | Text whose first character is no digit, sign or space, or empty text, is NaN. |
| JsNumber.DecimalValue | app/sales/page.tsx:85 | The digits of a number's decimal form denote that number. |
| JsNumber.LeadingDigitsOf | app/sales/page.tsx:85 | The run of digits before a non-digit is the leading-digit prefix. |

## Left out

- Persistence and HTTP are not modelled: Prisma calls, `fetch`, `NextResponse` plumbing
  and JSON parsing. The tables are an in-memory `map`/`seq`, and responses are `Result`
  values with their statuses.
- The transaction's isolation and concurrent sales are not modelled. `$transaction` is one
  atomic step of `Store` (the `Commit` method).
- bcrypt is not modelled. The hash is a function parameter, so its salt and cost factor
  are folded into it.
- `getToken` and `getServerSession` are not modelled; the decoded token or session is a
  parameter.
- The middleware's `matcher` regex is not modelled; it is routing configuration.
- Floating point is not modelled: prices, subtotals and revenue are exact integers in
  minor units, and `toFixed(2)` is display only.
- `parseFloat` in the drug form is not modelled: `CheckDrugForm` takes the price already
  parsed, with `None` for NaN.
- JsNumber.ParseInt: the base-less call on the sales page would also read a "0x" prefix
  as hexadecimal. That is not modelled, since the quantity field is a number input, whose
  value never holds an "x". Numbers beyond 2^53 lose no precision here.
- JsNumber.IsSpace lists the space separators of the current Unicode standard (category
  Zs) by code point. A later Unicode version that adds one is not followed.
- InventoryPage.Lower lowers the ASCII letters only; Unicode case mapping is not
  modelled.
- InventoryPage.IsExpiringSoon counts thirty days as 30 × 24 hours. `setDate(+30)` is a
  calendar step in local time and can differ by a daylight-saving hour.
- InventoryPage.IsExpiringSoon reads the clock twice, once for `today` and once for
  `thirtyDaysFromNow` (app/inventory/page.tsx:76-77). The model takes one reading, `now`,
  for both, so it ignores the few milliseconds that can pass between the two calls.
- Date strings are not parsed. Expiry dates, sale times and the analytics dates are
  integer milliseconds, so an invalid date (which makes the query fail) is not
  represented.
- The analytics handler reads the clock several times; the model reads it once (`now`).
- Database ids are counters: sale ids are positions in the sale log and user ids come
  from `nextId`. A string id that is empty, and so falsy for the PUT check, is written as
  an absent id.
- SalesRoute.Store.CreateSale: a line without `drugId` makes the drug lookup throw, and a
  quantity that is not an integer number (1.5, or the string "2") passes the stock check
  and then fails the database's integer validation inside the transaction. Either way
  the handler answers 500. Such lines are not representable, because `LineRequest` holds
  a string id and an integer quantity.
- AnalyticsRoute.ReportConsistent: the revenue clause holds only for sales whose total is
  the sum of their items' subtotals. Deleting a drug (app/api/drugs/[id]/route.ts:83-86)
  cascades to its sale items and leaves `Sale.total` as it was, so after such a delete the
  grouped revenue can fall short of `totalRevenue`. The drug DELETE is not part of this
  model; `ReportUnitsConsistent` states the unit and ranking clauses for every table.
- AnalyticsRoute.SelectSales: `findMany` has no `orderBy`, so the order of the returned
  rows is not specified. The model fixes table order. That order decides the Map's key
  order, the `drugName` of each entry (its first line seen) and the order of tied drugs
  in the ranking. The sums, the key set, the per-drug totals and the ranking's bounds
  (at most five, highest quantity first, nothing left out outranks a kept entry) do not
  depend on it.
- Sorting.SortDesc: equal keys keep their input order by construction, but no contract
  states this stability. With the row order unspecified, tie order carries no promise.
- UsersRoute.UserTable.UpdateRole: Prisma's exception for an unknown id, which the
  handler turns into a 500, is modelled as the error value `UpdateFailed`.
- SalesPage.UpdateItem: the copy is shallow, so the source also changes the row object
  that the previous state shares; the model uses value semantics. The index is required
  to be in range: out of range the source throws inside the event handler, and the page
  never does that.
- The handlers' generic 500 responses for unexpected errors are not modelled.
- Not part of this model:
  - GET /api/sales;
  - the quick-stats and drugs routes;
  - the login, admin, analytics and home pages and the layout components;
  - the one-off scripts.
  They are data-access glue or rendering.

## Findings

| source | as written | input that shows it | evidently intended | confidence | as-written member | corrected member |
|---|---|---|---|---|---|---|
| app/api/sales/route.ts:58-106 | every line is checked against the stock read before any decrement, then each line is decremented | drug "a" with stock 1 and items `[{a,1},{a,1}]`: both lines pass and the stock ends at -1 | check each line against the stock the earlier lines leave, so stock never goes negative | not executed | SalesRoute.DuplicateLinesOverdraw | SalesRoute.ValidateRemainingKeepsStock |
| app/api/sales/route.ts:58-66 | nothing requires a positive quantity | items `[{a,-5}]` on stock 1: accepted with total -500, and the stock rises to 6 | refuse quantities ≤ 0 | not executed | SalesRoute.NegativeQuantityAccepted | SalesRoute.ValidateRemainingPositive |
