# Expense tracker bookkeeping, modelled in Dafny

This project models the bookkeeping core of an Express/Mongo expense tracker:

- the three record tables: Expense, Budget and Category;
- the budget-versus-spending view with its percentage and three-way status;
- the budget upsert keyed by (user, category, month, year) and the owner-scoped deletes;
- the expense listing with its total;
- the alert after an expense is inserted;
- the monthly summary grouped by category;
- the category registry;
- the older single-document server, whose User record holds one budget and an embedded list of expenses. Its helpers are modelled too: bearer-header parsing, the email check, register/login validation, the token-error mapping and the global error handler.

Amounts and limits are exact `real`s. Dates are `Calendar.Date(year, month, day, ms)` with no time zone. The JavaScript `Date` constructor's behaviour is modelled explicitly: an out-of-range month index carries into the next or previous year, and "day 0" is the last day of the previous month.

The collections live in one `Store.Database` class. It holds three `seq`s and an id counter, and `Valid()` is its invariant. `Valid()` says:

- ids are distinct and below the counter;
- no two budgets share a scope;
- every record satisfies its schema.

The route handlers that write are methods on that store. The handlers that compute are functions, and lemmas relate both to the properties the code promises. The legacy User record is a class, `LegacyLedger.User`, whose handlers assign its `budget` and `expenses` fields.

Module layout follows the program:

- `Wrappers`, `Ids`, `Folds`, `Text`, `Sorting`, `Calendar`: shared helpers;
- `CategoryModel`, `ExpenseModel`, `BudgetModel`: the schemas;
- `Store`: the collections;
- `BudgetRoutes`, `ExpenseRoutes`, `ExpenseSummary`, `CategoryRoutes`: the routers;
- `LegacyErrors`, `LegacyAuth`, `LegacyLedger`: the single-file server.

Where the code and its design description differ, the model follows the code, with one exception: the month window. The code ends a month at 23:59:59.000 of its last day, so an expense dated in the last second after that instant is left out. The route members use the corrected window that ends at 23:59:59.999; the window as written and the input it misses are under "## Findings". The other differences, where the model follows the code, include the following (the list is not exhaustive):

- **GET /api/budgets with a missing category.** The handler reads `budget.category._id` after `populate`. When a budget's category record is missing, that read throws and the request answers 500. The model returns `Err(MissingCategory)` for this case; it does not skip the budget.
- **POST /api/expenses with a missing category.** If a budget exists and the expense's category record is missing, the alert code throws after the expense was stored. The model stores the expense and then reports `Err(CategoryMissing)`.
- **Budget limit minimum.** The Budget schema refuses a limit below 1, where the design asks only for a limit greater than 0. The model refuses limits below 1.
- **Zero expense amounts.** The Expense schema's minimum is 0, so an amount of 0 is accepted for a routed expense. The model accepts it and refuses only negative amounts.
- **PUT /api/expenses validation order.** The update validators run before the document lookup. A rejected patch is reported even when the id does not exist.

## Model

| member | source | states |
|---|---|---|
| Calendar.ParsedOr | Backend/routes/budgets.js:15-16 | `parseInt(q) \|\| fallback`: a present non-zero value is used; an unparsable value (None) or 0 gives the fallback |
| Calendar.DaysInMonth | Backend/routes/budgets.js:25 | the Gregorian month length: 29 exactly for February of a leap year, 28 for other Februaries, 30 exactly for April, June, September and November |
| Calendar.FirstOfMonth | Backend/routes/budgets.js:24 | `new Date(y, mi, 1)` is a valid date on day 1 at 00:00 whose month number is `y*12 + mi`, so an out-of-range month index carries into the neighbouring year |
| Calendar.PreviousDay | Backend/routes/budgets.js:25 | the day before is a valid date strictly earlier, at the same time of day; from day 1 it is the last day of the previous month |
| Calendar.DayZeroIsLastDay | Backend/routes/budgets.js:24-25 | `new Date(y, m, 0)` lies in the same month as `new Date(y, m-1, 1)` and is its last day, for every month value `m` |
| Calendar.ConstructorYear | Backend/routes/budgets.js:24 | the Date constructor reads years 0 to 99 as 1900 to 1999 and keeps any other year |
| Calendar.InMonthWindow | Backend/routes/budgets.js:24-25 | a valid instant is in the (corrected) month window iff its month number is that of the requested, normalised month |
| Calendar.InCalendarMonth | Backend/routes/budgets.js:24-25 | for a month from 1 to 12, a valid instant is in the window iff its year and month are the requested ones |
| Calendar.InMonthWindowAsWritten | Backend/routes/budgets.js:25 | the window as written holds an instant iff the corrected window holds it and it is not after 23:59:59.000 of the last day |
| Calendar.AsWrittenMissesLastSecond | Backend/routes/budgets.js:25 | 31 March 2024 23:59:59.500 lies in March but outside the window as written |
| Calendar.DateLeTotal | FRONTEND/Backend/routes/expenses.js:28 | date order is total, transitive and antisymmetric |
| CategoryModel.FindCategory | Backend/routes/budgets.js:22 | the join by id returns a stored category with that id, and returns nothing iff no stored category has that id |
| BudgetModel.CheckLimit | FRONTEND/Backend/models/Budget.js:10-14 | the limit validators accept exactly a present limit of at least 1 and keep it; a missing limit is `LimitRequired` and one below 1 is `LimitBelowMinimum` |
| Store.Database.constructor | FRONTEND/Backend/models/Budget.js:33-36 | an empty store satisfies the table invariants, including the unique budget scope |
| BudgetRoutes.SpentNonNegative | Backend/routes/budgets.js:29-40 | over valid expenses the spent sum is never negative |
| BudgetRoutes.SpentAppend | Backend/routes/budgets.js:29-40 | one more expense adds its amount to `spent` iff it has the budget's user and category and lies in the window; otherwise `spent` is unchanged |
| BudgetRoutes.SpentIsMonthlySum | Backend/routes/budgets.js:24-40 | for a month from 1 to 12, `spent` is the sum of the amounts of the expenses with that user and category dated in that calendar month and year (0 when none match) |
| BudgetRoutes.UncappedThresholds | FRONTEND/Backend/routes/expenses.js:85-92 | for a positive limit, `spent/limit*100 >= 100` iff spent ≥ limit, and `>= 80` iff spent ≥ 0.8·limit |
| BudgetRoutes.Percentage | Backend/routes/budgets.js:41 | the percentage is at most 100; it equals spent/limit·100 when spent ≤ limit and 100 when spent ≥ limit; it is not negative for a non-negative spent |
| BudgetRoutes.BudgetStatus | Backend/routes/budgets.js:43-48 | `exceeded` iff spent ≥ limit, `warning` iff 0.8·limit ≤ spent < limit, `safe` iff spent < 0.8·limit; both boundaries inclusive |
| BudgetRoutes.Views | Backend/routes/budgets.js:27-58 | the per-budget views exist iff every budget's category record exists; there is one view per budget, in order, each the budget's view |
| BudgetRoutes.GetBudgets | Backend/routes/budgets.js:13-64 | the month and year default as parsed; the page holds one entry per budget of that user, month and year, each carrying the budget unchanged, its category (the stored record, with its name, icon and colour), `spent` over the month window, `remaining = limit - spent`, the capped percentage and the status; a missing category record is an error |
| BudgetRoutes.GetBudgetsListsScope | Backend/routes/budgets.js:18-22 | a budget appears in the page iff it is stored and has the requester, month and year of the query |
| BudgetRoutes.UpsertSetsScope | Backend/routes/budgets.js:73-77 | after the upsert the scopes stay unique, a budget with the new scope and the new limit exists, and a budget of any other scope is kept iff it was there before |
| BudgetRoutes.UpsertKeepsRecordsValid | Backend/routes/budgets.js:73-77 | the upsert keeps the ids distinct and below the next counter value, and keeps every budget valid |
| BudgetRoutes.UpsertTwice | Backend/routes/budgets.js:73-77 | two upserts of the same scope leave the table as a single upsert of the second limit would |
| BudgetRoutes.PostBudget | Backend/routes/budgets.js:69-83 | a rejected limit leaves the store unchanged; otherwise the budget table becomes the upsert of the scope, and the returned budget is stored with that scope and limit along with its category lookup |
| BudgetRoutes.DeleteBudget | Backend/routes/budgets.js:88-103 | a budget is removed iff one matches both id and owner; then that row goes and no row with the id remains; otherwise nothing changes; other tables never change |
| ExpenseModel.InputErrors | FRONTEND/Backend/models/Expense.js:5-33 | each field path is reported iff its validator fails: a missing or blank title, a missing or negative amount, an invalid date, a missing category |
| ExpenseModel.NewExpense | FRONTEND/Backend/models/Expense.js:1-37 | a create fails iff a validator fails; otherwise it stores a valid expense with the id and owner, the trimmed title and note, the amount, the category, and the given date or the creation time |
| ExpenseModel.PatchErrors | FRONTEND/Backend/routes/expenses.js:111-114 | an update is refused for a set title that trims to empty, a set negative amount or an invalid date; category is never refused |
| ExpenseModel.Patched | FRONTEND/Backend/routes/expenses.js:111-114 | the patched record is valid, keeps its id and owner, and takes each set field (strings trimmed) while keeping the rest |
| ExpenseRoutes.NewerFirstIsPreorder | FRONTEND/Backend/routes/expenses.js:28 | date-descending order is a total preorder |
| ExpenseRoutes.ListExpenses | FRONTEND/Backend/routes/expenses.js:13-36 | the listing is a permutation of the matching expenses, sorted newest first, and `total` is the sum of the listed amounts |
| ExpenseRoutes.ListedExactly | FRONTEND/Backend/routes/expenses.js:16-24 | an expense is listed iff it is stored and owned by the requester, lies in the requested month when both month and year are given, and has the category when one is given |
| ExpenseRoutes.BudgetAlert | FRONTEND/Backend/routes/expenses.js:84-97 | `exceeded` (with spent and limit) iff spent ≥ limit; `warning` (with the uncapped percentage) iff 80 ≤ spent/limit·100 < 100; no alert iff spent < 0.8·limit |
| ExpenseRoutes.AlertAgreesWithStatus | FRONTEND/Backend/routes/expenses.js:84-97 | the alert is `exceeded`, `warning` or absent exactly when the budgets view reports `exceeded`, `warning` or `safe` |
| ExpenseRoutes.AlertFor | FRONTEND/Backend/routes/expenses.js:56-98 | with no budget for the expense's scope there is no alert; with one, a missing category record is an error, and otherwise the alert is computed from the month's recomputed spent and the limit |
| ExpenseRoutes.AlertCountsNewExpense | FRONTEND/Backend/routes/expenses.js:73-84 | the recomputed spent includes the just-inserted expense: it is the earlier spent plus its amount |
| ExpenseRoutes.PostExpense | FRONTEND/Backend/routes/expenses.js:41-104 | an invalid expense is refused and nothing changes; otherwise exactly one expense owned by the requester is appended, and the alert is that of its scope |
| ExpenseRoutes.PutExpense | FRONTEND/Backend/routes/expenses.js:109-125 | the patch is refused iff it breaks a schema rule, and a refused patch changes nothing; otherwise not-found iff no expense matches both id and owner, then nothing changes; otherwise only that record is replaced by its patched form |
| ExpenseRoutes.DeleteExpense | FRONTEND/Backend/routes/expenses.js:130-145 | an expense is removed iff one matches both id and owner; otherwise nothing changes; other tables never change |
| ExpenseSummary.DistinctCategories | FRONTEND/Backend/routes/expenses.js:167-171 | the group keys are distinct, and they are exactly the categories of the matched expenses |
| ExpenseSummary.GroupsOfCovers | FRONTEND/Backend/routes/expenses.js:173-181 | every key whose category record exists gets a group (the converse is `GroupsOfMembers`) |
| ExpenseSummary.GroupsOfMembers | FRONTEND/Backend/routes/expenses.js:173-181 | every group comes from one of the keys, and its category record exists |
| ExpenseSummary.GroupTotalsPartition | FRONTEND/Backend/routes/expenses.js:166-185 | the group totals add up to the sum of the matched expenses whose category record exists |
| ExpenseSummary.MonthlySummary | FRONTEND/Backend/routes/expenses.js:150-191 | month and year default as parsed; the summary is a permutation of the month's groups, sorted by total descending, and `grandTotal` is the sum of the group totals, which is the sum of the month's expenses with a recorded category |
| ExpenseSummary.SummaryGroupsAreTotals | FRONTEND/Backend/routes/expenses.js:166-181 | every summary group carries its category record, the total and the count (at least 1) of the month's expenses in that category |
| ExpenseSummary.SummaryCoversCategories | FRONTEND/Backend/routes/expenses.js:159-183 | a category has a group iff some month expense of the requester has it and its record exists |
| ExpenseSummary.SummaryCategoriesDistinct | FRONTEND/Backend/routes/expenses.js:167-172 | no two groups share a category |
| CategoryRoutes.ListCategories | Backend/routes/categories.js:12-21 | the list is a permutation of the requester's categories, sorted by name ascending |
| CategoryRoutes.ListedCategories | Backend/routes/categories.js:14-16 | a category is listed iff it is stored and owned by the requester, as often as it is stored |
| CategoryRoutes.CreateCategory | Backend/routes/categories.js:26-41 | one category with a fresh id, the requester as owner and the given name, icon and colour is appended; expenses and budgets are unchanged |
| CategoryRoutes.PatchedCategory | Backend/routes/categories.js:48-52 | the update keeps id and owner and takes each given field, keeping the rest |
| CategoryRoutes.UpdateCategory | Backend/routes/categories.js:46-62 | not-found iff no category matches both id and owner, then nothing changes; otherwise only that record is patched and returned |
| CategoryRoutes.DeleteCategory | Backend/routes/categories.js:67-82 | a category is removed iff one matches both id and owner; otherwise nothing changes; expenses and budgets are never touched |
| CategoryRoutes.DeletedCategoryNotFound | Backend/routes/categories.js:69-72 | after the delete, the join by that id finds nothing |
| LegacyErrors.HandleError | FRONTEND/Backend/server.js:345-378 | in order: a truthy status with a message keeps its status and message; `ValidationError` 400; code 11000 400; `TokenExpiredError` 401; `JsonWebTokenError` 401; anything else 500 |
| LegacyErrors.HandledStatuses | FRONTEND/Backend/server.js:349-375 | the handler answers 500 iff the error is unrecognised or a custom one carrying 500; a non-custom error always gets 400, 401 or 500 |
| LegacyErrors.CustomNeedsStatus | FRONTEND/Backend/server.js:353-356 | a message without a status is not treated as custom and gets 500; with a truthy status it keeps its message |
| LegacyAuth.ExtractTokenAccepts | FRONTEND/Backend/server.js:86-98 | `Bearer <t>`, where `<t>` has no space, yields `<t>` trimmed |
| LegacyAuth.ExtractTokenShape | FRONTEND/Backend/server.js:86-98 | any extracted token comes from a header that starts with `Bearer ` and has no further space; the token is the rest, trimmed |
| LegacyAuth.VerifyToken | FRONTEND/Backend/server.js:57-83 | an empty trimmed token is 401 "No token provided"; otherwise the verifier's id, or 401 with "Token expired", "Malformed token" or "Invalid token" by its error |
| LegacyAuth.VerifyFailurePassesThrough | FRONTEND/Backend/server.js:70-73 | a verification failure reaches the global handler as a custom error and keeps its 401 and message |
| LegacyAuth.IsValidEmailMatchesShape | FRONTEND/Backend/server.js:101-104 | the computed check accepts exactly the strings `local@domain.tld` where each part is non-empty and has no whitespace or `@` |
| LegacyAuth.Register | FRONTEND/Backend/server.js:107-156 | a blank field is 400 "All fields are required"; success iff all fields are present, the trimmed name has at least 2 characters, the password at least 6, the normalised email has the shape and is not registered; with all fields present, each refusal is named by the first check that fails: short name, short password, "Invalid email format", "User already exists"; the account has the trimmed name, the trimmed lower-cased email, the hash and budget 0; every refusal is a 400 |
| LegacyAuth.RegisterCheckOrder | FRONTEND/Backend/server.js:120-126 | a short name is reported before a short password |
| LegacyAuth.RegisterOnce | FRONTEND/Backend/server.js:132-133 | once an email is stored, a second register with the same normalised email is refused |
| LegacyAuth.Login | FRONTEND/Backend/server.js:159-185 | missing fields are 400; otherwise the account is looked up under the trimmed, lower-cased email; success iff an account is stored under that key and the password matches, returning that account, and every other refusal is 401 "Invalid credentials" |
| LegacyAuth.RegisteredCanLogin | FRONTEND/Backend/server.js:128-185 | an account just registered (its email was not yet stored) is found by a login with the email and password it was registered with, once the password matches its hash |
| LegacyLedger.User.FromAccount | FRONTEND/Backend/server.js:137-143 | a new user record has the account's fields, budget 0 and no expenses, and is valid |
| LegacyLedger.Classify | FRONTEND/Backend/server.js:228-235 | over budget by `-remaining` (positive) iff remaining < 0; reached iff remaining = 0; within iff remaining > 0 |
| LegacyLedger.ReportAgainstBudget | FRONTEND/Backend/server.js:223-235 | `totalExpense` is the sum of all the user's expenses and `remaining = budget - totalExpense`; the report is exceeded iff total > budget, by `total - budget`, and reached iff total = budget |
| LegacyLedger.ValidTotals | FRONTEND/Backend/server.js:44-51 | over valid embedded expenses the total is not negative, so remaining never exceeds the budget |
| LegacyLedger.AppendedExpense | FRONTEND/Backend/server.js:215-224 | one more expense adds its amount to the total and takes it off the remaining budget |
| LegacyLedger.PositiveExpenseExceeds | FRONTEND/Backend/server.js:205-235 | a positive expense added to a reached or exceeded budget leaves it exceeded, by that amount more |
| LegacyLedger.Session | FRONTEND/Backend/server.js:189-190 | no usable bearer token is 401 "No token provided"; otherwise the verified id, or a 401 whose message names the verifier's error: "Token expired", "Malformed token" or "Invalid token" (from `verifyToken`, server.js:70-81, passed through the global handler, server.js:353-356) |
| LegacyLedger.CheckAddBody | FRONTEND/Backend/server.js:196-208 | a blank title or absent amount is 400 "Title and amount are required"; a title that trims to empty is 400 "Title cannot be empty"; a non-empty title with an amount that is not a number > 0 is 400 "Amount must be a positive number"; success iff the trimmed title is non-empty and the amount is a number > 0 |
| LegacyLedger.CheckAddExpense | FRONTEND/Backend/server.js:188-211 | the token check comes first, then the body, then verification; success iff all pass, carrying the verified id, the trimmed title and the amount; a 400 iff a token is present and the body is refused, and then it is the body's own error; with a token and an accepted body, a verification failure is reported as that failure |
| LegacyLedger.AcceptedExpenseValid | FRONTEND/Backend/server.js:200-219 | an accepted expense has a non-empty trimmed title and a positive amount, so it satisfies the embedded schema |
| LegacyLedger.AddExpense | FRONTEND/Backend/server.js:188-241 | a refused request changes nothing and reports the refusal; no user is 404; otherwise exactly one expense is appended with the trimmed title, the amount and the time now, the other fields stay, and the report is that of the new ledger |
| LegacyLedger.CheckLimit | FRONTEND/Backend/server.js:252-259 | a missing limit is 400 "Budget limit is required"; success iff the limit is a number ≥ 0; any other limit is 400 "Budget must be a non-negative number" |
| LegacyLedger.CheckSetBudget | FRONTEND/Backend/server.js:244-261 | the token check first, then the limit, then verification; success iff all pass, carrying the limit; with a token and an accepted limit, a verification failure is reported as that failure |
| LegacyLedger.SetBudget | FRONTEND/Backend/server.js:244-273 | a refused request changes nothing; no user is 404; otherwise only `budget` is replaced by the limit |
| LegacyLedger.Dashboard | FRONTEND/Backend/server.js:276-308 | a session failure or a missing user is reported; a verified session with a stored user always succeeds, answering with a copy of the stored document (name, email, password hash, budget, expenses) and the report of its budget and expenses |
| LegacyLedger.Reset | FRONTEND/Backend/server.js:311-337 | a session failure changes nothing; no user is 404; otherwise budget 0 and no expenses, the account fields unchanged, answering with budget 0, no expenses and zero totals |
| LegacyLedger.DashboardAfterReset | FRONTEND/Backend/server.js:276-333 | the zero totals the reset answers with are the report of the reset record, and a later dashboard of it copies the account fields and reports the budget as reached |

## Left out

- Time zones: dates have no zone, and the window is built in the same calendar as the stored dates. The server computes it in local time.
- The clock: each handler takes one `now` value. The two reads of the clock in POST /api/expenses (the schema default and `Date.now()`) are taken to agree.
- Floating point: amounts are exact reals. `toFixed` rounding of the percentage values and of the exceed amount is not modelled.
- Message text: alerts and statuses carry their kind and numbers. The emoji and currency strings and the `ValidationError` joined message are left out.
- JSON Web Tokens and bcrypt are foreign libraries. Their outcomes are parameters: `JwtOutcome`, the `hashed` string and the `matches` flag. Issuing tokens on register and login is not modelled.
- Query and body parsing: `parseInt`/`parseFloat` results are inputs (`Option<int>`, `Number`). Non-string or null fields and `toString()` on them are not modelled.
- String handling: `toLowerCase` is modelled for ASCII letters only, and lengths count code points rather than UTF-16 units.
- Mongo: connection state and events, the port retry, the shutdown handler and the database round trips are not modelled. Each handler's reads and writes are taken to be atomic.
- Concurrency: `Promise.all` over budgets is modelled as a sequential map, and concurrent upserts are not modelled.
- Express wiring: the routers, the `protect` middleware and the unmatched-route 404 are not modelled. The requester id is a parameter.
- Display joins: `populate` is modelled only as an optional lookup of the category by id.
- The Category schema (`models/Category.js`) is not part of this model. Category create and update therefore place no constraint on name, icon or colour.
- Mass assignment: PUT requests are modelled as patches of the schema fields. A body that sets `user` or `_id` is not modelled.
- A budget upsert with an absent `limit` is modelled as the schema's "limit is required" error. What the query library does with an undefined update field is not modelled.
- The browser client (`script.js`) is not modelled.
- ExpenseRoutes.AlertCountsNewExpense: stated for expenses dated outside the years 0 to 99, over the corrected month window. For the years 0 to 99 the Date constructor reads the alert scope's year as 1900 + year, so the new expense falls outside its own window. Under the window as written an expense dated from 23:59:59.001 to 23:59:59.999 of the month's last day is also outside it, and the recomputed spent does not include it.
- BudgetRoutes.GetBudgets, BudgetRoutes.SpentIsMonthlySum, ExpenseRoutes.ListExpenses, ExpenseRoutes.ListedExactly, ExpenseRoutes.AlertFor, ExpenseRoutes.AlertCountsNewExpense and ExpenseSummary.MonthlySummary: use the corrected month window, which ends at 23:59:59.999 of the last day. The code's window ends at 23:59:59.000, so these members count expenses from the last 999 milliseconds of a month that the code leaves out (see "## Findings").
- LegacyLedger.AddExpense, LegacyLedger.SetBudget, LegacyLedger.Dashboard and LegacyLedger.Reset: the lookup `findById` is a parameter: `user` is the record found for the verified id, or null.

## Findings

| source | as written | input that shows it | evidently intended | confidence | as-written member | corrected member |
|---|---|---|---|---|---|---|
| Backend/routes/budgets.js:25 | the month window ends at 23:59:59.000 of the last day, and the same end is used in FRONTEND/Backend/routes/expenses.js:20, 71 and 157 | an expense dated 31 March 2024 23:59:59.500 is left out of March's spent, listing, alert and summary | the window covers the whole last day, up to 23:59:59.999 | not executed | Calendar.AsWrittenMissesLastSecond | Calendar.InMonthWindow |
