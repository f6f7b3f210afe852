# Personal finance tracker: a Dafny model of its data core

This project models the data core of a small personal-finance web
application. The application keeps three tables per user in PostgreSQL:

- categories: a name and an income/expense type;
- transactions: an amount, description, date, type and optional category;
- monthly budgets: per expense category, month and year.

The model covers:

- the schema: primary keys, NOT NULL, CHECK, UNIQUE and foreign-key
  constraints, VARCHAR widths, the DECIMAL(12,2) and INTEGER ranges and
  the DATE range (`Schema`, `Calendar`);
- the three model objects and every query they run (`Categories`,
  `Transactions`, `Budgets`);
- the dashboard handler that combines those queries (`Dashboard`);
- the totals reducer (`Helpers`);
- database initialisation: the default categories seeded for the demo user,
  and the cascading effect of deleting a user (`InitDb`);
- the request-body validation rule arrays (`Validation`).

The database is a value of type `Store`. It holds the three tables as
sequences and the next value of each SERIAL sequence. Every statement is a
pure function from a store to a new store and a result. A failing statement
returns the first modelled error the database would raise (`DbError`) and
changes nothing; the failures outside the model are listed under
"Left out".
`Valid` states every schema constraint:

- primary keys are distinct;
- the type and month CHECK constraints hold;
- column types and widths are respected;
- both UNIQUE constraints hold;
- every category reference resolves.

Every write is proved to keep `Valid`.

Amounts are whole cents (`int`). A number entering a `DECIMAL(12,2)`
column goes through `DecimalCents`, which rounds it to two places.
`Calendar` has dates, Gregorian month lengths and the `YYYY-MM-DD` text form.

The generic modules `Basics`/`Seqs` (filter, sums, distinct keys),
`Sorting` (an insertion sort under a lexicographic key) and `Grouping`
(GROUP BY with SUM) are the relational building blocks. Several properties
rest on them:

- a GROUP BY conserves the total;
- its groups are exactly the keys present;
- ORDER BY permutes its input.

Each query is paired with an independent reference definition and an
all-inputs lemma connecting the two:

- `PeriodTotal` for the monthly summary;
- `NamedTotal` for the category summary;
- `Spent` for the budget comparison;
- `Valid` for every write.

## Model

| member | source | states |
|---|---|---|
| Schema.DecimalCents | config/init-db.js:37 | a number stored in a DECIMAL(12,2) column becomes the whole number of cents within half a cent of it, halves rounded away from zero |
| Schema.CentsRoundTrip | config/init-db.js:37 | a value that already has two fractional digits is stored exactly |
| Schema.CategoryById | models/Transaction.js:20 | the join on categories.id yields a category row carrying that id, and yields nothing exactly when no row has it |
| Schema.CategoryByIdIsLookup | config/init-db.js:24 | with distinct primary keys the join yields the one row carrying the id |
| Schema.EmptyStoreValid | config/init-db.js:22-59 | freshly created tables satisfy every constraint |
| Calendar.DaysInMonth | routes/dashboard.js:30 | a month has 28 to 31 days; February has 29 exactly in Gregorian leap years |
| Schema.Varchar | config/init-db.js:24-25 | a text fits a VARCHAR(n) column when everything past its first n characters is spaces; the stored text is then the text cut to at most n characters, unchanged when it was no longer than n |
| Schema.StoredTypeCheck | config/init-db.js:25 | the type CHECK judges the stored (cut) type exactly as it would the type sent |
| Calendar.MonthStart | routes/dashboard.js:29 | the start date is a date of the month, valid when the year is in the DATE range, on or before every other day of it |
| Calendar.MonthEnd | routes/dashboard.js:30 | the end of the month is a date of the month, valid when the year is in the DATE range, on or after every other day of it |
| Calendar.MonthRangeIsMonth | routes/dashboard.js:29-30 | a valid date lies between start and end of month (inclusive) exactly when it is in that month and year |
| Calendar.MonthStartTextIsFirstOfMonth | routes/dashboard.js:29 | the zero-padded `year-MM-01` text parses back as the first day of the month (four-digit years) |
| Calendar.ParseFormat | routes/dashboard.js:30 | parsing a formatted date gives the date back |
| Calendar.FormatParse | routes/dashboard.js:30 | formatting a parsed well-formed date text gives the text back |
| Calendar.NewestFirstKeyOrder | models/Transaction.js:51 | the newest-first sort key orders dates exactly as date descending |
| Sorting.SortBy | models/Category.js:20 | ORDER BY yields a sorted permutation of its input |
| Grouping.Groups | models/Transaction.js:185 | GROUP BY yields one row per key present, each with that key's total |
| Grouping.GroupsConserve | models/Transaction.js:182-185 | the group totals add up to the total of the grouped rows |
| Categories.GetByUser | models/Category.js:10-28 | the listing is a permutation of the user's rows (of the requested type when a non-empty type is given), in name order |
| Categories.GetById | models/Category.js:36-48 | a row is returned only when both id and owner match, and nothing is returned exactly when no row matches both |
| Categories.Create | models/Category.js:58-72 | succeeds exactly when name and type fit their VARCHAR columns (trailing spaces past the width are cut), the type is income or expense and the stored (name, user, type) is free; then it appends the row under the next id. Too long is a width error, a bad type a CHECK violation, a taken key a UNIQUE violation |
| Categories.ExcessSpacesIgnored | config/init-db.js:24 | a name of exactly 100 characters followed by a space is stored as the name alone |
| Categories.Update | models/Category.js:82-96 | a name that does not fit VARCHAR(100) is a width error whether or not a row matches; otherwise it renames only the (id, owner) row, keeping ids, types and owners of every row, and returns the row exactly when one matches; without a match nothing changes; a colliding name is a UNIQUE violation |
| Categories.Delete | models/Category.js:104-116 | removes exactly the (id, owner) row and returns true; the category's transactions lose their reference and its budgets go; without a match the store is unchanged |
| Categories.DeleteIdempotent | models/Category.js:104-116 | deleting twice is deleting once |
| Categories.CreateKeepsValid | config/init-db.js:22-31 | a successful create keeps every constraint |
| Categories.UpdateKeepsValid | config/init-db.js:29 | a successful rename keeps every constraint, the UNIQUE key included |
| Categories.DeleteKeepsValid | config/init-db.js:41-54 | deleting a category keeps every constraint (ON DELETE SET NULL for transactions, CASCADE for budgets) |
| Transactions.CategoryName | models/Transaction.js:18-20 | the LEFT JOIN yields the name of the referenced category, and NULL exactly when there is no reference or it resolves to no row |
| Transactions.CategoryNameIsLookup | models/Transaction.js:20 | with distinct category ids, the joined name is the name of the referenced row |
| Transactions.NewestFirstOrder | models/Transaction.js:51 | the listing's sort key orders transactions by date descending |
| Transactions.Ordered | models/Transaction.js:21-51 | the ordered selection is a permutation of the rows the WHERE clause selects, newest first |
| Transactions.GetByUser | models/Transaction.js:15-65 | fails with an invalid-date error exactly when a given start or end date is outside the DATE type; otherwise every listed row is the user's and passes each active filter, carries its joined category name, rows come newest first, at most `limit` rows, and without a limit the listing is a permutation of the selected rows |
| Transactions.Listing | models/Transaction.js:21-57 | the rows of an accepted listing: selected rows of the user with their category names, newest first, at most `limit`, every selected row when no limit is given |
| Transactions.LimitIsPrefix | models/Transaction.js:53-57 | the limited listing is the first `limit` rows of the unlimited one |
| Transactions.LimitAboveCount | models/Transaction.js:53-57 | a limit at or above the number of matches cuts nothing |
| Transactions.GetById | models/Transaction.js:73-88 | a row is returned only when both id and owner match, with its category name; nothing exactly when no row matches |
| Transactions.Create | models/Transaction.js:101-118 | succeeds exactly when the date is valid, the amount fits DECIMAL(12,2), the type fits VARCHAR(20) and is income or expense and the category (if any) exists; otherwise the date, range, width, CHECK or foreign-key error in the database's order |
| Transactions.Update | models/Transaction.js:131-148 | an invalid date or too wide an amount fails whether or not a row matches; otherwise it rewrites amount, description, date and category of the (id, owner) row only, keeping its type and every other row, and returns the row exactly when one matches; a dangling category on a matching row is a foreign-key error |
| Transactions.Delete | models/Transaction.js:156-168 | removes exactly the (id, owner) rows, keeps every other row and returns true |
| Transactions.DeleteIdempotent | models/Transaction.js:156-168 | deleting twice is deleting once |
| Transactions.CreateKeepsValid | config/init-db.js:34-45 | a successful create keeps every constraint |
| Transactions.UpdateKeepsValid | config/init-db.js:34-45 | a successful update keeps every constraint |
| Transactions.DeleteKeepsValid | config/init-db.js:34-45 | deleting a transaction keeps every constraint |
| Transactions.GroupTotalIsPeriodTotal | models/Transaction.js:182-185 | a monthly group's SUM is the reference total of that user's transactions of that month, type and year |
| Transactions.MonthlyGroupsFacts | models/Transaction.js:179-185 | the monthly groups have distinct (month, type) keys, exactly the keys present in the year, each with its reference total |
| Transactions.SortedByMonth | models/Transaction.js:186 | rows sorted by the month key come in ascending month order |
| Transactions.MonthlySummary | models/Transaction.js:176-195 | one row per (month, type) present in the user's year, each with its reference total, in month order |
| Transactions.FilterYearTotal | models/Transaction.js:184 | the rows selected for the year add up to the user's reference year total |
| Transactions.MonthlySummaryConserves | models/Transaction.js:176-195 | the monthly rows add up to the user's total for the year |
| Transactions.GroupTotalIsNamedTotal | models/Transaction.js:210-216 | a category group's SUM is the reference total of the period's transactions joined to that category name |
| Transactions.CategoryGroupsFacts | models/Transaction.js:208-216 | the category groups have distinct names, exactly the names present in the period, each with its reference total |
| Transactions.SortedLargestFirst | models/Transaction.js:217 | rows sorted by the total-descending key come largest first |
| Transactions.CategorySummary | models/Transaction.js:205-226 | one row per category name joined in the period for the user and type, each with its reference total, largest first |
| Transactions.FilterCategorisedTotal | models/Transaction.js:211-215 | the rows the inner join and WHERE keep add up to the reference categorised total |
| Transactions.CategorySummaryConserves | models/Transaction.js:205-226 | the category rows add up to the total of the user's categorised transactions of that type in the period |
| Budgets.Joined | models/Budget.js:15-17 | a listed budget carries the name and type of its category row |
| Budgets.ListingRows | models/Budget.js:14-34 | the joined rows are exactly the user's budgets that pass the month and year filters, in table order |
| Budgets.GetByUser | models/Budget.js:12-44 | the listed budgets are a permutation of the user's budgets that pass the filters and join a category, each with its category's name, ordered by category name |
| Budgets.SortedEntriesPermute | models/Budget.js:34 | ordering the joined rows reorders their budgets without loss or repetition |
| Budgets.ListingComplete | models/Budget.js:18-34 | reordering the selected rows loses none of them |
| Budgets.GetById | models/Budget.js:52-67 | a budget is returned only when id and owner match and its category joins; nothing exactly when no such row exists |
| Budgets.Create | models/Budget.js:79-96 | succeeds exactly when the amount and year fit, the month is 1 to 12, (month, year, category, user) is free and the category, when not NULL, exists; then it appends the row under the next id. Range, CHECK, UNIQUE and foreign-key errors in that order; a NULL category meets neither of the last two |
| Budgets.Update | models/Budget.js:106-123 | succeeds exactly when the amount fits DECIMAL(12,2), whether or not a row matches; then it changes only the amount of the (id, owner) row and returns the row exactly when one matches; without a match nothing changes |
| Budgets.Delete | models/Budget.js:131-143 | removes exactly the (id, owner) rows and returns true |
| Budgets.DeleteIdempotent | models/Budget.js:131-143 | deleting twice is deleting once |
| Budgets.DuplicateRejected | config/init-db.js:57 | a second budget for the same month, year, category and user is a UNIQUE violation |
| Budgets.NullCategoryNeverDuplicate | config/init-db.js:54-57 | two budgets without a category for the same month, year and user are both accepted, as two rows |
| Budgets.CreateKeepsValid | config/init-db.js:48-59 | a successful create keeps every constraint |
| Budgets.UpdateKeepsValid | config/init-db.js:48-59 | a successful update keeps every constraint |
| Budgets.DeleteKeepsValid | config/init-db.js:48-59 | deleting a budget keeps every constraint |
| Budgets.BudgetFor | models/Budget.js:158-162 | the LEFT JOIN finds a budget exactly when one exists for the category, month, year and user, and yields its amount |
| Budgets.FilterSpent | models/Budget.js:159-167 | the joined transactions' SUM is the reference amount spent in the category that month |
| Budgets.CompareOne | models/Budget.js:155-169 | a comparison row carries the category, its budget (or NULL), the amount spent (0 when none), and a difference that is NULL exactly when the budget is, else budget minus spent |
| Budgets.ComparisonRows | models/Budget.js:155-169 | one comparison row per expense category of the user, distinct when category ids are |
| Budgets.Comparison | models/Budget.js:152-179 | one comparison row for each of the user's expense categories, each as described for CompareOne, ordered by category name |
| Budgets.BudgetForIsTheBudget | models/Budget.js:162 | in a valid store the join finds exactly the amount of the budget with that key |
| Budgets.ComparisonWithoutBudgetOrSpending | models/Budget.js:158-168 | an expense category with no budget and no spending still appears, with NULL budget, 0 spent and NULL difference |
| Budgets.NothingSpent | models/Budget.js:159 | with no transaction of the category in the month, the spent amount is 0 |
| Dashboard.SummaryReadsStoreTotals | routes/dashboard.js:61-69 | reading a (month, type) out of the monthly summary gives the user's reference total for it; a missing row means the total is 0 |
| Dashboard.CurrentMonthTotals | routes/dashboard.js:55-71 | the month's income and expense are the summary's rows for the current month, savings their difference |
| Dashboard.Assign | routes/dashboard.js:88-90 | assigning past the end of a series extends it with holes; no other slot changes |
| Dashboard.SeriesStep | routes/dashboard.js:85-92 | each summary row overwrites exactly the slot of its month in the series of its type |
| Dashboard.ChartSeries | routes/dashboard.js:74-92 | labels are the first `currentMonth` month names; each series starts as zeros and ends holding each summary row at its month |
| Dashboard.ChartShowsStoreTotals | routes/dashboard.js:79-92 | every chart slot up to the current month shows the user's reference total for that month; later slots show either it or a hole where it is 0 |
| Dashboard.BuildDashboard | routes/dashboard.js:22-105 | the dashboard holds the current month's range; as recent transactions, the limit-5 listing, which is the first five rows of the user's full newest-first listing; the month's income, expense and savings, the chart series, both category summaries and the budget comparison |
| Dashboard.RecentShowsAllWhenFew | routes/dashboard.js:33-35 | a user with at most five transactions sees all of them as recent |
| Dashboard.SummaryRangeIsCurrentMonth | routes/dashboard.js:29-47 | the category summaries over the computed range select exactly the current month's categorised transactions of the user and type |
| Helpers.CalculateTotals | utils/helpers.js:2-14 | income is the sum of amounts typed exactly "income", expense the sum of all others, savings their difference; an empty list gives zeros |
| Helpers.SplitIsComplete | utils/helpers.js:5-8 | income plus expense is the sum of all amounts: every transaction counts once |
| Helpers.OneTransaction | utils/helpers.js:6-7 | a single transaction adds to income exactly when its type is "income", and to expense otherwise |
| InitDb.InsertIgnoring | config/init-db.js:94-97 | inserting a default category whose key is taken changes nothing; otherwise it appends the row under the next id |
| InitDb.SeedWithoutNewUser | config/init-db.js:88 | when the demo user already existed nothing is seeded |
| InitDb.SeedKeepsValid | config/init-db.js:88-107 | seeding keeps every constraint |
| InitDb.SeedProvidesDefaults | config/init-db.js:92-107 | after seeding the demo user has every default income and expense category |
| InitDb.SeedOfSeeded | config/init-db.js:93-107 | seeding a user who already has every default changes nothing |
| InitDb.SeedIdempotent | config/init-db.js:93-107 | seeding twice is seeding once |
| InitDb.DefaultsDistinct | config/init-db.js:92-101 | the default names are distinct within each type |
| InitDb.SeedOfFreshUser | config/init-db.js:88-107 | a user who owns no category receives exactly the 14 defaults |
| InitDb.DeleteUser | config/init-db.js:27-55 | after deleting a user nothing they own remains and nothing surviving references a removed category; other users' categories and budgets survive, and their transactions survive with the references to removed categories cleared; every remaining row comes from the store (transactions possibly detached), no row is added and the id sequences are untouched |
| InitDb.DeleteUserKeepsValid | config/init-db.js:22-59 | the cascade leaves every constraint satisfied |
| Validation.Failures | middleware/validation.js:6-68 | a request fails with the messages of failing rules only; it is accepted exactly when every rule passes |
| Validation.AcceptedRegistration | middleware/validation.js:6-16 | an accepted registration has a name, a recognised e-mail, a password of six or more characters by the library's count and a matching confirmation |
| Validation.MismatchedConfirmation | middleware/validation.js:10-15 | a mismatched confirmation is reported with exactly its own message when all else is right |
| Validation.ShortAndMismatched | middleware/validation.js:9-15 | a password short by the library's count together with a mismatched confirmation is reported with both messages, in rule order |
| Validation.AcceptedLogin | middleware/validation.js:21-24 | a login is accepted exactly when the e-mail is recognised and a password is present |
| Validation.AcceptedTransaction | middleware/validation.js:29-37 | an accepted transaction has an amount of at least one cent once stored and a type of income or expense |
| Validation.AcceptedTransactionPassesTypeCheck | middleware/validation.js:35 | storing an accepted transaction never meets the type CHECK or the type column width |
| Validation.CreateRulesImplyUpdateRules | middleware/validation.js:29-49 | whatever passes the create rules passes the update rules |
| Validation.UpdateRulesIgnoreType | middleware/validation.js:42-49 | the update rules ignore the type, which the create rules would reject when invalid |
| Validation.AcceptedCategory | middleware/validation.js:54-57 | a category form is accepted exactly when it has a name and a type of income or expense |
| Validation.AcceptedCategoryPassesTypeCheck | middleware/validation.js:54-57 | an accepted category never meets the type CHECK |
| Validation.AcceptedBudgetPassesMonthCheck | middleware/validation.js:62-68 | an accepted budget has a month in 1 to 12 and a year from 2000, so it never meets the month CHECK |
| Validation.YearRuleHasNoUpperBound | middleware/validation.js:66 | a year beyond the INTEGER range is accepted by the rules and then refused by the database as out of range |

## Where the model follows the code rather than the documented behaviour

- The budget comparison returns NULL for `budget_amount` and for
  `difference` when a category has no budget; the code does not return 0
  for these (`Budgets.ComparisonWithoutBudgetOrSpending`).
- The schema has no CHECK that amounts are positive. Only the request rules
  demand a positive amount, so stored amounts may be any value that fits
  DECIMAL(12,2).
- The category summary groups by category name, not by category id.
- The budget year rule has a lower bound of 2000 and no upper bound.
- `budgets.category_id` is nullable. A budget without a category is
  stored, never collides under UNIQUE, and is not listed by the inner join
  of the budget listing.

## Left out

- Floating point: JavaScript numbers and `parseFloat` are modelled as exact
  cents. The dashboard adds the summary's totals as integers.
- The wall clock: the current year and month are parameters of
  `Dashboard.BuildDashboard`.
- Routing, session handling, page rendering, flash messages and redirects:
  they are presentation around the modelled calls.
- The users table, registration, login sessions and password hashing
  (bcrypt): owners are opaque ids. Whether the demo user row was inserted
  is the `inserted` parameter of `InitDb.Seed`.
- routes/budgets.js: it calls model methods that the SQL budget model does
  not define, so it has no behaviour to model.
- The browser scripts under public/js: client-side charting only.
- SQL text construction and parameter numbering: each query is modelled by
  its meaning.
- Connection, storage and asynchronous failures: a statement either commits
  or raises one of the modelled constraint errors.
- The validator library's recognisers (`isEmail`, `isDate`, `isFloat`,
  `isInt`) and the character count `isLength` uses, which leaves out
  Unicode variation selectors: parameters of type `Checkers`.
- Text collation: ORDER BY name uses code-point order, not the database
  collation.
- Sort ties: the database leaves the order of equal keys unspecified. The
  model's stable sort fixes one order, so `Transactions.LimitIsPrefix`
  holds for that order.
- SERIAL values consumed by failed or conflicting inserts: the model
  advances a sequence only on a successful insert, and ids remain unique
  either way.
- The INTEGER range of id parameters: ids are natural numbers.
- Calendar.MonthStartTextIsFirstOfMonth: stated only for four-digit years,
  because `padStart` leaves other widths unpadded.
- Budgets.GetById: the inner join is modelled as a lookup of the
  category's first row with that id, which equals the join when category
  ids are distinct (always, in a valid store).
- Budgets.BudgetFor: takes the first matching budget. This equals the
  join's single row under the UNIQUE constraint
  (`Budgets.BudgetForIsTheBudget`).
- InitDb.Seed: the error handler around the seeding is not modelled. The
  only errors a default insert could raise are the conflicts it ignores,
  since the names fit and the types are valid.
- Created-at timestamps: no query reads them.
- Dates before year 1 (BC dates) and the other text forms PostgreSQL's date
  input accepts: a date parameter is a `Date`, valid for years 1 to 5874897
  of the Gregorian calendar.
- Transactions.CategorySummary: its period comes from the dashboard's
  month computation, and no invalid-date error is modelled for it. For a
  year outside the DATE range the database would refuse the statement.
- The nullable `user_id` columns: every insert supplies the session user,
  so owners are never NULL.
