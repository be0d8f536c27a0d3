# life-web, modelled in Dafny

life-web is a personal-finance and personal-organisation web app built on
Next.js and SQLite. A signed-in user records income and expenses
(`transactions`). A purchase can be split into monthly parcels, and an
expense can be fixed, which repeats it for the next twelve months. The user
marks parcels paid and sees a monthly summary with the top expense categories
and a breakdown by category. Debts parked outside the budget live in the
"limbo". The user also keeps tasks and notes. Accounts are created and signed
into with a username and password.

This project models the core of that app as Dafny modules, one per source
file, plus a few shared ones:

- `Wrappers`, `Text`, `Listing` and `Http` are shared helpers:
  - `Wrappers` is an Option;
  - `Text` covers the string methods and SQLite text functions used: substring search, ASCII lower-casing, trimming, splitting, padding and decimal text;
  - `Listing` holds the filter, stable sort, sum and count over sequences that stand for SQL `WHERE`, `ORDER BY`, `SUM` and `COUNT`;
  - `Http` holds the reply codes.
- `Calendar` holds dates, the month arithmetic of `setMonth`, the month and year text of `strftime`, and `YYYY-MM-DD` text.
- `Ledger` is the `transactions` table: a class holding the rows and the next AUTOINCREMENT id.
- `Aggregates` holds the `SUM`/`COUNT`/`GROUP BY` reads shared by the summary and the category breakdown.
- Each API route is a module:
  - handlers that write are methods on the table classes, proved against pure functions that say which rows are written;
  - GET handlers are pure filter-and-sort functions.
- The client pages and components are modules of pure functions. Where the source keeps component state (`formData`, `isSubmitting`, `loading`, the limbo page's form), it is a class whose methods update that state.

Money is `real` (exact arithmetic). A date is `(year, month, day)`. "Now"
and "today" are parameters. Password hashing and tokens are symbolic: a hash
checks against exactly the password it was made from, and a token is the
payload it would sign. What a `fetch` returns, and whether `onSave`
succeeds, are parameters of the methods that await them.

## Model

| member | source | states |
|---|---|---|
| `Accounts.VerifyHash` | lib/auth.ts:40-47 | A password checks against its own hash, and no other password checks against it. |
| `Accounts.TokenFor` | lib/auth.ts:21-28 | The token carries the user's id and username. |
| `Accounts.Public` | app/api/auth/login/route.ts:41-48 | The user shown to the client has the id, username and name, and nothing else. |
| `Accounts.FindByUsername` | lib/auth.ts:69-76 | There is no result exactly when no user has the username; otherwise the result is a stored user with that username. |
| `Accounts.FindUnique` | lib/auth.ts:69-76 | In a table with unique usernames, the lookup finds the one user with that name. |
| `Accounts.UserTable.constructor` | lib/auth.ts:50-66 | The users table starts empty, with the next id 1. |
| `Accounts.UserTable.CreateUser` | lib/auth.ts:50-66 | Appends exactly one user with the next id and the hashed password, and returns that user's public part. Usernames stay unique. |
| `Ledger.IdsUnique` | app/api/transactions/route.ts:74-80 | In a consistent table, two different rows have different ids. |
| `Ledger.AppendConsistent` | app/api/transactions/route.ts:87-99 | Appending a row whose id is at least the next id, and whose parent (if any) is a row of the same owner, keeps the table consistent. |
| `Ledger.WithoutOwner` | app/api/transactions/clear/route.ts:14 | The rows left after deleting an owner's rows are exactly the other owners' rows, each as many times as before. |
| `Ledger.WithoutOwnerConsistent` | app/api/transactions/clear/route.ts:14 | Deleting one owner's rows leaves no other owner's row without its parent. |
| `Ledger.MarkPaid` | app/api/parcels/route.ts:65-73 | The update keeps the length, changes each row with the id and owner, and keeps every other row. |
| `Ledger.MarkPaidConsistent` | app/api/parcels/route.ts:65-73 | The paid update keeps the table consistent. |
| `Ledger.MarkPaidAtMostOne` | app/api/parcels/route.ts:65-73 | In a consistent table, the update changes at most one row. |
| `Ledger.MarkPaidNoMatch` | app/api/parcels/route.ts:65-75 | When no row has that id and owner, the update changes nothing. |
| `Ledger.TransactionTable.constructor` | lib/types.ts:1-16 | The table starts empty, with the next id 1. |
| `Ledger.TransactionTable.Insert` | app/api/transactions/route.ts:106-112 | An insert appends the row under the next id, returns that id and advances the counter. |
| `Ledger.TransactionTable.DeleteOwner` | app/api/transactions/clear/route.ts:14 | The rows become `WithoutOwner` of the old rows. The counter is kept. |
| `Ledger.TransactionTable.SetPaid` | app/api/parcels/route.ts:65-73 | The rows become `MarkPaid` of the old rows. The counter is kept. |
| `Aggregates.MonthRows` | app/api/summary/route.ts:22-31 | The rows of a month are exactly the caller's rows of that type whose `%m`/`%Y` text match. |
| `Aggregates.MonthTotalAppend` | app/api/summary/route.ts:22-31 | The monthly `SUM` and `COUNT` over two row lists are the sums over each list. |
| `Aggregates.MonthTotalNone` | app/api/summary/route.ts:33-36 | With no matching row, the month has no rows and totals 0 (the `|| 0` default). |
| `Aggregates.RowsOfCategory` | app/api/summary/route.ts:57-69 | A category's group is exactly the rows with that category. |
| `Aggregates.Categories` | app/api/summary/route.ts:65 | The `GROUP BY category` keys: each category of the rows appears once. |
| `Aggregates.CategoryTotalSnoc` | app/api/summary/route.ts:57-69 | A new row adds its amount to its own category's total and nothing to the others. |
| `Aggregates.CategoryTotalAbsent` | app/api/summary/route.ts:57-69 | A category no row has totals 0. |
| `Aggregates.SumOverCategoriesSnoc` | app/api/summary/route.ts:57-69 | A new row adds its amount to a sum over a set of categories exactly when its category is in the set. |
| `Aggregates.SumOverCategoriesAppend` | app/api/summary/route.ts:57-69 | Adding a category to the set adds that category's total. |
| `Aggregates.GroupTotalsSum` | app/api/categories/route.ts:20-34 | The group totals add up to the sum of all the rows' amounts. |
| `Calendar.AddMonths` | app/api/transactions/route.ts:83-84 | Moving by `k` months moves the month index by exactly `k`, keeps the day and gives a month in 1..12. |
| `Calendar.AddMonthsZero` | app/api/transactions/route.ts:83-84 | Adding 0 months (parcel 1) keeps the date. |
| `Calendar.AddMonthsAdd` | app/api/transactions/route.ts:132-133 | Adding `a` months and then `b` months is adding `a + b` months. |
| `Calendar.MonthIndexOrder` | app/page.tsx:174 | For months in 1..12, the month index orders dates by year, then by month. |
| `Calendar.AddMonthsIncreasing` | app/api/transactions/route.ts:82-101 | A larger month offset gives a strictly later date. |
| `Calendar.AddMonthsValid` | app/api/transactions/route.ts:128-147 | A valid date stays valid after the move, as long as the year stays in range. |
| `Calendar.InMonthLeadingZero` | app/api/transactions/route.ts:27-30 | The month parameters "3" and "03" select the same dates (`padStart(2, '0')`). |
| `Calendar.MonthNumberText` | app/api/summary/route.ts:30 | A month number from 1 to 12, padded to two digits, is its `%m` text. |
| `Calendar.YearNumberText` | app/api/summary/route.ts:28-30 | A four-digit year number is its `%Y` text. |
| `Calendar.InMonthOfNumbers` | app/summary/page.tsx:31 | Asking with a month number and a year number selects exactly the dates of that month and year. |
| `Calendar.StartOfBefore` | components/TaskCard.tsx:85 | `new Date('YYYY-MM-DD') < now` holds exactly when the date is before today, or is today and midnight has passed. |
| `Calendar.DateText` | app/api/transactions/route.ts:94 | The `toISOString().split('T')[0]` text has ten characters, with dashes at positions 4 and 7. |
| `Calendar.DateOfText` | app/api/transactions/route.ts:71 | Reading `YYYY-MM-DD` text gives a valid date, or nothing. |
| `Calendar.DateTextRoundTrip` | app/api/transactions/route.ts:71-94 | A date's text reads back as the same date. |
| `Calendar.TextOfDate` | app/api/transactions/route.ts:71-94 | A text that reads as a date is that date's text. |
| `TransactionsRoute.Parcels` | app/api/transactions/route.ts:82-101 | Exactly N parcel rows. |
| `TransactionsRoute.FollowUps` | app/api/transactions/route.ts:130-146 | Exactly 12 follow-up rows. |
| `TransactionsRoute.ParcelAt` | app/api/transactions/route.ts:82-101 | Parcel `k + 1` has the id that follows the anchor's by `k + 1`. |
| `TransactionsRoute.FollowUpAt` | app/api/transactions/route.ts:130-146 | Follow-up `k + 1` is dated `k + 1` months after the origin, with the id after it. |
| `TransactionsRoute.CreateFixedTransactions` | app/api/transactions/route.ts:128-147 | The loop appends exactly the twelve follow-ups and advances the counter by 12. The table stays consistent. |
| `TransactionsRoute.InsertParcels` | app/api/transactions/route.ts:82-101 | The parcel loop appends exactly parcels 1..N linked to the anchor, advances the counter by N and keeps the table consistent. |
| `TransactionsRoute.Post` | app/api/transactions/route.ts:49-125 | Answers the reply of the validation chain. Appends exactly `PostRows` for a signed-in caller, and nothing otherwise. |
| `TransactionsRoute.PostRejected` | app/api/transactions/route.ts:59-66 | Nothing is written exactly when a field is missing (an amount of 0 included) or the request is both fixed and parceled. The reply is OK exactly when rows are written, and it carries the first row's id. |
| `TransactionsRoute.PostRowCount` | app/api/transactions/route.ts:69-119 | An accepted POST writes 1 + N rows when split into parcels, 13 when fixed, and 1 otherwise. |
| `TransactionsRoute.PostRowsOwnedAndNumbered` | app/api/transactions/route.ts:74-112 | Every written row belongs to the caller. Their ids run consecutively from the table's next id. |
| `TransactionsRoute.PostRowsLinks` | app/api/transactions/route.ts:87-99 | The first row written has no parent, and every later row links to it. |
| `TransactionsRoute.PostRowsConsistent` | app/api/transactions/route.ts:69-119 | Appending the rows of a POST keeps the table consistent. |
| `TransactionsRoute.ParceledRows` | app/api/transactions/route.ts:69-103 | The anchor and the parcels. The anchor has the full amount, `is_parceled = 0`, N parcels, and no parent or parcel number. Parcel `i` is "desc (i/N)", has amount/N, `is_parceled = 1` and `current_parcel = i`, links to the anchor, keeps the request's `paid`, and is dated `i - 1` months later. |
| `TransactionsRoute.ParcelsSumToAmount` | app/api/transactions/route.ts:82-101 | The parcels' amounts add up to the purchase's amount. |
| `TransactionsRoute.ParcelsMonthly` | app/api/transactions/route.ts:83-84 | Later parcels have strictly later dates. |
| `TransactionsRoute.PlainRows` | app/api/transactions/route.ts:104-147 | One row with `is_parceled = 0`, `total_parcels = 1` and `current_parcel = 1`. When the request is fixed, twelve more follow, each with the same description, amount, type and category. Follow-up `k` links to the first row, is fixed and unpaid, and is dated `k` months later. |
| `TransactionsRoute.NewestFirstTotalPreorder` | app/api/transactions/route.ts:37 | `ORDER BY date DESC, created_at DESC` is a total preorder. |
| `TransactionsRoute.ListRows` | app/api/transactions/route.ts:19-37 | The listing holds exactly the caller's rows with `is_parceled` 0, of the month when both month and year are given, and of the type when one is given. Each row appears as often as in the table, newest first. |
| `TransactionsRoute.Get` | app/api/transactions/route.ts:7-46 | 401 exactly without a user. Otherwise the listing, each row with its `category_color` from the left join. |
| `TransactionsRoute.ListedMonthLeadingZero` | app/api/transactions/route.ts:27-30 | "3" and "03" list the same rows. |
| `TransactionsRoute.ListedNeedsMonthAndYear` | app/api/transactions/route.ts:27 | A month without a year, or a year without a month, restricts nothing. |
| `TransactionsRoute.ListingShowsAnchorNotParcels` | app/api/transactions/route.ts:37 | After a parceled POST, the listing shows the anchor (when month and type match) and never a parcel. |
| `TransactionsRoute.ListingOnlyOwnRows` | app/api/transactions/route.ts:19-24 | Another user's row is never listed. |
| `ParcelsRoute.EarliestFirstTotalPreorder` | app/api/parcels/route.ts:40 | `ORDER BY t.date ASC` is a total preorder. |
| `ParcelsRoute.ListParcels` | app/api/parcels/route.ts:18-42 | Exactly the caller's rows with `is_parceled = 1` and a parent, passing the month filter (when both month and year are given) and the status filter, earliest first. |
| `ParcelsRoute.Get` | app/api/parcels/route.ts:6-49 | 401 exactly without a user. Otherwise the listing, each parcel with its `category_color` from the left join. |
| `ParcelsRoute.StatusPartition` | app/api/parcels/route.ts:34-38 | The 'pending' and 'overdue' listings are disjoint, and together they are the unfiltered listing. |
| `ParcelsRoute.OtherStatusKeepsAll` | app/api/parcels/route.ts:34-38 | Any other status applies no date filter. |
| `ParcelsRoute.ParcelListedMonthLeadingZero` | app/api/parcels/route.ts:29-32 | "3" and "03" list the same parcels. |
| `ParcelsRoute.Put` | app/api/parcels/route.ts:52-80 | 401 without a user and 400 for a falsy id or a non-boolean `paid`, with no write in either case. Otherwise the rows become `MarkPaid` and the reply is success. |
| `ParcelsRoute.PutEffect` | app/api/parcels/route.ts:65-73 | The caller's row with that id gets `paid`, and `paid_at` exactly when paid is true; its other columns are kept. Every other row is unchanged. |
| `ParcelsRoute.PutWithoutMatch` | app/api/parcels/route.ts:65-75 | With no matching row, the reply is still success and nothing changes. |
| `LegacyParcels.AllParcels` | route.ts:7-13 | Exactly the rows with `is_parceled = 1`, of every owner, earliest first. |
| `LegacyParcels.AllParcelsUnscoped` | route.ts:7-11 | A row is listed exactly when it is parceled, whoever owns it and whether or not it has a parent. |
| `LegacyParcels.ScopedListingIncluded` | route.ts:7-11 | Every user's scoped parcels listing is contained in this one. |
| `SummaryRoute.PendingIsParcelsListing` | app/api/summary/route.ts:39-54 | The pending parcels are the 'pending' parcels listing with no month: they are not limited to the requested month. |
| `SummaryRoute.PendingParcelsSpec` | app/api/summary/route.ts:39-54 | Exactly the caller's parcel rows dated today or later, each with a parent, earliest first. |
| `SummaryRoute.Groups` | app/api/summary/route.ts:57-65 | One group per category, holding that category's total and count. |
| `SummaryRoute.LargerTotalTotalPreorder` | app/api/summary/route.ts:66 | `ORDER BY total DESC` is a total preorder. |
| `SummaryRoute.SortedGroups` | app/api/summary/route.ts:57-66 | The groups, largest total first. |
| `SummaryRoute.TopCategories` | app/api/summary/route.ts:57-69 | At most 5 groups, largest first. Each is a category of the month's expense rows, with its exact total and count. |
| `SummaryRoute.TopCategoriesDistinct` | app/api/summary/route.ts:65 | The kept groups have distinct categories. |
| `SummaryRoute.TopCategoriesLargest` | app/api/summary/route.ts:66-67 | When a category is left out, five were kept, and none of them has a smaller total. |
| `SummaryRoute.Summary` | app/api/summary/route.ts:6-89 | 401 without a user and 400 without month or year. Otherwise the income and expense totals, a balance of income − expense, the income and expense counts, a count of income + expense, `parseInt` of the month and the year, the pending parcels and the top categories. |
| `SummaryRoute.SummaryCountsMonthRows` | app/api/summary/route.ts:22-36 | When every row is income or expense, the reply's transaction count is the number of the caller's rows in the month. |
| `SummaryRoute.SummaryEchoesMonth` | app/api/summary/route.ts:73-74 | A month and year sent as numbers come back in the reply as those numbers. |
| `SummaryRoute.TransactionCountIsMonthRows` | app/api/summary/route.ts:35-36 | When every row is income or expense, the transaction count is the number of the caller's rows in the month. |
| `SummaryRoute.MonthTotalSingle` | app/api/summary/route.ts:22-31 | A single row adds its amount to its own type and month, and nothing elsewhere. |
| `SummaryRoute.LaterParcelsOutsideMonth` | app/api/transactions/route.ts:83-84 | Parcels 2..N fall after the purchase's month. |
| `SummaryRoute.MonthTotalCountsAnchorAndFirstParcel` | app/api/summary/route.ts:22-31 | With no `is_parceled` filter, the total of the purchase's month counts the anchor's full amount plus the first parcel. |
| `CategoriesRoute.CategoriesWithoutOwner` | app/api/transactions/clear/route.ts:17 | Exactly the other owners' categories remain. |
| `CategoriesRoute.CategoryTable.constructor` | app/api/categories/route.ts:77-81 | The table starts empty. |
| `CategoriesRoute.CategoryTable.Insert` | app/api/categories/route.ts:77-88 | Refused exactly when the owner already has the name. Otherwise one row is appended under the next id. |
| `CategoriesRoute.CategoryTable.DeleteOwner` | app/api/transactions/clear/route.ts:17 | The rows become `CategoriesWithoutOwner` of the old rows. |
| `CategoriesRoute.StoredColor` | app/api/categories/route.ts:80 | The colour as given, or the default when it is empty. Never empty. |
| `CategoriesRoute.Post` | app/api/categories/route.ts:63-92 | 401, 400 without a name or type, 400 "Categoria já existe" for a duplicate, otherwise exactly one row appended. Nothing is written on a refusal. |
| `CategoriesRoute.PostNameUnique` | app/api/categories/route.ts:77-88 | After an accepted POST, the caller has exactly one category of that name. |
| `CategoriesRoute.NameOrderTotalPreorder` | app/api/categories/route.ts:51 | `ORDER BY name ASC` is a total preorder. |
| `CategoriesRoute.ListCategories` | app/api/categories/route.ts:43-55 | Exactly the caller's categories (of the type, when one is given), by name. |
| `CategoriesRoute.ColorOf` | app/api/categories/route.ts:27 | The left join finds a colour exactly when the caller has a category with that name, and the colour is that category's. |
| `CategoriesRoute.JoinColors` | app/api/transactions/route.ts:19-22 | Every listed row is kept, in place. Its colour is present exactly when its owner has a category of that name, and is then that category's colour. |
| `CategoriesRoute.Percentage` | app/api/categories/route.ts:25 | NULL exactly when the denominator is 0. Otherwise the percentage times the denominator is the total times 100. |
| `CategoriesRoute.LargerSpendingTotalPreorder` | app/api/categories/route.ts:33 | `ORDER BY total DESC` is a total preorder. |
| `CategoriesRoute.Breakdown` | app/api/categories/route.ts:20-37 | The entries, largest total first. |
| `CategoriesRoute.EntriesSum` | app/api/categories/route.ts:24 | The entries' totals add up to the sum over their categories. |
| `CategoriesRoute.BreakdownSum` | app/api/categories/route.ts:20-34 | The breakdown's totals add up to the month's expenses with `is_parceled` 0. |
| `CategoriesRoute.DenominatorSplits` | app/api/categories/route.ts:25-31 | The denominator is the breakdown's rows plus the month's parcel expenses. |
| `CategoriesRoute.BreakdownWithinDenominator` | app/api/categories/route.ts:25-31 | With non-negative parcel amounts, the breakdown totals stay within the denominator, so the percentages add up to at most 100. |
| `CategoriesRoute.BreakdownEntries` | app/api/categories/route.ts:20-34 | Each entry is one category of the month's non-parceled expenses, with its total, its colour and its share. |
| `CategoriesRoute.BreakdownCovers` | app/api/categories/route.ts:20-33 | `GROUP BY` gives one entry per category: every category of the month's non-parceled expenses has an entry, and no category has two. |
| `CategoriesRoute.Get` | app/api/categories/route.ts:6-60 | 401 without a user. The breakdown when month and year are both given, otherwise the plain list. |
| `ClearRoute.Clear` | app/api/transactions/clear/route.ts:6-27 | 401 with nothing deleted, or success with the caller's transactions, categories and limbo debts removed. Counters, tasks and notes are untouched. |
| `ClearRoute.ClearEffect` | app/api/transactions/clear/route.ts:14-20 | Afterwards the caller owns nothing in the three tables, and every other owner's row is kept as often as before. |
| `ClearRoute.ClearIdempotent` | app/api/transactions/clear/route.ts:14-20 | Clearing twice is clearing once. |
| `TasksRoute.TaskTable.constructor` | app/api/tasks/route.ts:66-70 | The table starts empty. |
| `TasksRoute.TaskTable.Insert` | app/api/tasks/route.ts:66-70 | Appends the task under the next id. |
| `TasksRoute.TaskBeforeTotalPreorder` | app/api/tasks/route.ts:40 | `ORDER BY priority DESC, due_date ASC, created_at DESC` is a total preorder. |
| `TasksRoute.ListTasks` | app/api/tasks/route.ts:18-42 | Exactly the caller's tasks passing each filter that is set, in that order. |
| `TasksRoute.Get` | app/api/tasks/route.ts:6-49 | 401 exactly without a user. Otherwise the listing. |
| `TasksRoute.ListTasksOwnRows` | app/api/tasks/route.ts:18-23 | Only the caller's tasks are listed. |
| `TasksRoute.UnsetFiltersKeepAll` | app/api/tasks/route.ts:25-38 | With status, priority and category absent or 'all', every task of the caller is listed. |
| `TasksRoute.TagFilterDropsUntagged` | app/api/tasks/route.ts:35-38 | A category filter drops every task without tags. |
| `TasksRoute.HighPrioritySortsLast` | app/api/tasks/route.ts:40 | Compared as text, 'high' sorts after 'low', 'medium' and 'urgent', whatever the due dates. |
| `TasksRoute.PriorityTextOrder` | app/api/tasks/route.ts:40 | 'urgent' sorts before 'medium', which sorts before 'low'. |
| `TasksRoute.StoredTask` | app/api/tasks/route.ts:66-70 | The caller's row with the title. Description, tags and due date are NULL exactly when empty. The priority is 'medium' when empty. |
| `TasksRoute.Post` | app/api/tasks/route.ts:52-77 | 401 or 400 without a title, with no write. Otherwise exactly the stored task is appended. |
| `TasksRoute.PostedTaskListed` | app/api/tasks/route.ts:52-77 | A created task shows up in its owner's unfiltered listing. |
| `NotesRoute.NoteTable.constructor` | app/api/notes/route.ts:54-58 | The table starts empty. |
| `NotesRoute.NoteTable.Insert` | app/api/notes/route.ts:54-58 | Appends the note under the next id. |
| `NotesRoute.ListNotes` | app/api/notes/route.ts:16-31 | Exactly the caller's notes matching the search (title or content) and the tag, most recently updated first. |
| `NotesRoute.Get` | app/api/notes/route.ts:5-38 | 401 exactly without a user. Otherwise the listing. |
| `NotesRoute.ListNotesOwnRows` | app/api/notes/route.ts:16-17 | Only the caller's notes are listed. |
| `NotesRoute.SearchMatchesTitle` | app/api/notes/route.ts:19-22 | A note whose title contains the search is listed, even when its content is NULL. |
| `NotesRoute.TagAllIsNoTag` | app/api/notes/route.ts:24-27 | The tag 'all' filters nothing. |
| `NotesRoute.StoredNote` | app/api/notes/route.ts:54-58 | Content and tags are NULL exactly when empty. The colour is the default when empty. |
| `NotesRoute.Post` | app/api/notes/route.ts:40-65 | 401 or 400 without a title, with no write. Otherwise exactly the stored note is appended. |
| `LimboRoute.DebtsWithoutOwner` | app/api/transactions/clear/route.ts:20 | Exactly the other owners' debts remain. |
| `LimboRoute.DebtTable.constructor` | app/api/limbo/route.ts:36-39 | The table starts empty. |
| `LimboRoute.DebtTable.Insert` | app/api/limbo/route.ts:36-39 | Appends (id, caller, description, amount) under the next id. |
| `LimboRoute.DebtTable.DeleteOwner` | app/api/transactions/clear/route.ts:20 | The rows become `DebtsWithoutOwner` of the old rows. |
| `LimboRoute.ListDebts` | app/api/limbo/route.ts:13 | Exactly the caller's debts, newest first. |
| `LimboRoute.Get` | app/api/limbo/route.ts:6-19 | 401 exactly without a user. Otherwise the listing. |
| `LimboRoute.ListDebtsOwnRows` | app/api/limbo/route.ts:13 | A debt is listed exactly when it is the caller's. |
| `LimboRoute.Post` | app/api/limbo/route.ts:22-46 | 401 or 400 for an empty description or an amount of 0, with no write. Otherwise exactly one debt is appended and its id returned. |
| `LimboRoute.PostThenList` | app/api/limbo/route.ts:36-41 | After an accepted POST, the caller's listing gains exactly the new debt. |
| `RegisterRoute.Register` | app/api/auth/register/route.ts:4-51 | The chain of checks. At most one user is created, and only when every check passes. |
| `RegisterRoute.PasswordCheckedFirst` | app/api/auth/register/route.ts:15-27 | A request with both a short password and a short username hears about the password. |
| `RegisterRoute.RegisterSucceedsIff` | app/api/auth/register/route.ts:8-51 | Success exactly when the fields are present, the password has at least 6 characters, the username at least 3, and the username is free. The reply is 409 exactly when only the username is taken. The token and the user carry the new id and username. |
| `LoginRoute.LoginSucceedsIff` | app/api/auth/login/route.ts:8-48 | Success exactly when both fields are present and the password verifies against the stored user with that username. The session is that user's. |
| `LoginRoute.FailuresLookAlike` | app/api/auth/login/route.ts:16-31 | An unknown username and a wrong password get the same 401. |
| `LoginRoute.RegisterThenLogin` | app/api/auth/login/route.ts:16-48 | After registering, logging in with the same credentials answers the same session. |
| `LoginRoute.FindAfterFresh` | lib/auth.ts:69-76 | A username no earlier user has is found in the user appended for it. |
| `TransactionFormModel.Initial` | components/TransactionForm.tsx:14-23 | A fresh form is neither fixed nor parceled and proposes 2 parcels. |
| `TransactionFormModel.Changed` | components/TransactionForm.tsx:78-96 | Never both flags. Setting fixed clears parceled, and setting parceled clears fixed. |
| `TransactionFormModel.ChangedTouchesOnlyItsField` | components/TransactionForm.tsx:78-96 | A change sets its own field and, at most, clears the other flag. |
| `TransactionFormModel.ParcelCountEdit` | components/TransactionForm.tsx:291-296 | Only '' or a count from 2 to 24 is taken. |
| `TransactionFormModel.SubmittedCount` | components/TransactionForm.tsx:65 | At least 2 when parceled (the typed count when it is at least 2), and 1 otherwise. |
| `TransactionFormModel.Submit` | components/TransactionForm.tsx:62-68 | The form's fields, with `current_parcel` 1, `paid` false and the normalised count. |
| `TransactionFormModel.SubmissionAgreesWithServer` | components/TransactionForm.tsx:62-68 | A submission is never refused as fixed and parceled. It splits into parcels on the server exactly when the form is parceled. |
| `TransactionFormModel.TransactionForm.constructor` | components/TransactionForm.tsx:14-23 | The initial state. |
| `TransactionFormModel.TransactionForm.HandleInputChange` | components/TransactionForm.tsx:78-96 | `formData` becomes `Changed(old formData)`, and "not both flags" is kept. |
| `TransactionFormModel.TransactionForm.ParcelCountInput` | components/TransactionForm.tsx:291-296 | An accepted edit sets the count. Any other edit leaves the state as it was. |
| `TransactionFormModel.TransactionForm.HandleSubmit` | components/TransactionForm.tsx:57-76 | The payload is never both fixed and parceled, and has at least 2 parcels when parceled. |
| `ParcelsPage.FilteredParcels` | app/parcels/page.tsx:85-89 | Exactly the parcels the tab keeps, each as often as in the list. |
| `ParcelsPage.CountersPartition` | app/parcels/page.tsx:91-92 | `totalPending + totalOverdue` is the number of parcels. |
| `ParcelsPage.TabsPartition` | app/parcels/page.tsx:85-89 | The pending and overdue tabs split the list, and 'all' is the list. |
| `ParcelsPage.PaidNotOverdue` | app/parcels/page.tsx:81-83 | A paid parcel is pending and never overdue, however old. |
| `ParcelsPage.TotalAmountSplits` | app/parcels/page.tsx:93 | The unpaid total is the unpaid overdue amount plus the unpaid amount not yet due. |
| `ParcelsPage.MarkAsPaidRequest` | app/parcels/page.tsx:48-60 | Nothing for an id not in the list. Otherwise the first listed parcel with that id, with `paid` set. |
| `ParcelsPage.MarkAsPaidChangesOnlyPaid` | app/parcels/page.tsx:59 | The request changes nothing but `paid`, which it sets to true. |
| `HomePage.Value` | app/page.tsx:176 | The option value is `YYYY-MM`. |
| `HomePage.OptionAt` | app/page.tsx:174-180 | Each option has a month in 1..12. |
| `HomePage.Generated` | app/page.tsx:168-181 | 48 options. |
| `HomePage.GeneratedRange` | app/page.tsx:168-181 | Exactly the months from January two years ago to December next year, in calendar order. |
| `HomePage.CompareIsRank` | app/page.tsx:184-206 | The comparator orders the options by rank: the current month, then later months of the year, then earlier ones, then other years, latest first. |
| `HomePage.OptionOrderTotalPreorder` | app/page.tsx:184-206 | The comparator is a consistent order. |
| `HomePage.CompareMeaning` | app/page.tsx:189-205 | The current year comes before the others, and the current month before everything. Within the year, later months come first, then earlier ones, each by month. Other years come latest first, and their months tie. |
| `HomePage.SortedOptions` | app/page.tsx:184-206 | The sorted options are a permutation of the range, in the comparator's order. |
| `HomePage.CurrentMonthFirst` | app/page.tsx:189-192 | The current month of the current year is the first option. |
| `HomePage.GenerateMonthOptions` | app/page.tsx:168-207 | The loop with `setMonth` builds the 48 options, which are then sorted. The first is the current month. |
| `HomePage.SelectOption` | app/page.tsx:209-212 | Choosing an option selects day 1 of its month. |
| `Calendar.DaysInMonth` | app/page.tsx:156-166 | 28 to 31 days: 29 in February exactly in leap years, 31 or 30 by month. |
| `Calendar.SetMonth` | app/page.tsx:158-163 | `setMonth` keeps the day when the target month has it and moves exactly `k` months. Otherwise the surplus days spill into the following month. The result is a real date. |
| `HomePage.ChangeMonthAsWritten` | app/page.tsx:156-166 | The arrows as written give a real date. |
| `HomePage.ChangeMonthAsWrittenMoves` | app/page.tsx:156-166 | The arrows as written move exactly one month exactly when the neighbouring month has the shown day. |
| `HomePage.ChangeMonthAsWrittenMissesAMonth` | app/page.tsx:156-166 | From 31 May, next shows July; from 31 March, previous stays in March. |
| `HomePage.ChangeMonth` | app/page.tsx:156-166 | The corrected arrows move exactly one month back or forward. They keep the day when that month has it and otherwise take the month's last day. A real date stays real. |
| `HomePage.ChangeMonthBackAndForth` | app/page.tsx:156-166 | With the corrected arrows, back then forward, or forward then back, returns to the same month. On a day every month has (1 to 28), it returns the same date. |
| `SummaryPage.FetchMonthlyData` | app/summary/page.tsx:26-45 | Twelve entries, for months 1..12 in order, of the selected year, each with that month's reply. |
| `SummaryPage.AnnualTotals` | app/summary/page.tsx:62-64 | The annual balance is the annual income less the annual expense. |
| `SummaryPage.AnnualBalanceIsSumOfBalances` | app/summary/page.tsx:62-64 | When each month's balance is its income less its expense, the annual balance is the sum of the monthly balances. |
| `SummaryPage.SumByDifferenceOn` | app/summary/page.tsx:62-64 | The sum of the monthly balances is the income sum less the expense sum. |
| `SummaryPage.EmptyYear` | app/summary/page.tsx:62-64 | A year with no amounts totals zero. |
| `SummaryPage.SumByConstantZero` | app/summary/page.tsx:62-63 | Zero monthly amounts add up to zero. |
| `SummaryPage.KeyOrderTotalPreorder` | app/summary/page.tsx:146-160 | The month key order is a total preorder. |
| `SummaryPage.CompareIsKey` | app/summary/page.tsx:146-160 | For one year, the comparator agrees with the key order. |
| `SummaryPage.DisplayedByKey` | app/summary/page.tsx:145-160 | The list shown is a permutation of the data, sorted by the key. |
| `SummaryPage.OtherYearInCalendarOrder` | app/summary/page.tsx:158-159 | A year other than the current one is shown January to December. |
| `SummaryPage.CurrentMonthShownFirst` | app/summary/page.tsx:152-155 | In the current year, the current month is shown first. |
| `SummaryPage.MonthName` | app/summary/page.tsx:54-60 | A name exactly for months 1..12. |
| `SummaryPage.MonthNamesDistinct` | app/summary/page.tsx:55-58 | The twelve names are distinct, from 'Jan' to 'Dez'. |
| `SummaryPage.YearOptions` | app/summary/page.tsx:130-137 | This year and the four before it, latest first. |
| `TasksPage.FilteredTasks` | app/tasks/page.tsx:47-54 | Exactly the tasks the predicate keeps. |
| `TasksPage.FilteredTasksInOrder` | app/tasks/page.tsx:47 | The filter keeps the fetched order. |
| `TasksPage.NoActiveFilterShowsAll` | app/tasks/page.tsx:48-53 | With no active filter, every task is shown. |
| `TasksPage.UntaggedPassesTagFilter` | app/tasks/page.tsx:50 | A task without tags passes any tag filter. |
| `TasksPage.SearchIgnoresCase` | app/tasks/page.tsx:51-52 | A search and its lower-case form show the same tasks. |
| `TasksPage.StatsOf` | app/tasks/page.tsx:119-125 | The total counts every fetched task. |
| `TasksPage.StatusCountsPartition` | app/tasks/page.tsx:121-123 | Pending + in progress + completed + the uncounted statuses is the total. |
| `TasksPage.OverdueAndCompletedDisjoint` | app/tasks/page.tsx:123-124 | Overdue + completed ≤ total: no completed task is overdue. |
| `TasksPage.StatsBounds` | app/tasks/page.tsx:119-125 | The status counters fit in the total, and so do overdue and completed together. |
| `TasksPage.NewStatus` | app/tasks/page.tsx:100-101 | 'pending' exactly for 'completed', and 'completed' otherwise. |
| `TasksPage.NewStatusFlips` | app/tasks/page.tsx:100-101 | Given a task's current status, the handler flips it between pending and completed. |
| `TasksPage.StatusClickAsWritten` | app/tasks/page.tsx:279 | With the card wired to the handler, a click sends back 'pending' for a pending task and 'completed' for a completed one. |
| `NotesPage.FilteredNotes` | app/notes/page.tsx:102-111 | Exactly the notes matching both the search and the tag. |
| `NotesPage.FilteredNotesInOrder` | app/notes/page.tsx:102 | The filter keeps the fetched order. |
| `NotesPage.InactiveFiltersShowAll` | app/notes/page.tsx:103-108 | With no active filter, every note is shown. |
| `NotesPage.UntaggedNoteHidden` | app/notes/page.tsx:107-108 | A note without tags is hidden by any real tag. |
| `NotesPage.PageFilterAgreesWithServer` | app/notes/page.tsx:102-111 | Every note the server lists for the filters also passes the page's filter. |
| `NotesPage.ContainsIgnoringCaseEmpty` | app/notes/page.tsx:105 | A non-empty search is not found in an empty text. |
| `LimboPage.DebtPath` | app/limbo/page.tsx:79 | A debt's path is `/api/limbo/` followed by its id. |
| `LimboPage.DebtPathsDistinct` | app/limbo/page.tsx:79 | Each debt has its own path, and no debt's path is the collection's. |
| `LimboPage.SaveRequestFor` | app/limbo/page.tsx:70-91 | No request exactly when the description or the amount is empty. Otherwise a request carries both. |
| `LimboPage.SaveTargets` | app/limbo/page.tsx:79-80 | An edit sends PUT to the edited debt's path. A new debt is sent by POST to `/api/limbo`. |
| `LimboPage.Page.constructor` | app/limbo/page.tsx:16-20 | The initial page state. |
| `LimboPage.Page.HandleAddDebt` | app/limbo/page.tsx:39-43 | An empty form for a new debt, shown. |
| `LimboPage.Page.HandleSaveDebt` | app/limbo/page.tsx:70-106 | Sends `SaveRequestFor`. After an accepted save, the form is emptied, the edit target cleared and the form hidden. Otherwise the state is kept. |
| `LimboPage.TotalDebts` | app/limbo/page.tsx:115 | 0 for no debts. |
| `LimboPage.TotalOfListing` | app/limbo/page.tsx:115 | The total is the sum of the caller's debts, whatever order the server lists them in. |
| `LimboPage.TotalAfterPost` | app/limbo/page.tsx:115 | After an accepted POST, the total grows by the new debt's amount. |
| `RegisterPage.ClientError` | app/register/page.tsx:23-39 | No error exactly when the passwords match, the password has at least 6 characters and the username at least 3. |
| `RegisterPage.ClientCheckOrder` | app/register/page.tsx:23-39 | Only the first failing check is reported: mismatch, then password length, then username length. |
| `RegisterPage.RequestOf` | app/register/page.tsx:47 | The request carries the name, username and password. |
| `RegisterPage.ClientAgreesWithServer` | app/register/page.tsx:23-48 | For filled-in fields, the page's checks pass exactly when the server's length checks do. |
| `RegisterPage.ServerMessageShown` | app/register/page.tsx:52-58 | A refusal by the server shows the server's own message. |
| `RegisterPage.Page.constructor` | app/register/page.tsx:9-14 | Empty fields, not loading, no error. |
| `RegisterPage.Page.HandleSubmit` | app/register/page.tsx:18-64 | A request is sent exactly when the client checks pass. The error shown is the first failure, or the server's or connection error. `loading` is false afterwards. |
| `TagList.ParseTags` | components/TaskCard.tsx:88 | No tags for an absent or empty text. Every tag is trimmed, non-empty and free of commas. There are at most commas + 1 tags. |
| `TagList.TagsOfJoined` | components/NoteCard.tsx:28 | The tags of `a,b` are the tags of `a` followed by those of `b`: the comma order is kept. |
| `TagList.SingleTag` | components/NoteCard.tsx:28 | A clean tag reads back as itself. |
| `TagList.TagsRoundTrip` | components/NoteCard.tsx:28 | A list of clean tags joined with commas reads back as the same list. |
| `TaskCard.OverdueMeaning` | components/TaskCard.tsx:85 | A task due on day `d` is overdue exactly when it is not completed and `d` has begun before now. |
| `TaskCard.NotOverdue` | components/TaskCard.tsx:85 | A task without a due date, or completed, is never overdue. |
| `TaskCard.StatusButtonTarget` | components/TaskCard.tsx:95 | 'pending' exactly for a completed task, and 'completed' otherwise. |
| `TaskCard.StatusButtonFlips` | components/TaskCard.tsx:95 | Between pending and completed, the button's target flips. |
| `TaskCard.StatusColor` | components/TaskCard.tsx:42-53 | The default colour exactly for a status other than completed, in progress and cancelled. |
| `TaskCard.PriorityColor` | components/TaskCard.tsx:55-67 | The default colour exactly for an unknown priority. |
| `TaskCard.ColoursDistinguish` | components/TaskCard.tsx:42-67 | Different known statuses get different colours, and so do different known priorities. |
| `TaskFilters.WithFilter` | components/TaskFilters.tsx:24-29 | Only the named field changes. |
| `TaskFilters.WithFilterLaws` | components/TaskFilters.tsx:24-29 | Setting a field to its own value changes nothing. Setting it twice keeps the last value, which reads back. |
| `TaskFilters.ActiveIffNotCleared` | components/TaskFilters.tsx:31-43 | Filters are active exactly when they differ from the cleared state. |
| `TaskFilters.TagInputText` | components/TaskFilters.tsx:129 | The tag box is empty exactly for 'all' or ''. |
| `TaskFilters.TagFromInput` | components/TaskFilters.tsx:130 | An emptied box means 'all'. The tag is never empty. |
| `TaskFilters.TagInputRoundTrip` | components/TaskFilters.tsx:129-130 | Box text and tag map back to each other. |
| `NoteFilters.WithFilter` | components/NoteFilters.tsx:20-25 | Only the named field changes. |
| `NoteFilters.ActiveIffFiltering` | components/NoteFilters.tsx:27-34 | Inactive after clearing, and inactive exactly for the cleared state or an empty search and tag. |
| `NoteFilters.TagBoxActivates` | components/NoteFilters.tsx:85-86 | With an empty search, typing a tag other than 'all' activates the filters, and emptying the box deactivates them. |
| `TaskFormModel.Loaded` | components/TaskForm.tsx:23-41 | An empty form with priority 'medium' for a new task. Otherwise the task's title and priority. |
| `TaskFormModel.PayloadOf` | components/TaskForm.tsx:51-56 | The title (untrimmed), description and priority are copied. Tags and due date are left out exactly when empty. |
| `TaskFormModel.SubmitCalls` | components/TaskForm.tsx:43-60 | A blank title raises the alert only. Otherwise save, then close. |
| `TaskFormModel.SavedTaskAccepted` | components/TaskForm.tsx:51-59 | What the form saves is accepted by the server's POST and stored as typed. |
| `TaskFormModel.LoadThenSave` | components/TaskForm.tsx:23-59 | Editing a task and saving it unchanged sends back its own fields. |
| `TaskFormModel.Form.constructor` | components/TaskForm.tsx:15-41 | The state is `Loaded(task)`. |
| `TaskFormModel.Form.Load` | components/TaskForm.tsx:23-41 | The state becomes `Loaded(task)`. |
| `TaskFormModel.Form.HandleSubmit` | components/TaskForm.tsx:43-60 | The calls of `SubmitCalls` for the current state. |
| `NoteFormModel.Loaded` | components/NoteForm.tsx:35-51 | An empty form with colour '#3b82f6' for a new note. Otherwise the note's title and colour. |
| `NoteFormModel.PayloadOf` | components/NoteForm.tsx:59-64 | The colour is copied. |
| `NoteFormModel.PayloadClean` | components/NoteForm.tsx:59-64 | Every saved text is trimmed and non-empty. Content and tags are left out exactly when blank. |
| `NoteFormModel.SaveIsStable` | components/NoteForm.tsx:35-64 | Loading what was saved and saving again saves the same thing. |
| `NoteFormModel.SubmitCalls` | components/NoteForm.tsx:53-71 | Nothing for a blank title. Close happens exactly after a successful save. |
| `NoteFormModel.EnabledIffSaves` | components/NoteForm.tsx:174 | The button is enabled exactly when a submit would save. |
| `NoteFormModel.SavedNoteAccepted` | components/NoteForm.tsx:59-64 | What the form saves is accepted by the server's POST, with trimmed texts. |
| `NoteFormModel.Form.constructor` | components/NoteForm.tsx:26-51 | The state is `Loaded(note)`, not submitting. |
| `NoteFormModel.Form.Load` | components/NoteForm.tsx:35-51 | The state becomes `Loaded(note)`. |
| `NoteFormModel.Form.HandleSubmit` | components/NoteForm.tsx:53-71 | The calls of `SubmitCalls`. `isSubmitting` is false after every path that submits. |
| `BottomNavigation.NavItemsShape` | components/BottomNavigation.tsx:10-18 | Seven items with distinct paths, and no non-root path is a prefix of another. |
| `BottomNavigation.PrefixesNest` | components/BottomNavigation.tsx:24 | Of two prefixes of one path, the shorter is a prefix of the longer. |
| `BottomNavigation.AtMostOneActive` | components/BottomNavigation.tsx:10-25 | Whatever the path, at most one item is active. |
| `BottomNavigation.OwnPathActive` | components/BottomNavigation.tsx:20-25 | On each item's own path, exactly that item is active. |

## Left out

- Updating and deleting single rows (`PUT`/`DELETE /api/transactions/{id}`, `/api/tasks/{id}`, `/api/notes/{id}`, `/api/limbo/{id}`): app/api/transactions/[id]/route.ts and the other `[id]` routes are not part of this model. The pages' calls to them are modelled only as the request they send (`ParcelsPage.MarkAsPaidRequest`, `LimboPage.SaveTargets`, `TasksPage.NewStatus`).
- lib/database.ts (connection, schema creation, `ALTER TABLE` migrations) is not part of this model. The tables are in-memory classes. Its `CREATE TABLE` for `transactions` has no `user_id` and no `is_fixed`, so the row shape follows lib/types.ts and the routes. Its categories table has `name UNIQUE` with no owner, while the routes scope categories by owner; the model makes a name unique per owner.
- The schemas of `users`, `tasks`, `notes` and `limbo_debts` are not shown. The task `status` column default is taken to be 'pending'.
- The `CHECK (type IN ('income','expense'))` constraint is not enforced by the model. `SummaryRoute.TransactionCountIsMonthRows` takes it as a requirement.
- JWT signing, verification and expiry, and bcrypt, are symbolic. `authenticateRequest` becomes an `Option<nat>` user parameter, and the token cookie and the `me`/`logout` routes are left out.
- Floating-point money: amounts are exact reals. `amount / total_parcels` has no rounding, `ROUND(…, 2)` in the category breakdown is not applied, and `Intl.NumberFormat` is left out.
- `parseFloat` of the amount text is left out. The transaction form (components/TransactionForm.tsx:64) and the limbo page (app/limbo/page.tsx:89) both read the typed text with `parseFloat` before sending it. The model keeps the typed text in the payload and takes the server's amount as a separate parameter (`TransactionFormModel.AsRequest`). It does not capture what `parseFloat` does with odd input: `NaN` for non-numeric text, reading only the numeric prefix of text such as "12abc", and a 0 that the server then refuses as a falsy amount.
- `TransactionFormModel.ParcelCountEdit`: the parcel-count input is read with a strict-prefix `parseInt` model. Non-numeric text after the digits, and JavaScript's numeric conversion of the stored value, are not modelled beyond that.
- `Calendar.AddMonths`: `setMonth` day overflow (31 January plus one month giving March) and the local-time `setMonth` versus UTC `toISOString` shift are not modelled for the parcel and fixed-transaction dates. The day is kept as is. `Calendar.SetMonth` models the overflow and is used for the home page's arrows. The options loop of `HomePage.GenerateMonthOptions` starts on day 1, so it never overflows.
- `Calendar.DateOfText` reads only `YYYY-MM-DD`. The other formats `new Date(text)` accepts are left out.
- `HomePage.SelectOption` covers only `YYYY-MM` values built by the selector. `new Date(year, month - 1, 1)` normalisation of other input is left out.
- `Text.Lower` lower-cases only `A`–`Z`. JavaScript's `toLowerCase` also lower-cases non-ASCII letters ('Á' to 'á', 'Ç' to 'ç'). So `TasksPage.FilteredTasks` and `NotesPage.FilteredNotes` hide a task or note titled "Água" from the search "água", which the pages (app/tasks/page.tsx:51-52, app/notes/page.tsx:103-108) would show.
- SQLite `LIKE` is modelled as case-insensitive (ASCII) substring matching. The `%` and `_` wildcards inside a user's search text are not modelled.
- SQL `ORDER BY` ties are unspecified. The model uses one stable sort and claims only sortedness and permutation.
- The 500 replies (a thrown database error) and partial failures between the sequential inserts or deletes are not modelled. There is no atomicity or concurrency: each handler is one sequential step.
- `fetch`, re-fetching after a save, `alert`, `confirm`, routing, React rendering, icons and locale labels (`format(date, 'MMMM yyyy')`) are left out. A request's outcome is a parameter.
- The transaction form's loading of an existing transaction for editing (`components/TransactionForm.tsx:28-41`), its category fetch, and the home page's save and delete handlers are left out. The limbo page's `handleEditDebt` (amount `toString`) and delete are left out too.
- The `completed_at` column of tasks is not touched by the routes in this model.
- contexts/AuthContext.tsx (token storage, login redirect) is not part of this model. Nor are the presentation-only files: app/settings/page.tsx, app/add/page.tsx, app/layout.tsx, components/Header.tsx, components/ThemeToggle.tsx, components/TransactionCard.tsx, components/FinancialSummary.tsx and contexts/ThemeContext.tsx.
- JavaScript string lengths count UTF-16 code units. The model counts characters, which differs only outside the Basic Multilingual Plane.

## Findings

| source | as written | input that shows it | evidently intended | confidence | as-written member | corrected member |
|---|---|---|---|---|---|---|
| components/TaskCard.tsx:95 with app/tasks/page.tsx:100-101 | The card passes the status it wants (`completed ? 'pending' : 'completed'`) to `onStatusChange`. The page's `handleStatusChange` reads that as the current status and flips it again. | A task with status 'pending': the card passes 'completed', and the page sends 'pending'. A completed task is sent 'completed'. The button never changes a pending or completed task. | A click flips the task between pending and completed. | not executed | `TasksPage.StatusClickAsWritten` | `TasksPage.NewStatusFlips` |
| app/page.tsx:38 with app/page.tsx:156-166 | The shown date starts as today (`useState(new Date())`), and the arrows call `setMonth(getMonth() ± 1)` on it. On days 29–31, JavaScript spills the days the neighbouring month lacks into the month after it. | Today is 31 May: "next" shows July and skips June. Today is 31 March: "previous" gives 3 March and stays in March. | Each arrow shows the neighbouring month. | not executed | `HomePage.ChangeMonthAsWrittenMissesAMonth` | `HomePage.ChangeMonth` |

The as-written wiring is `TasksPage.StatusSentOnClick`, the handler applied to the card's target. `TasksPage.StatusClickAsWritten` proves what it sends for every status. The corrected behaviour passes the task's own status to the handler, `TasksPage.NewStatus`. `TasksPage.NewStatusFlips` proves that this flips pending and completed into each other and back.

`HomePage.ChangeMonthAsWritten` is the page's handler, with `Calendar.SetMonth` as JavaScript's `setMonth`. `HomePage.ChangeMonthAsWrittenMoves` proves that it moves exactly one month only when the neighbouring month has the shown day. `HomePage.ChangeMonthAsWrittenMissesAMonth` gives the two dates above. The corrected `HomePage.ChangeMonth` takes the month's last day when the day is missing. It always moves exactly one month, and `HomePage.ChangeMonthBackAndForth` proves that back and forth returns to the same month. Only the month and year of the shown date are read (app/page.tsx:64-65), so either this fix or starting from day 1 gives the intended behaviour.
