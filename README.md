# Finance assistant: a verified model of the transaction and category core

This project is a Dafny model of the back end of a personal-finance
assistant. It covers these parts:

- **Transaction service.** It computes the current balance, the twelve-month
  summary of a year, the most recent transactions, the spending breakdown by
  category (percentage and palette colour) and the cumulative balance trend
  per month. It also updates and deletes stored transactions.
- **Repositories.** The transaction and category queries the services rely
  on are modelled as filters over the table. This includes the optional
  filters of `findByFilters` and the "visible to user" rule for categories:
  a category is visible when it is a default one or the user's own.
- **Transaction controller.** It dispatches the listing between the filtered
  and the plain query. It builds new transactions from request bodies,
  including the recurrence defaults, and builds the details of an update.
  The recent list has a default limit of 5.
- **Category service.** It lists a user's categories, optionally by type. It
  creates categories with a case-insensitive duplicate check. It updates and
  deletes categories, but never a default one.
- **User controller.** It applies a partial profile update (null fields are
  kept; a malformed picture is ignored). It changes a password behind a
  current-password check, and deletes a profile.
- **Document intents.** A helper of the retrieval service infers a
  document's intent from its file name.

## How the model is built

- Tables are sequences of values: `seq<Transaction>`, `seq<Category>` and
  `seq<User>`.
- Classes (`TransactionStore`, `CategoryStore` and `UserAccounts`) own
  the tables that the service methods update in place. Each class keeps an
  invariant: ids issued and distinct (and, for transactions, the NOT NULL recurrence flag set), or e-mails unique.
- Queries and aggregations are functions.
- The loops of the monthly summary, the spending breakdown and the trend are
  methods. Each one is proved against a specification function.
- The Java stream pipelines (filter, group by, sum) are connected to those
  specification functions by lemmas.
- Money is exact integer cents.
- Dates are (year, month, day) triples ordered lexicographically.
- `Stream.sorted` is a stable insertion sort on the date.
- The iteration order of a `HashMap` is left open: every property of the
  spending breakdown holds for any order.
- The trend keys its points by month number only (0 for January). In a
  range that spans more than a year, two Januaries share one point. That
  point stays where the first January was met and carries the balance after
  the last January. `FirstSeen` and `BalanceAfterLast` state this.
- `updateCategory` does not repeat the duplicate-name check of
  `createCategory`. Because of this, the model proves that no user owns two
  categories with the same name (ignoring case) only across creation and
  deletion, as the code does.

## Model

| member | source | states |
|---|---|---|
| TransactionService.CategoryColor | Backend/finance-assistant/src/main/java/com/BeztaMy/finance_assistant/service/TransactionService.java:27-47 | the colour for an index is always an entry of the fourteen-entry palette (orange appears twice) |
| TransactionService.CategoryColorCycles | Backend/finance-assistant/src/main/java/com/BeztaMy/finance_assistant/service/TransactionService.java:45-46 | colours repeat with the palette's length as period |
| TransactionService.CurrentBalanceIsNet | Backend/finance-assistant/src/main/java/com/BeztaMy/finance_assistant/service/TransactionService.java:111-130 | the balance is income minus expense over the user's transactions, in any walking order; with positive amounts both totals are non-negative; a user without transactions gets all zeros |
| Ledger.NetIsIncomeMinusExpense | Backend/finance-assistant/src/main/java/com/BeztaMy/finance_assistant/service/TransactionService.java:113-125 | a running signed sum equals the income total minus the expense total |
| Ledger.NetPermutation | Backend/finance-assistant/src/main/java/com/BeztaMy/finance_assistant/service/TransactionService.java:111-130 | the signed sum does not depend on the order of the transactions |
| Ledger.TotalAmountPermutation | Backend/finance-assistant/src/main/java/com/BeztaMy/finance_assistant/service/TransactionService.java:119-125 | a `BigDecimal` reduce over amounts does not depend on order |
| Ledger.FilterTotalBounds | Backend/finance-assistant/src/main/java/com/BeztaMy/finance_assistant/service/TransactionService.java:204-221 | with positive amounts, the total of a filtered list lies between 0 and the total of the whole list |
| Ledger.GroupByIsFilter | Backend/finance-assistant/src/main/java/com/BeztaMy/finance_assistant/service/TransactionService.java:212-213 | `groupingBy` has a key exactly for the values that occur, and each group is the input filtered to that key, in input order |
| Ledger.GroupTotalsAddUp | Backend/finance-assistant/src/main/java/com/BeztaMy/finance_assistant/service/TransactionService.java:212-221 | summing group totals over the distinct keys that cover every element gives the overall total |
| Ledger.FilterFilter | Backend/finance-assistant/src/main/java/com/BeztaMy/finance_assistant/service/TransactionService.java:139-144 | two consecutive stream filters equal one filter on both conditions |
| Ledger.FilterPermutation | Backend/finance-assistant/src/main/java/com/BeztaMy/finance_assistant/service/TransactionService.java:139-144 | filtering two permutations of a list gives permutations |
| TransactionService.MonthlySummary | Backend/finance-assistant/src/main/java/com/BeztaMy/finance_assistant/service/TransactionService.java:136-171 | twelve entries labelled Jan to Dec; entry i holds the user's income and expense in month i+1 of the year, other years and users ignored |
| TransactionService.MonthPipeline | Backend/finance-assistant/src/main/java/com/BeztaMy/finance_assistant/service/TransactionService.java:139-161 | the stream filter of the year and month followed by the type filter and the sum computes the specified month total |
| TransactionService.MonthBucket | Backend/finance-assistant/src/main/java/com/BeztaMy/finance_assistant/service/TransactionService.java:143-161 | looking the month up in the grouping (absent month = empty list) gives the same month total |
| TransactionService.YearPipeline | Backend/finance-assistant/src/main/java/com/BeztaMy/finance_assistant/service/TransactionService.java:137-141 | the year filter and type sum computes the specified year total |
| TransactionService.MonthlySummaryAddsUp | Backend/finance-assistant/src/main/java/com/BeztaMy/finance_assistant/service/TransactionService.java:150-168 | the twelve monthly incomes add up to the year's income, and likewise for expenses |
| TransactionService.YearTotalSplitsByMonth | Backend/finance-assistant/src/main/java/com/BeztaMy/finance_assistant/service/TransactionService.java:150-168 | the year total splits into the totals of its months |
| DateSort.SortByDateCorrect | Backend/finance-assistant/src/main/java/com/BeztaMy/finance_assistant/service/TransactionService.java:179-180 | sorting by date yields a sorted permutation of the input, in either direction |
| DateSort.SortByDateStable | Backend/finance-assistant/src/main/java/com/BeztaMy/finance_assistant/service/TransactionService.java:179-180 | the sort is stable: transactions of one date keep their input order |
| DateSort.InsertSorted | Backend/finance-assistant/src/main/java/com/BeztaMy/finance_assistant/service/TransactionService.java:179-180 | inserting into a sorted list keeps it sorted |
| DateSort.InsertPermutation | Backend/finance-assistant/src/main/java/com/BeztaMy/finance_assistant/service/TransactionService.java:179-180 | inserting adds exactly the inserted transaction |
| TransactionService.RecentTransactions | Backend/finance-assistant/src/main/java/com/BeztaMy/finance_assistant/service/TransactionService.java:177-183 | a negative limit raises `IllegalArgumentException` (from `Stream.limit`); otherwise the result has min(limit, number of user transactions) entries |
| TransactionService.RecentAreMostRecent | Backend/finance-assistant/src/main/java/com/BeztaMy/finance_assistant/service/TransactionService.java:177-183 | the result is the user's own transactions, newest first, a sub-multiset of them, none omitted is newer than the last one kept, and same-date ties keep their stored order |
| TransactionService.NewestStable | Backend/finance-assistant/src/main/java/com/BeztaMy/finance_assistant/service/TransactionService.java:179-181 | a prefix of the stable descending sort lists each date's transactions in their stored order |
| TransactionService.SpendingExpenses | Backend/finance-assistant/src/main/java/com/BeztaMy/finance_assistant/service/TransactionService.java:195-210 | the spending set is exactly the user's expenses with a date in the range, the range applied only when both bounds are given |
| TransactionService.SpendingByCategory | Backend/finance-assistant/src/main/java/com/BeztaMy/finance_assistant/service/TransactionService.java:194-242 | total spending is the expense total; category names are distinct, each names a category actually spent on, and every spent-on category appears; each value is the rounded percentage of its category total and colours follow the palette by position |
| TransactionService.SpendTotalPipeline | Backend/finance-assistant/src/main/java/com/BeztaMy/finance_assistant/service/TransactionService.java:204-210 | the stream reduce over the spending set computes the specified total |
| TransactionService.CategoryPipeline | Backend/finance-assistant/src/main/java/com/BeztaMy/finance_assistant/service/TransactionService.java:212-221 | a category's group total equals the specified category spend |
| TransactionService.CategoryBucket | Backend/finance-assistant/src/main/java/com/BeztaMy/finance_assistant/service/TransactionService.java:212-221 | the group stored under a category name sums to that category's spend |
| TransactionService.SpendKey | Backend/finance-assistant/src/main/java/com/BeztaMy/finance_assistant/service/TransactionService.java:212-213 | a category name is a key of the grouping exactly when the user spent on it in the range |
| TransactionService.LabelsAreSpentCategories | Backend/finance-assistant/src/main/java/com/BeztaMy/finance_assistant/service/TransactionService.java:212-235 | the labels listed are exactly the spent-on categories |
| TransactionService.SpendingSharesAddUp | Backend/finance-assistant/src/main/java/com/BeztaMy/finance_assistant/service/TransactionService.java:212-235 | the category totals of the listed labels add up to the total spending |
| TransactionService.CategorySpendBounds | Backend/finance-assistant/src/main/java/com/BeztaMy/finance_assistant/service/TransactionService.java:218-221 | with positive amounts, a category's spend lies between 0 and the total spending |
| TransactionService.SharePercentBounds | Backend/finance-assistant/src/main/java/com/BeztaMy/finance_assistant/service/TransactionService.java:223-230 | with positive amounts, each percentage lies in 0..100 |
| TransactionService.PercentageBounds | Backend/finance-assistant/src/main/java/com/BeztaMy/finance_assistant/service/TransactionService.java:223-230 | a part no larger than the total gives a value in 0..100 |
| TransactionService.PercentageExact | Backend/finance-assistant/src/main/java/com/BeztaMy/finance_assistant/service/TransactionService.java:223-226 | an exact percentage is reproduced without rounding error |
| TransactionService.PercentageOfNothing | Backend/finance-assistant/src/main/java/com/BeztaMy/finance_assistant/service/TransactionService.java:223-226 | a zero total gives 0, without dividing |
| TransactionService.DivHalfUpBounds | Backend/finance-assistant/src/main/java/com/BeztaMy/finance_assistant/service/TransactionService.java:224 | half-up division of a part within m times the divisor stays within 0..m |
| TransactionService.FinancialTrends | Backend/finance-assistant/src/main/java/com/BeztaMy/finance_assistant/service/TransactionService.java:248-281 | one point per month of the sorted in-range walk, in order of first occurrence, each carrying the running balance after the last transaction of that month |
| TransactionService.EntryPoints | Backend/finance-assistant/src/main/java/com/BeztaMy/finance_assistant/service/TransactionService.java:272-278 | the output lists each month key once with its stored balance, in insertion order |
| TransactionService.TrendStep | Backend/finance-assistant/src/main/java/com/BeztaMy/finance_assistant/service/TransactionService.java:261-270 | one loop iteration keeps the insertion-ordered months and the balances equal to their specification on the prefix walked |
| TransactionService.TrendDone | Backend/finance-assistant/src/main/java/com/BeztaMy/finance_assistant/service/TransactionService.java:261-270 | after the loop the keys are the months in first-seen order and each balance is the running total after that month's last transaction |
| TransactionService.FirstSeenMembers | Backend/finance-assistant/src/main/java/com/BeztaMy/finance_assistant/service/TransactionService.java:258-269 | the month list holds exactly the months that occur |
| TransactionService.FirstSeenDistinct | Backend/finance-assistant/src/main/java/com/BeztaMy/finance_assistant/service/TransactionService.java:258-269 | no month is listed twice |
| TransactionService.FirstSeenOrder | Backend/finance-assistant/src/main/java/com/BeztaMy/finance_assistant/service/TransactionService.java:258-269 | months are listed in the order in which they are first met |
| TransactionService.TrendEndsAtRangeNet | Backend/finance-assistant/src/main/java/com/BeztaMy/finance_assistant/service/TransactionService.java:249-270 | the walk is a permutation of the user's transactions in range, and the last point's balance is the range's income minus expense |
| TransactionService.RemoveRow | Backend/finance-assistant/src/main/java/com/BeztaMy/finance_assistant/service/TransactionService.java:84-90 | deleting one row keeps ids issued and distinct and removes exactly the rows with that id |
| TransactionService.TransactionStore.CreateTransaction | Backend/finance-assistant/src/main/java/com/BeztaMy/finance_assistant/service/TransactionService.java:59-62 | a null `isRecurring` is refused by the NOT NULL column and nothing changes; otherwise the row is stored with a fresh id and both timestamps set to now, and nothing else changes |
| TransactionService.TransactionStore.UpdateTransaction | Backend/finance-assistant/src/main/java/com/BeztaMy/finance_assistant/service/TransactionService.java:64-82 | an unknown id raises "Transaction not found" and changes nothing; otherwise the row keeps its id, owner and creation time, takes every field of the details, has its update time set, and only that row changes; a null `isRecurring` in the details is refused by the NOT NULL column and nothing changes |
| TransactionService.TransactionStore.DeleteTransaction | Backend/finance-assistant/src/main/java/com/BeztaMy/finance_assistant/service/TransactionService.java:84-90 | an unknown id raises and changes nothing; otherwise exactly the row with that id disappears |
| TransactionRepository.FindByUserId | Backend/finance-assistant/src/main/java/com/BeztaMy/finance_assistant/repository/TransactionRepository.java:16 | exactly the rows of the user, in table order |
| TransactionRepository.FindByUserIdAndType | Backend/finance-assistant/src/main/java/com/BeztaMy/finance_assistant/repository/TransactionRepository.java:18 | exactly the user's rows of the type |
| TransactionRepository.FindByUserIdAndTransactionDateBetween | Backend/finance-assistant/src/main/java/com/BeztaMy/finance_assistant/repository/TransactionRepository.java:20-21 | exactly the user's rows dated within the inclusive range |
| TransactionRepository.FindByUserIdAndCategoryId | Backend/finance-assistant/src/main/java/com/BeztaMy/finance_assistant/repository/TransactionRepository.java:23 | exactly the user's rows in the category |
| TransactionRepository.FindByIsRecurringAndIsActiveAndNextExecutionDate | Backend/finance-assistant/src/main/java/com/BeztaMy/finance_assistant/repository/TransactionRepository.java:25-26 | exactly the rows matching the three values |
| TransactionRepository.FindByFilters | Backend/finance-assistant/src/main/java/com/BeztaMy/finance_assistant/repository/TransactionRepository.java:28-36 | a row is returned iff it belongs to the user, lies in the date range, and matches the category and type when those are given |
| TransactionRepository.FindByFiltersNullBound | Backend/finance-assistant/src/main/java/com/BeztaMy/finance_assistant/repository/TransactionRepository.java:28-36 | with a missing date bound, `BETWEEN` on NULL selects nothing |
| TransactionRepository.FindByFiltersWithoutOptionals | Backend/finance-assistant/src/main/java/com/BeztaMy/finance_assistant/repository/TransactionRepository.java:28-36 | without category and type it is the plain date-range query |
| TransactionRepository.FindByFiltersNarrowsRange | Backend/finance-assistant/src/main/java/com/BeztaMy/finance_assistant/repository/TransactionRepository.java:28-36 | it is the date-range query further filtered by the optional criteria, order kept |
| TransactionRepository.IndexOfId | Backend/finance-assistant/src/main/java/com/BeztaMy/finance_assistant/service/TransactionService.java:66-67 | the id lookup finds the row with that id, or reports that none has it |
| CategoryRepository.FindById | Backend/finance-assistant/src/main/java/com/BeztaMy/finance_assistant/controller/TransactionController.java:70-71 | the category lookup returns a row with that id, or none exists |
| CategoryRepository.FindByUserId | Backend/finance-assistant/src/main/java/com/BeztaMy/finance_assistant/repository/CategoryRepository.java:15 | exactly the categories the user owns |
| CategoryRepository.FindByUserIdAndNameIgnoreCase | Backend/finance-assistant/src/main/java/com/BeztaMy/finance_assistant/repository/CategoryRepository.java:17 | a category of the user whose name equals the given one ignoring case, or none exists |
| CategoryRepository.FindAllForUser | Backend/finance-assistant/src/main/java/com/BeztaMy/finance_assistant/repository/CategoryRepository.java:19-21 | exactly the default categories and the user's own |
| CategoryRepository.FindAllForUserAndType | Backend/finance-assistant/src/main/java/com/BeztaMy/finance_assistant/repository/CategoryRepository.java:23-27 | exactly the visible categories of that type |
| CategoryRepository.FindByIdAndVisibleToUser | Backend/finance-assistant/src/main/java/com/BeztaMy/finance_assistant/repository/CategoryRepository.java:29-32 | a visible category with that id, or none exists |
| CategoryRepository.FindAllForUserAndTypeRestricts | Backend/finance-assistant/src/main/java/com/BeztaMy/finance_assistant/repository/CategoryRepository.java:19-27 | the typed listing is the untyped one filtered by type, order kept |
| CategoryRepository.FindByIdAndVisibleToUserAgrees | Backend/finance-assistant/src/main/java/com/BeztaMy/finance_assistant/repository/CategoryRepository.java:29-32 | with distinct ids, it is the id lookup restricted to visible rows |
| TransactionController.NewTransaction | Backend/finance-assistant/src/main/java/com/BeztaMy/finance_assistant/controller/TransactionController.java:67-91 | the entity copies owner, category and request fields; it has a next execution date exactly when it is recurring (defaulting to the transaction date); non-recurring rows are active; a row is inactive only when a recurring request says so; valid amounts stay positive |
| TransactionController.BuildNewTransaction | Backend/finance-assistant/src/main/java/com/BeztaMy/finance_assistant/controller/TransactionController.java:62-91 | an unknown category id fails with "Category not found"; otherwise the setter sequence builds exactly the specified entity |
| TransactionController.RecurringCreateIsScheduled | Backend/finance-assistant/src/main/java/com/BeztaMy/finance_assistant/controller/TransactionController.java:82-91 | a recurring create without a next date, not explicitly inactive, is found by the scheduler's query on its transaction date once saved |
| TransactionController.CreateTransactionEndpoint | Backend/finance-assistant/src/main/java/com/BeztaMy/finance_assistant/controller/TransactionController.java:62-95 | an unknown category or an explicit null `isRecurring` stores nothing; otherwise the built entity is appended with a fresh id; amounts stay positive |
| TransactionController.TransactionDetails | Backend/finance-assistant/src/main/java/com/BeztaMy/finance_assistant/controller/TransactionController.java:102-117 | the update details copy the request's recurrence flag, activity and next date without defaults |
| TransactionController.UpdateTransactionEndpoint | Backend/finance-assistant/src/main/java/com/BeztaMy/finance_assistant/controller/TransactionController.java:97-121 | the category check runs first, then the service update with the details; only the addressed row changes and amounts stay positive |
| TransactionController.UpdatedAmountPositive | Backend/finance-assistant/src/main/java/com/BeztaMy/finance_assistant/controller/TransactionController.java:97-121 | replacing a row by one with a positive amount keeps all amounts positive |
| TransactionController.GetTransactions | Backend/finance-assistant/src/main/java/com/BeztaMy/finance_assistant/controller/TransactionController.java:37-53 | with both dates, the filtered query; otherwise all the user's rows |
| TransactionController.GetTransactionsIgnoresFilters | Backend/finance-assistant/src/main/java/com/BeztaMy/finance_assistant/controller/TransactionController.java:45-52 | without both dates, category and type have no effect |
| TransactionController.RecentEndpoint | Backend/finance-assistant/src/main/java/com/BeztaMy/finance_assistant/controller/TransactionController.java:163-169 | an absent limit returns min(5, number of user transactions) entries |
| CategoryService.CategoriesForUser | Backend/finance-assistant/src/main/java/com/BeztaMy/finance_assistant/service/CategoryService.java:23-28 | a null or empty type lists every visible category; any other type only the visible ones of that type |
| CategoryService.CategoriesForUserByType | Backend/finance-assistant/src/main/java/com/BeztaMy/finance_assistant/service/CategoryService.java:23-28 | the typed listing is the untyped listing restricted to the type, order kept |
| CategoryService.VisibleIndex | Backend/finance-assistant/src/main/java/com/BeztaMy/finance_assistant/service/CategoryService.java:50-51 | the position found holds the row the visible-by-id lookup returns |
| CategoryService.AddKeepsNamesDistinct | Backend/finance-assistant/src/main/java/com/BeztaMy/finance_assistant/service/CategoryService.java:32-45 | adding a category the duplicate check let through keeps each user's names distinct ignoring case |
| CategoryService.AddedIsFoundByName | Backend/finance-assistant/src/main/java/com/BeztaMy/finance_assistant/service/CategoryService.java:32-45 | once created, the duplicate check finds the new category under any casing of its name |
| CategoryService.RemoveCategory | Backend/finance-assistant/src/main/java/com/BeztaMy/finance_assistant/service/CategoryService.java:64-74 | removing one category keeps ids issued and distinct, keeps names distinct, and removes exactly that id's rows |
| CategoryService.CategoryStore.CreateCategory | Backend/finance-assistant/src/main/java/com/BeztaMy/finance_assistant/service/CategoryService.java:30-46 | a name the user already owns (ignoring case) fails with nothing changed; otherwise a non-default category of the user, created now, is appended with a fresh id, and a second creation would be refused |
| CategoryService.CategoryStore.UpdateCategory | Backend/finance-assistant/src/main/java/com/BeztaMy/finance_assistant/service/CategoryService.java:48-62 | an invisible id fails "not found", a default category fails "cannot be modified", both changing nothing; a visible non-default category is always updated: it is the user's own and only its name, type and icon change |
| CategoryService.CategoryStore.DeleteCategory | Backend/finance-assistant/src/main/java/com/BeztaMy/finance_assistant/service/CategoryService.java:64-74 | the same two guards ("cannot be deleted"); a visible non-default category is always deleted: exactly the user's category with that id disappears; defaults and distinct names survive |
| UserController.NewPicture | Backend/finance-assistant/src/main/java/com/BeztaMy/finance_assistant/controller/UserController.java:81-87 | a missing picture keeps the stored one; a picture that fails to decode is ignored; otherwise the decoded bytes replace it |
| UserController.ProfileMerge | Backend/finance-assistant/src/main/java/com/BeztaMy/finance_assistant/controller/UserController.java:60-98 | the update never touches id, e-mail, password or creation time |
| UserController.NonNullFieldsOverwrite | Backend/finance-assistant/src/main/java/com/BeztaMy/finance_assistant/controller/UserController.java:69-96 | every non-null request field replaces the stored value |
| UserController.NullFieldsKeep | Backend/finance-assistant/src/main/java/com/BeztaMy/finance_assistant/controller/UserController.java:69-96 | every null request field keeps the stored value |
| UserController.EmptyRequestKeepsUser | Backend/finance-assistant/src/main/java/com/BeztaMy/finance_assistant/controller/UserController.java:69-96 | an all-null request leaves the user unchanged |
| UserController.ProfileMergeIdempotent | Backend/finance-assistant/src/main/java/com/BeztaMy/finance_assistant/controller/UserController.java:69-96 | applying the same update twice equals applying it once |
| UserController.ProfileMergeSequential | Backend/finance-assistant/src/main/java/com/BeztaMy/finance_assistant/controller/UserController.java:69-96 | two successive updates equal one update with the later non-null fields taking precedence |
| UserController.ApplyUpdate | Backend/finance-assistant/src/main/java/com/BeztaMy/finance_assistant/controller/UserController.java:69-96 | the eight conditional setters compute exactly the profile merge |
| UserController.IndexOfEmail | Backend/finance-assistant/src/main/java/com/BeztaMy/finance_assistant/controller/UserController.java:66-67 | the e-mail lookup finds the user with that e-mail, or none has it |
| UserController.RemoveUser | Backend/finance-assistant/src/main/java/com/BeztaMy/finance_assistant/controller/UserController.java:143-146 | deleting one user keeps e-mails unique and removes exactly that e-mail's user |
| UserController.UserAccounts.UpdateProfile | Backend/finance-assistant/src/main/java/com/BeztaMy/finance_assistant/controller/UserController.java:60-109 | an unknown e-mail fails "User not found" and changes nothing; otherwise only that user changes, to the merged profile |
| UserController.UserAccounts.ChangePassword | Backend/finance-assistant/src/main/java/com/BeztaMy/finance_assistant/controller/UserController.java:111-135 | an unknown e-mail fails; a wrong current password fails "Incorrect current password" with nothing changed; otherwise only that user's password changes, to the encoded new one |
| UserController.UserAccounts.DeleteProfile | Backend/finance-assistant/src/main/java/com/BeztaMy/finance_assistant/controller/UserController.java:137-152 | an unknown e-mail fails; otherwise exactly that user is removed |
| IntentConfig.StripMd | simpleRag/app/services/intent_config.py:12 | removing ".md" never lengthens the name |
| IntentConfig.InferIntent | simpleRag/app/services/intent_config.py:14-28 | the intent is always one of the five known intents, and anything but "general" comes from a stem in the table |
| IntentConfig.StripMdDotless | simpleRag/app/services/intent_config.py:12 | a name without a dot is unchanged by the removal |
| IntentConfig.StripMdExtension | simpleRag/app/services/intent_config.py:12 | a trailing ".md" is removed and the rest is scanned as without it |
| IntentConfig.MappingStemsDotless | simpleRag/app/services/intent_config.py:14-25 | no stem in the table contains a dot |
| IntentConfig.MappingStemsLowerCase | simpleRag/app/services/intent_config.py:14-25 | every stem starts with a lower-case letter or a digit |
| IntentConfig.KnownDocument | simpleRag/app/services/intent_config.py:14-28 | a known stem gets its table intent, with or without the ".md" extension |
| IntentConfig.CapitalisedStemIsGeneral | simpleRag/app/services/intent_config.py:28 | the lookup is case-sensitive: a capitalised stem falls back to "general" |
| IntentConfig.StripMdInside | simpleRag/app/services/intent_config.py:12 | ".md" is removed anywhere in the name, not only at its end |
| IntentConfig.StripMdOnePass | simpleRag/app/services/intent_config.py:12 | a single pass can leave a new ".md" formed by the removal |

## Left out

- CategoryRepository.EqualsIgnoreCase: SQL `UPPER` is modelled on ASCII letters only; no Unicode case mapping.
- TransactionService.SpendingByCategory: the percentage is computed on exact integers (half-up to four places, then rounded); the `double` conversion of the source is not modelled, because a four-decimal value times 100 has at most two decimals and rounds the same way.
- TransactionService.FinancialTrends: balances are exact cents instead of `doubleValue()`. A null start or end date makes the source throw; the model takes plain dates.
- UserController.ProfileMerge: `monthlyBudget` is copied as a `real`; no floating point behaviour is modelled.
- The clock (`@PrePersist`/`@PreUpdate`, `LocalDateTime.now()`) is a `now` parameter. Database id generation is a counter held by each store.
- The password encoder, the password matcher and the Base64 decoder are function parameters. A decoding failure is a `None` result.
- TransactionController.TransactionRequest: an explicit JSON null for `isRecurring` or `isActive` is kept as `None`. Omitted fields take the DTO defaults. A null `isRecurring` is refused at the save, as the NOT NULL column refuses it. The model does not reproduce the database exception type: it uses a `RecurringNull` error.
- TransactionController.TransactionDetails: the details entity's owner field is 0 because the service never reads it.
- Pass-through endpoints are not modelled as separate members: `getTransactionById`, `getTransactionsByType`, `getTransactionsByCategory`, the dashboard balance, monthly, spending and trends wrappers, and `getProfile`'s response mapping. Each one only forwards to a modelled service or repository function.
- Spring plumbing is not modelled: HTTP status codes, response wrapping, the security context that supplies the current user, bean validation messages, and `@Transactional` boundaries.
- CategoryService.CategoryStore.UpdateCategory: a transaction row holds a copy of its category, not a reference to the categories row. A rename therefore does not reach the stored transactions. In the application, later spending breakdowns, which group by the category's current name, would show it.
- CategoryService.CategoryStore.DeleteCategory: the foreign key from transactions to categories is not modelled. Deleting a category that transactions still use succeeds in the model, where the database would refuse it.
- CategoryRepository.FindByUserIdAndNameIgnoreCase: it returns the first match. Spring's derived query would throw when two categories of the user match; that can happen after a rename, because `updateCategory` does not check for duplicates. Either way `createCategory` refuses the name, but with a different error.
- Authentication, JWT handling and the rest of the retrieval service are outside this model.
