/** `TransactionService`: the dashboard views computed from one user's
    transactions (balance, monthly summary, recent list, spending by category,
    balance trend), and the update and delete operations on the table.
    Every view first loads the user's rows with `findByUserId`. */
module TransactionService {
  import opened Domain
  import opened Ledger
  import opened DateSort
  import opened TransactionRepository

  datatype ServiceError =
    | IllegalArgument             // Stream.limit with a negative size
    | TransactionNotFound(id: int)
    | RecurringNull               // the NOT NULL `is_recurring` column refuses the save

  // ---------------------------------------------------------------- colours

  /** The fixed presentation palette; orange appears at 2 and again at 13. */
  const Palette: seq<string> := [
    "#42A5F5", "#66BB6A", "#FFA726", "#AB47BC", "#EF5350", "#26C6DA", "#FFCA28",
    "#EC407A", "#7E57C2", "#29B6F6", "#8BC34A", "#FF7043", "#5C6BC0", "#FFA726"]

  /** `getRandomCategoryColor`: cycles through the palette by index. */
  function CategoryColor(index: nat): (color: string)
    ensures color in Palette
  {
    Palette[index % |Palette|]
  }

  /** The colours repeat every fourteen categories. */
  lemma CategoryColorCycles(index: nat)
    ensures CategoryColor(index + |Palette|) == CategoryColor(index)
  {
    assert |Palette| == 14;
    assert (index + 14) % 14 == index % 14;
  }

  // ---------------------------------------------------------------- balance

  datatype BalanceSummary = BalanceSummary(totalIncome: Cents, totalExpense: Cents, currentBalance: Cents)

  /** `getCurrentBalance`. */
  function CurrentBalance(rows: seq<Transaction>, userId: int): (b: BalanceSummary) {
    var txs := FindByUserId(rows, userId);
    var income := TotalAmount(OfKind(txs, INCOME));
    var expense := TotalAmount(OfKind(txs, EXPENSE));
    BalanceSummary(income, expense, income - expense)
  }

  /** The current balance is exactly the running balance over all of the
      user's transactions, in any order; with positive amounts both totals are
      non-negative, and a user without transactions has zeros. */
  lemma CurrentBalanceIsNet(rows: seq<Transaction>, userId: int, walk: seq<Transaction>)
    requires multiset(walk) == multiset(FindByUserId(rows, userId))
    ensures CurrentBalance(rows, userId).currentBalance == Net(walk)
    ensures AllPositive(rows) ==> CurrentBalance(rows, userId).totalIncome >= 0
                                  && CurrentBalance(rows, userId).totalExpense >= 0
    ensures FindByUserId(rows, userId) == [] ==> CurrentBalance(rows, userId) == BalanceSummary(0, 0, 0)
  {
    var txs := FindByUserId(rows, userId);
    NetPermutation(walk, txs);
    NetIsIncomeMinusExpense(txs);
    if AllPositive(rows) {
      FilterTotalBounds(txs, (t: Transaction) => t.kind == INCOME);
      FilterTotalBounds(txs, (t: Transaction) => t.kind == EXPENSE);
    }
  }

  // -------------------------------------------------------- monthly summary

  const MonthLabels: seq<string> := ["Jan", "Feb", "Mar", "Apr", "May", "Jun",
                                     "Jul", "Aug", "Sep", "Oct", "Nov", "Dec"]

  datatype MonthSummary = MonthSummary(month: string, income: Cents, expense: Cents)

  function MonthOf(t: Transaction): int {
    t.transactionDate.month
  }

  /** `filter(t -> t.getTransactionDate().getYear() == year)`. */
  function InYear(txs: seq<Transaction>, year: int): seq<Transaction> {
    Filter(txs, (t: Transaction) => t.transactionDate.year == year)
  }

  /** `t` is the user's, of type `k`, and dated in month `m` of `year`. */
  predicate InBucket(t: Transaction, userId: int, year: int, m: int, k: TransactionType) {
    t.userId == userId && t.transactionDate.year == year && t.transactionDate.month == m && t.kind == k
  }

  /** The reference sum of one month: the amounts of the user's transactions
      of type `k` dated in month `m` of `year`, over the whole table. */
  function MonthTotal(rows: seq<Transaction>, userId: int, year: int, m: int, k: TransactionType): Cents {
    if rows == [] then 0
    else (if InBucket(rows[0], userId, year, m, k) then rows[0].amount else 0) + MonthTotal(rows[1..], userId, year, m, k)
  }

  /** The reference sum of one year: the amounts of the user's transactions
      of type `k` dated in `year`. */
  function YearTotal(rows: seq<Transaction>, userId: int, year: int, k: TransactionType): Cents {
    if rows == [] then 0
    else
      var t := rows[0];
      (if t.userId == userId && t.transactionDate.year == year && t.kind == k then t.amount else 0)
      + YearTotal(rows[1..], userId, year, k)
  }

  function IncomeOf(data: seq<MonthSummary>): Cents {
    if data == [] then 0 else data[0].income + IncomeOf(data[1..])
  }

  function ExpenseOf(data: seq<MonthSummary>): Cents {
    if data == [] then 0 else data[0].expense + ExpenseOf(data[1..])
  }

  /** `getMonthlySummary`: twelve buckets, January to December, each holding
      the income and expense sums of the user's transactions in that month of
      `year` (an empty month holds zeros). */
  method MonthlySummary(rows: seq<Transaction>, userId: int, year: int) returns (monthlyData: seq<MonthSummary>)
    ensures |monthlyData| == 12
    ensures forall i :: 0 <= i < 12 ==> monthlyData[i] == MonthSummary(MonthLabels[i],
              MonthTotal(rows, userId, year, i + 1, INCOME), MonthTotal(rows, userId, year, i + 1, EXPENSE))
  {
    var transactions := InYear(FindByUserId(rows, userId), year);
    var byMonth := GroupBy(transactions, MonthOf);
    monthlyData := [];
    for i := 1 to 13
      invariant |monthlyData| == i - 1
      invariant forall j :: 0 <= j < i - 1 ==> monthlyData[j] == MonthSummary(MonthLabels[j],
                  MonthTotal(rows, userId, year, j + 1, INCOME), MonthTotal(rows, userId, year, j + 1, EXPENSE))
    {
      var monthTransactions := if i in byMonth then byMonth[i] else [];
      var income := TotalAmount(OfKind(monthTransactions, INCOME));
      var expense := TotalAmount(OfKind(monthTransactions, EXPENSE));
      MonthBucket(rows, userId, year, i, INCOME);
      MonthBucket(rows, userId, year, i, EXPENSE);
      monthlyData := monthlyData + [MonthSummary(MonthLabels[i - 1], income, expense)];
    }
  }

  /** The stream pipeline of one bucket (the user's rows, that year, that
      month via `getOrDefault` on the grouping, that type, summed) computes the
      month's reference sum. */
  lemma MonthBucket(rows: seq<Transaction>, userId: int, year: int, m: int, k: TransactionType)
    ensures var byMonth := GroupBy(InYear(FindByUserId(rows, userId), year), MonthOf);
      TotalAmount(OfKind(if m in byMonth then byMonth[m] else [], k)) == MonthTotal(rows, userId, year, m, k)
  {
    GroupLookup(InYear(FindByUserId(rows, userId), year), MonthOf, m);
    MonthPipeline(rows, userId, year, m, k);
  }

  lemma MonthPipeline(rows: seq<Transaction>, userId: int, year: int, m: int, k: TransactionType)
    ensures TotalAmount(OfKind(Filter(InYear(FindByUserId(rows, userId), year), HasKey(MonthOf, m)), k))
         == MonthTotal(rows, userId, year, m, k)
  {
    var owned := (t: Transaction) => t.userId == userId;
    var dated := (t: Transaction) => t.transactionDate.year == year;
    var inMonth := HasKey(MonthOf, m);
    var typed := (t: Transaction) => t.kind == k;
    TotalFilter(Filter(Filter(Filter(rows, owned), dated), inMonth), typed);
    SumWhereFilter(Filter(Filter(rows, owned), dated), inMonth, typed);
    SumWhereFilter(Filter(rows, owned), dated, Both(inMonth, typed));
    SumWhereFilter(rows, owned, Both(dated, Both(inMonth, typed)));
    MonthTotalIsSumWhere(rows, userId, year, m, k, Both(owned, Both(dated, Both(inMonth, typed))));
  }

  lemma {:induction false} MonthTotalIsSumWhere(rows: seq<Transaction>, userId: int, year: int, m: int,
                                                k: TransactionType, p: Transaction -> bool)
    requires forall t :: p(t) == InBucket(t, userId, year, m, k)
    ensures MonthTotal(rows, userId, year, m, k) == SumWhere(rows, p)
  {
    if rows != [] {
      MonthTotalIsSumWhere(rows[1..], userId, year, m, k, p);
    }
  }

  /** The year's transactions fall into exactly one month each. */
  lemma {:induction false} YearTotalSplitsByMonth(rows: seq<Transaction>, userId: int, year: int, k: TransactionType, from: int)
    requires 1 <= from <= 13
    ensures MonthsFrom(rows, userId, year, k, from)
         == YearTotalFrom(rows, userId, year, k, from)
    decreases rows
  {
    if rows == [] {
      MonthsFromNothing(userId, year, k, from);
    } else {
      YearTotalSplitsByMonth(rows[1..], userId, year, k, from);
      MonthsFromFront(rows, userId, year, k, from);
      var t := rows[0];
      assert YearTotalFrom(rows, userId, year, k, from)
          == (if t.userId == userId && t.transactionDate.year == year && t.kind == k && from <= t.transactionDate.month
              then t.amount else 0)
             + YearTotalFrom(rows[1..], userId, year, k, from);
    }
  }

  /** Sum of the month totals of months `from`..12. */
  function MonthsFrom(rows: seq<Transaction>, userId: int, year: int, k: TransactionType, from: int): Cents
    decreases 13 - from
  {
    if from > 12 then 0 else MonthTotal(rows, userId, year, from, k) + MonthsFrom(rows, userId, year, k, from + 1)
  }

  /** The reference year sum restricted to months `from`..12. */
  function YearTotalFrom(rows: seq<Transaction>, userId: int, year: int, k: TransactionType, from: int): Cents {
    if rows == [] then 0
    else
      var t := rows[0];
      (if t.userId == userId && t.transactionDate.year == year && t.kind == k && from <= t.transactionDate.month
       then t.amount else 0)
      + YearTotalFrom(rows[1..], userId, year, k, from)
  }

  lemma {:induction false} MonthsFromNothing(userId: int, year: int, k: TransactionType, from: int)
    requires 1 <= from <= 13
    ensures MonthsFrom([], userId, year, k, from) == 0
    decreases 13 - from
  {
    if from <= 12 {
      MonthsFromNothing(userId, year, k, from + 1);
    }
  }

  lemma {:induction false} MonthsFromFront(rows: seq<Transaction>, userId: int, year: int, k: TransactionType, from: int)
    requires rows != [] && 1 <= from <= 13
    ensures MonthsFrom(rows, userId, year, k, from)
         == (var t := rows[0];
             if t.userId == userId && t.transactionDate.year == year && t.kind == k && from <= t.transactionDate.month
             then t.amount else 0)
            + MonthsFrom(rows[1..], userId, year, k, from)
    decreases 13 - from
  {
    if from <= 12 {
      MonthsFromFront(rows, userId, year, k, from + 1);
    }
  }

  lemma {:induction false} YearTotalFromOne(rows: seq<Transaction>, userId: int, year: int, k: TransactionType)
    ensures YearTotalFrom(rows, userId, year, k, 1) == YearTotal(rows, userId, year, k)
  {
    if rows != [] {
      YearTotalFromOne(rows[1..], userId, year, k);
    }
  }

  /** The twelve buckets of the summary add up to the year: their incomes to
      the year's income and their expenses to the year's expense. */
  lemma MonthlySummaryAddsUp(data: seq<MonthSummary>, rows: seq<Transaction>, userId: int, year: int)
    requires |data| == 12
    requires forall i :: 0 <= i < 12 ==> data[i] == MonthSummary(MonthLabels[i],
               MonthTotal(rows, userId, year, i + 1, INCOME), MonthTotal(rows, userId, year, i + 1, EXPENSE))
    ensures IncomeOf(data) == YearTotal(rows, userId, year, INCOME)
    ensures ExpenseOf(data) == YearTotal(rows, userId, year, EXPENSE)
  {
    BucketsFrom(data, rows, userId, year, 0);
    YearTotalSplitsByMonth(rows, userId, year, INCOME, 1);
    YearTotalSplitsByMonth(rows, userId, year, EXPENSE, 1);
    YearTotalFromOne(rows, userId, year, INCOME);
    YearTotalFromOne(rows, userId, year, EXPENSE);
  }

  lemma {:induction false} BucketsFrom(data: seq<MonthSummary>, rows: seq<Transaction>, userId: int, year: int, j: int)
    requires |data| == 12 && 0 <= j <= 12
    requires forall i :: 0 <= i < 12 ==> data[i] == MonthSummary(MonthLabels[i],
               MonthTotal(rows, userId, year, i + 1, INCOME), MonthTotal(rows, userId, year, i + 1, EXPENSE))
    ensures IncomeOf(data[j..]) == MonthsFrom(rows, userId, year, INCOME, j + 1)
    ensures ExpenseOf(data[j..]) == MonthsFrom(rows, userId, year, EXPENSE, j + 1)
    decreases 12 - j
  {
    if j < 12 {
      BucketsFrom(data, rows, userId, year, j + 1);
      assert data[j..][1..] == data[j + 1..];
    }
  }

  /** The stream sum of a year's transactions of one type is the reference
      year sum. */
  lemma YearPipeline(rows: seq<Transaction>, userId: int, year: int, k: TransactionType)
    ensures TotalAmount(OfKind(InYear(FindByUserId(rows, userId), year), k)) == YearTotal(rows, userId, year, k)
  {
    var owned := (t: Transaction) => t.userId == userId;
    var dated := (t: Transaction) => t.transactionDate.year == year;
    var typed := (t: Transaction) => t.kind == k;
    TotalFilter(Filter(Filter(rows, owned), dated), typed);
    SumWhereFilter(Filter(rows, owned), dated, typed);
    SumWhereFilter(rows, owned, Both(dated, typed));
    YearTotalIsSumWhere(rows, userId, year, k, Both(owned, Both(dated, typed)));
  }

  lemma {:induction false} YearTotalIsSumWhere(rows: seq<Transaction>, userId: int, year: int,
                                               k: TransactionType, p: Transaction -> bool)
    requires forall t :: p(t) == (t.userId == userId && t.transactionDate.year == year && t.kind == k)
    ensures YearTotal(rows, userId, year, k) == SumWhere(rows, p)
  {
    if rows != [] {
      YearTotalIsSumWhere(rows[1..], userId, year, k, p);
    }
  }

  // ---------------------------------------------------- recent transactions

  /** The limit used when the request does not give one. */
  const DefaultRecentLimit := 5

  function Min(a: int, b: int): int {
    if a <= b then a else b
  }

  /** `getRecentTransactions`: a stable sort by date, newest first, then the
      first `limit` rows; a negative limit makes `Stream.limit` throw. */
  function RecentTransactions(rows: seq<Transaction>, userId: int, limit: int): (r: Result<seq<Transaction>, ServiceError>)
    ensures r.Failure? <==> limit < 0
    ensures r.Failure? ==> r.error == IllegalArgument
    ensures r.Success? ==> |r.value| == Min(limit, |FindByUserId(rows, userId)|)
  {
    if limit < 0 then Failure(IllegalArgument)
    else
      var sorted := SortByDate(Descending, FindByUserId(rows, userId));
      SortByDateCorrect(Descending, FindByUserId(rows, userId));
      Success(sorted[..Min(limit, |sorted|)])
  }

  /** The rows returned are the user's, newest first; every row of the
      user's left out is no later than the last row returned; rows with equal
      dates come in their stored order (per date, the result is a prefix of
      the user's rows with that date). */
  lemma RecentAreMostRecent(rows: seq<Transaction>, userId: int, limit: int)
    requires limit >= 0
    ensures var r := RecentTransactions(rows, userId, limit).value;
      var txs := FindByUserId(rows, userId);
      && SortedBy(Descending, r)
      && (forall t :: t in r ==> t in rows && t.userId == userId)
      && multiset(r) <= multiset(txs)
      && (r != [] ==> forall t :: t in multiset(txs) - multiset(r) ==>
            DateLe(t.transactionDate, r[|r| - 1].transactionDate))
      && (forall d :: OnDate(r, d) <= OnDate(txs, d))
  {
    var txs := FindByUserId(rows, userId);
    var sorted := SortByDate(Descending, txs);
    SortByDateCorrect(Descending, txs);
    var n := Min(limit, |txs|);
    var r := sorted[..n];
    PrefixSorted(Descending, sorted, n);
    PrefixSplit(sorted, n);
    if n > 0 {
      SortedOmitted(sorted, n);
    }
    NewestStable(txs, n);
    forall t | t in r ensures t in rows && t.userId == userId {
      assert t in multiset(txs);
    }
  }

  /** A prefix of a sorted sequence is sorted. */
  lemma PrefixSorted(dir: Direction, s: seq<Transaction>, n: nat)
    requires n <= |s| && SortedBy(dir, s)
    ensures SortedBy(dir, s[..n])
  {
  }

  /** Splitting a sequence splits its multiset. */
  lemma PrefixSplit<T>(s: seq<T>, n: nat)
    requires n <= |s|
    ensures multiset(s[..n]) <= multiset(s)
    ensures multiset(s) - multiset(s[..n]) == multiset(s[n..])
  {
    assert s == s[..n] + s[n..];
  }

  /** In a newest-first sequence, every row after the first `n` is no later
      than the `n`-th. */
  lemma SortedOmitted(s: seq<Transaction>, n: nat)
    requires 0 < n <= |s| && SortedBy(Descending, s)
    ensures forall t :: t in multiset(s[n..]) ==> DateLe(t.transactionDate, s[n - 1].transactionDate)
  {
    forall t | t in multiset(s[n..])
      ensures DateLe(t.transactionDate, s[n - 1].transactionDate)
    {
      var k :| 0 <= k < |s[n..]| && s[n..][k] == t;
      assert s[n + k] == t;
    }
  }

  /** Per date, the first `n` rows of the sort are a prefix of the input's
      rows with that date. */
  lemma NewestStable(s: seq<Transaction>, n: nat)
    requires n <= |s|
    ensures forall d :: OnDate(SortByDate(Descending, s)[..n], d) <= OnDate(s, d)
  {
    var sorted := SortByDate(Descending, s);
    assert sorted == sorted[..n] + sorted[n..];
    forall d ensures OnDate(sorted[..n], d) <= OnDate(s, d) {
      FilterAppend(sorted[..n], sorted[n..], HasKey(DateOf, d));
      SortByDateStable(Descending, s, d);
    }
  }

  // ------------------------------------------------- spending by category

  datatype CategoryShare = CategoryShare(name: string, value: int, color: string)

  datatype SpendingBreakdown = SpendingBreakdown(totalSpending: Cents, categories: seq<CategoryShare>)

  /** `BigDecimal.divide(d, HALF_UP)` to an integer: the nearest integer to
      n / d, ties away from zero. */
  function DivHalfUp(n: int, d: int): int
    requires d > 0
  {
    if n >= 0 then (2 * n + d) / (2 * d) else -((2 * -n + d) / (2 * d))
  }

  /** The percentage of `part` in `total`: the quotient rounded HALF_UP to four
      places, times 100, then `Math.round`; zero when the total is not positive.
      With both at scale 2 the quotient in units of 0.0001 is
      DivHalfUp(part * 10000, total), and `Math.round(q / 100)` is
      floor((q + 50) / 100). */
  function Percentage(part: Cents, total: Cents): int {
    if total > 0 then (DivHalfUp(part * 10000, total) + 50) / 100 else 0
  }

  function CategoryName(t: Transaction): string {
    t.category.name
  }

  /** A row that enters the breakdown: one of the user's expenses, inside the
      inclusive date window when both bounds are given. */
  predicate IsSpend(t: Transaction, userId: int, startDate: Option<Date>, endDate: Option<Date>) {
    && t.userId == userId
    && (startDate.Some? && endDate.Some? ==> Between(t.transactionDate, startDate.value, endDate.value))
    && t.kind == EXPENSE
  }

  /** The sum of the amounts of the rows that enter the breakdown. */
  function SpendTotal(rows: seq<Transaction>, userId: int, startDate: Option<Date>, endDate: Option<Date>): Cents {
    if rows == [] then 0
    else (if IsSpend(rows[0], userId, startDate, endDate) then rows[0].amount else 0)
         + SpendTotal(rows[1..], userId, startDate, endDate)
  }

  /** The same sum restricted to the category called `name`. */
  function CategorySpend(rows: seq<Transaction>, userId: int, startDate: Option<Date>, endDate: Option<Date>,
                         name: string): Cents
  {
    if rows == [] then 0
    else (if IsSpend(rows[0], userId, startDate, endDate) && CategoryName(rows[0]) == name then rows[0].amount else 0)
         + CategorySpend(rows[1..], userId, startDate, endDate, name)
  }

  /** Some row that enters the breakdown belongs to the category `name`. */
  predicate SpendsOn(rows: seq<Transaction>, userId: int, startDate: Option<Date>, endDate: Option<Date>, name: string) {
    exists t :: t in rows && IsSpend(t, userId, startDate, endDate) && CategoryName(t) == name
  }

  /** `!date.isBefore(start) && !date.isAfter(end)`. */
  function Within(start: Date, end: Date): Transaction -> bool {
    (t: Transaction) => Between(t.transactionDate, start, end)
  }

  /** The expenses that enter the breakdown, computed as the service does:
      the user's rows, the window applied only when both bounds are given,
      then the expenses. */
  function SpendingExpenses(rows: seq<Transaction>, userId: int, startDate: Option<Date>, endDate: Option<Date>): (r: seq<Transaction>)
    ensures forall t :: t in r <==> t in rows && IsSpend(t, userId, startDate, endDate)
  {
    var txs := FindByUserId(rows, userId);
    var windowed :=
      if startDate.Some? && endDate.Some?
      then var inWindow := Within(startDate.value, endDate.value); FilterMembers(txs, inWindow); Filter(txs, inWindow)
      else txs;
    var typed := (t: Transaction) => t.kind == EXPENSE;
    FilterMembers(windowed, typed);
    Filter(windowed, typed)
  }

  function Labels(categories: seq<CategoryShare>): seq<string> {
    seq(|categories|, i requires 0 <= i < |categories| => categories[i].name)
  }

  lemma LabelsAppend(categories: seq<CategoryShare>, share: CategoryShare)
    ensures Labels(categories + [share]) == Labels(categories) + [share.name]
  {
  }

  /** The slices built so far: one per category in `done`, each named once,
      coloured by its position and valued at its share of `total`. */
  ghost predicate SharesOf(cs: seq<CategoryShare>, rows: seq<Transaction>, userId: int, startDate: Option<Date>,
                           endDate: Option<Date>, total: Cents, done: set<string>)
  {
    && NamedOnce(cs, done)
    && (forall i :: 0 <= i < |cs| ==> cs[i].color == Palette[i % |Palette|])
    && (forall i :: 0 <= i < |cs| ==>
          cs[i].value == Percentage(CategorySpend(rows, userId, startDate, endDate, cs[i].name), total))
  }

  /** The labels of `cs` are the names in `done`, each once. */
  ghost predicate NamedOnce(cs: seq<CategoryShare>, done: set<string>) {
    && (forall i :: 0 <= i < |cs| ==> cs[i].name in done)
    && (forall name :: name in done ==> name in Labels(cs))
    && (forall i, j :: 0 <= i < j < |cs| ==> cs[i].name != cs[j].name)
  }

  lemma NamedOnceStep(cs: seq<CategoryShare>, done: set<string>, share: CategoryShare)
    requires NamedOnce(cs, done) && share.name !in done
    ensures NamedOnce(cs + [share], done + {share.name})
  {
    LabelsAppend(cs, share);
  }

  lemma ShareStep(cs: seq<CategoryShare>, rows: seq<Transaction>, userId: int, startDate: Option<Date>,
                  endDate: Option<Date>, total: Cents, done: set<string>, name: string)
    requires SharesOf(cs, rows, userId, startDate, endDate, total, done) && name !in done
    ensures SharesOf(cs + [CategoryShare(name, Percentage(CategorySpend(rows, userId, startDate, endDate, name), total),
                                         Palette[|cs| % |Palette|])],
                     rows, userId, startDate, endDate, total, done + {name})
  {
    var share := CategoryShare(name, Percentage(CategorySpend(rows, userId, startDate, endDate, name), total),
                               Palette[|cs| % |Palette|]);
    NamedOnceStep(cs, done, share);
  }

  /** `getSpendingByCategory`. The groups come out of a HashMap in no fixed
      order; the loop takes any remaining group next, so every property below
      holds whatever that order is. */
  method SpendingByCategory(rows: seq<Transaction>, userId: int, startDate: Option<Date>, endDate: Option<Date>)
    returns (result: SpendingBreakdown)
    ensures result.totalSpending == SpendTotal(rows, userId, startDate, endDate)
    ensures forall i, j :: 0 <= i < j < |result.categories| ==> result.categories[i].name != result.categories[j].name
    ensures forall i :: 0 <= i < |result.categories| ==>
      && SpendsOn(rows, userId, startDate, endDate, result.categories[i].name)
      && result.categories[i].color == Palette[i % |Palette|]
      && result.categories[i].value
         == Percentage(CategorySpend(rows, userId, startDate, endDate, result.categories[i].name), result.totalSpending)
    ensures forall t :: t in rows && IsSpend(t, userId, startDate, endDate) ==> CategoryName(t) in Labels(result.categories)
  {
    var expenses := SpendingExpenses(rows, userId, startDate, endDate);
    var totalSpending := TotalAmount(expenses);
    SpendTotalPipeline(rows, userId, startDate, endDate);
    var byCategory := GroupBy(expenses, CategoryName);
    var categories: seq<CategoryShare> := [];
    var remaining := byCategory.Keys;
    var index := 0;
    while remaining != {}
      invariant remaining <= byCategory.Keys
      invariant index == |categories|
      invariant SharesOf(categories, rows, userId, startDate, endDate, totalSpending, byCategory.Keys - remaining)
      decreases remaining
    {
      var name :| name in remaining;
      CategoryBucket(rows, userId, startDate, endDate, name);
      var categoryTotal := TotalAmount(byCategory[name]);
      var percentage := Percentage(categoryTotal, totalSpending);
      var share := CategoryShare(name, percentage, CategoryColor(index));
      ShareStep(categories, rows, userId, startDate, endDate, totalSpending, byCategory.Keys - remaining, name);
      categories := categories + [share];
      assert byCategory.Keys - (remaining - {name}) == (byCategory.Keys - remaining) + {name};
      remaining := remaining - {name};
      index := index + 1;
    }
    result := SpendingBreakdown(totalSpending, categories);
    LabelsAreSpentCategories(rows, userId, startDate, endDate, Labels(categories));
  }

  lemma {:induction false} SpendTotalIsSumWhere(rows: seq<Transaction>, userId: int, startDate: Option<Date>,
                                                endDate: Option<Date>, p: Transaction -> bool)
    requires forall t :: p(t) == IsSpend(t, userId, startDate, endDate)
    ensures SpendTotal(rows, userId, startDate, endDate) == SumWhere(rows, p)
  {
    if rows != [] {
      SpendTotalIsSumWhere(rows[1..], userId, startDate, endDate, p);
    }
  }

  lemma {:induction false} CategorySpendIsSumWhere(rows: seq<Transaction>, userId: int, startDate: Option<Date>,
                                                   endDate: Option<Date>, name: string, p: Transaction -> bool)
    requires forall t :: p(t) == (IsSpend(t, userId, startDate, endDate) && CategoryName(t) == name)
    ensures CategorySpend(rows, userId, startDate, endDate, name) == SumWhere(rows, p)
  {
    if rows != [] {
      CategorySpendIsSumWhere(rows[1..], userId, startDate, endDate, name, p);
    }
  }

  /** The total the service reduces over the filtered expenses is the flat sum. */
  lemma SpendTotalPipeline(rows: seq<Transaction>, userId: int, startDate: Option<Date>, endDate: Option<Date>)
    ensures TotalAmount(SpendingExpenses(rows, userId, startDate, endDate)) == SpendTotal(rows, userId, startDate, endDate)
  {
    var owned := (t: Transaction) => t.userId == userId;
    var typed := (t: Transaction) => t.kind == EXPENSE;
    if startDate.Some? && endDate.Some? {
      var inWindow := Within(startDate.value, endDate.value);
      TotalFilter(Filter(Filter(rows, owned), inWindow), typed);
      SumWhereFilter(Filter(rows, owned), inWindow, typed);
      SumWhereFilter(rows, owned, Both(inWindow, typed));
      SpendTotalIsSumWhere(rows, userId, startDate, endDate, Both(owned, Both(inWindow, typed)));
    } else {
      TotalFilter(Filter(rows, owned), typed);
      SumWhereFilter(rows, owned, typed);
      SpendTotalIsSumWhere(rows, userId, startDate, endDate, Both(owned, typed));
    }
  }

  /** One category's share of the filtered expenses is its flat sum. */
  lemma CategoryPipeline(rows: seq<Transaction>, userId: int, startDate: Option<Date>, endDate: Option<Date>, name: string)
    ensures TotalAmount(Filter(SpendingExpenses(rows, userId, startDate, endDate), HasKey(CategoryName, name)))
         == CategorySpend(rows, userId, startDate, endDate, name)
  {
    var owned := (t: Transaction) => t.userId == userId;
    var typed := (t: Transaction) => t.kind == EXPENSE;
    var named := HasKey(CategoryName, name);
    if startDate.Some? && endDate.Some? {
      var inWindow := Within(startDate.value, endDate.value);
      TotalFilter(Filter(Filter(Filter(rows, owned), inWindow), typed), named);
      SumWhereFilter(Filter(Filter(rows, owned), inWindow), typed, named);
      SumWhereFilter(Filter(rows, owned), inWindow, Both(typed, named));
      SumWhereFilter(rows, owned, Both(inWindow, Both(typed, named)));
      CategorySpendIsSumWhere(rows, userId, startDate, endDate, name, Both(owned, Both(inWindow, Both(typed, named))));
    } else {
      TotalFilter(Filter(Filter(rows, owned), typed), named);
      SumWhereFilter(Filter(rows, owned), typed, named);
      SumWhereFilter(rows, owned, Both(typed, named));
      CategorySpendIsSumWhere(rows, userId, startDate, endDate, name, Both(owned, Both(typed, named)));
    }
  }

  /** The group the loop reads for `name` totals to the category's flat sum. */
  lemma CategoryBucket(rows: seq<Transaction>, userId: int, startDate: Option<Date>, endDate: Option<Date>, name: string)
    requires name in GroupBy(SpendingExpenses(rows, userId, startDate, endDate), CategoryName)
    ensures TotalAmount(GroupBy(SpendingExpenses(rows, userId, startDate, endDate), CategoryName)[name])
         == CategorySpend(rows, userId, startDate, endDate, name)
  {
    GroupLookup(SpendingExpenses(rows, userId, startDate, endDate), CategoryName, name);
    CategoryPipeline(rows, userId, startDate, endDate, name);
  }

  /** The groups are exactly the categories something was spent on. */
  lemma SpendKey(rows: seq<Transaction>, userId: int, startDate: Option<Date>, endDate: Option<Date>, name: string)
    ensures name in GroupBy(SpendingExpenses(rows, userId, startDate, endDate), CategoryName)
            <==> SpendsOn(rows, userId, startDate, endDate, name)
  {
    GroupByIsFilter(SpendingExpenses(rows, userId, startDate, endDate), CategoryName);
  }

  /** Labels drawn from the groups and covering them name exactly the
      categories something was spent on. */
  lemma LabelsAreSpentCategories(rows: seq<Transaction>, userId: int, startDate: Option<Date>, endDate: Option<Date>,
                                 names: seq<string>)
    requires forall i :: 0 <= i < |names| ==> names[i] in GroupBy(SpendingExpenses(rows, userId, startDate, endDate), CategoryName)
    requires forall name :: name in GroupBy(SpendingExpenses(rows, userId, startDate, endDate), CategoryName) ==> name in names
    ensures forall i :: 0 <= i < |names| ==> SpendsOn(rows, userId, startDate, endDate, names[i])
    ensures forall t :: t in rows && IsSpend(t, userId, startDate, endDate) ==> CategoryName(t) in names
  {
    forall i | 0 <= i < |names| ensures SpendsOn(rows, userId, startDate, endDate, names[i]) {
      SpendKey(rows, userId, startDate, endDate, names[i]);
    }
    forall t | t in rows && IsSpend(t, userId, startDate, endDate) ensures CategoryName(t) in names {
      SpendKey(rows, userId, startDate, endDate, CategoryName(t));
    }
  }

  /** The sum of the listed categories' flat sums. */
  function SpendOver(rows: seq<Transaction>, userId: int, startDate: Option<Date>, endDate: Option<Date>,
                     names: seq<string>): Cents
  {
    if names == [] then 0
    else CategorySpend(rows, userId, startDate, endDate, names[0]) + SpendOver(rows, userId, startDate, endDate, names[1..])
  }

  lemma {:induction false} SpendOverIsTotalOverKeys(rows: seq<Transaction>, userId: int, startDate: Option<Date>,
                                                    endDate: Option<Date>, names: seq<string>)
    ensures SpendOver(rows, userId, startDate, endDate, names)
         == TotalOverKeys(names, SpendingExpenses(rows, userId, startDate, endDate), CategoryName)
  {
    if names != [] {
      SpendOverIsTotalOverKeys(rows, userId, startDate, endDate, names[1..]);
      CategoryPipeline(rows, userId, startDate, endDate, names[0]);
    }
  }

  /** The slices of the pie add up to the whole: over distinct labels that
      cover every expense, the category sums total the spending. */
  lemma SpendingSharesAddUp(rows: seq<Transaction>, userId: int, startDate: Option<Date>, endDate: Option<Date>,
                            names: seq<string>)
    requires forall i, j :: 0 <= i < j < |names| ==> names[i] != names[j]
    requires forall t :: t in rows && IsSpend(t, userId, startDate, endDate) ==> CategoryName(t) in names
    ensures SpendOver(rows, userId, startDate, endDate, names) == SpendTotal(rows, userId, startDate, endDate)
  {
    var expenses := SpendingExpenses(rows, userId, startDate, endDate);
    SpendOverIsTotalOverKeys(rows, userId, startDate, endDate, names);
    GroupTotalsAddUp(names, expenses, CategoryName);
    SpendTotalPipeline(rows, userId, startDate, endDate);
  }

  /** With positive amounts a category's sum lies between zero and the total. */
  lemma {:induction false} CategorySpendBounds(rows: seq<Transaction>, userId: int, startDate: Option<Date>,
                                               endDate: Option<Date>, name: string)
    requires AllPositive(rows)
    ensures 0 <= CategorySpend(rows, userId, startDate, endDate, name) <= SpendTotal(rows, userId, startDate, endDate)
  {
    if rows != [] {
      assert rows[0] in rows;
      CategorySpendBounds(rows[1..], userId, startDate, endDate, name);
    }
  }

  /** With positive amounts every slice is a percentage between 0 and 100. */
  lemma SharePercentBounds(rows: seq<Transaction>, userId: int, startDate: Option<Date>, endDate: Option<Date>, name: string)
    requires AllPositive(rows)
    ensures 0 <= Percentage(CategorySpend(rows, userId, startDate, endDate, name), SpendTotal(rows, userId, startDate, endDate)) <= 100
  {
    CategorySpendBounds(rows, userId, startDate, endDate, name);
    PercentageBounds(CategorySpend(rows, userId, startDate, endDate, name), SpendTotal(rows, userId, startDate, endDate));
  }

  lemma DivHalfUpBounds(n: int, d: int, m: int)
    requires d > 0 && m >= 0 && 0 <= n <= m * d
    ensures 0 <= DivHalfUp(n, d) <= m
  {
    assert (m + 1) * (2 * d) == 2 * (m * d) + 2 * d;
    DivBelow(2 * n + d, 2 * d, m);
  }

  lemma MulNonneg(x: int, y: int)
    ensures x >= 0 && y >= 0 ==> x * y >= 0
  {
  }

  /** The only multiple of `b` strictly between -b and b is zero. */
  lemma MulZero(x: int, b: int)
    requires b > 0 && -b < x * b < b
    ensures x == 0
  {
    MulNonneg(x - 1, b);
    MulNonneg(-x - 1, b);
    assert x * b == (x - 1) * b + b;
    assert (-x - 1) * b == -(x * b) - b;
  }

  /** a == q * b + r with 0 <= r < b determines a / b. */
  lemma DivExact(a: int, b: int, q: int, r: int)
    requires b > 0 && 0 <= r < b && a == q * b + r
    ensures a / b == q
  {
    var q', r' := a / b, a % b;
    assert a == q' * b + r';
    assert (q - q') * b == r' - r;
    MulZero(q - q', b);
  }

  /** a < (q + 1) * b implies a / b <= q. */
  lemma DivBelow(a: int, b: int, q: int)
    requires b > 0 && 0 <= a < (q + 1) * b
    ensures a / b <= q
  {
    var q', r' := a / b, a % b;
    assert a == q' * b + r';
    MulNonneg(q' - q - 1, b);
    assert (q' - q - 1) * b == q' * b - (q + 1) * b;
  }

  /** A part of the spending between zero and the whole gets 0..100. */
  lemma PercentageBounds(part: Cents, total: Cents)
    requires 0 <= part <= total
    ensures 0 <= Percentage(part, total) <= 100
  {
    if total > 0 {
      DivHalfUpBounds(part * 10000, total, 10000);
    }
  }

  /** When the share is a whole percentage, the rounding steps change nothing:
      Food 400.00 of 1000.00 gives 40 and Transport 600.00 gives 60. */
  lemma PercentageExact(part: Cents, total: Cents, v: int)
    requires total > 0 && v >= 0 && part * 100 == v * total
    ensures Percentage(part, total) == v
  {
    assert 2 * (part * 10000) + total == (100 * v) * (2 * total) + total;
    DivExact(2 * (part * 10000) + total, 2 * total, 100 * v, total);
    DivExact(100 * v + 50, 100, v, 50);
  }

  /** With no expenses at all every category would get 0. */
  lemma PercentageOfNothing(part: Cents)
    ensures Percentage(part, 0) == 0
  {
  }

  // ------------------------------------------------------ financial trends

  datatype TrendPoint = TrendPoint(month: int, balance: int)

  /** The 0-based month of the year (January is 0), for the chart. */
  function MonthKey(t: Transaction): int {
    t.transactionDate.month - 1
  }

  function MonthKeys(s: seq<Transaction>): (r: seq<int>)
    ensures |r| == |s|
  {
    if s == [] then [] else MonthKeys(s[..|s| - 1]) + [MonthKey(s[|s| - 1])]
  }

  /** The in-range transactions in the order the trend walks them: bounds
      inclusive, sorted by date ascending, ties in stored order. */
  function TrendWalk(rows: seq<Transaction>, userId: int, startDate: Date, endDate: Date): seq<Transaction> {
    SortByDate(Ascending, Filter(FindByUserId(rows, userId), Within(startDate, endDate)))
  }

  /** The keys of a LinkedHashMap after putting `ks` in order: each distinct
      key once, where it was first put. */
  function FirstSeen(ks: seq<int>): seq<int> {
    if ks == [] then []
    else
      var prior := FirstSeen(ks[..|ks| - 1]);
      if ks[|ks| - 1] in prior then prior else prior + [ks[|ks| - 1]]
  }

  /** The running balance right after the last transaction of `s` with month
      key `m`. */
  function BalanceAfterLast(s: seq<Transaction>, m: int): int {
    if s == [] then 0
    else if MonthKey(s[|s| - 1]) == m then Net(s)
    else BalanceAfterLast(s[..|s| - 1], m)
  }

  /** What the first loop of `getFinancialTrends` holds after walking `s`:
      the map's keys in insertion order, the running balance, and per key the
      balance after the last transaction with that key. */
  ghost predicate TrendState(s: seq<Transaction>, keys: seq<int>, balances: map<int, int>, cumulative: int) {
    && keys == FirstSeen(MonthKeys(s))
    && cumulative == Net(s)
    && (forall m :: m in balances ==> m in keys)
    && (forall k :: 0 <= k < |keys| ==> keys[k] in balances && balances[keys[k]] == BalanceAfterLast(s, keys[k]))
  }

  /** One iteration of the first loop, over `ts[j]`, keeps `TrendState`. */
  lemma TrendStep(ts: seq<Transaction>, j: nat, keys: seq<int>, balances: map<int, int>, cumulative: int,
                  keys': seq<int>, balances': map<int, int>, cumulative': int)
    requires j < |ts| && TrendState(ts[..j], keys, balances, cumulative)
    requires cumulative' == if ts[j].kind == INCOME then cumulative + ts[j].amount else cumulative - ts[j].amount
    requires keys' == if MonthKey(ts[j]) in balances then keys else keys + [MonthKey(ts[j])]
    requires balances' == balances[MonthKey(ts[j]) := cumulative']
    ensures TrendState(ts[..j + 1], keys', balances', cumulative')
  {
    var s, t := ts[..j], ts[j];
    assert ts[..j + 1] == s + [t];
    FirstSeenSnoc(s, t);
    NetSnoc(s, t);
    FirstSeenMembers(MonthKeys(s));
    forall k | 0 <= k < |keys'| ensures keys'[k] in balances' && balances'[keys'[k]] == BalanceAfterLast(s + [t], keys'[k]) {
      BalanceAfterLastSnoc(s, t, keys'[k]);
    }
  }

  lemma FirstSeenSnoc(s: seq<Transaction>, t: Transaction)
    ensures FirstSeen(MonthKeys(s + [t]))
         == if MonthKey(t) in FirstSeen(MonthKeys(s)) then FirstSeen(MonthKeys(s)) else FirstSeen(MonthKeys(s)) + [MonthKey(t)]
  {
    var s' := s + [t];
    assert s'[..|s'| - 1] == s;
    var ks := MonthKeys(s');
    assert ks == MonthKeys(s) + [MonthKey(t)];
    assert ks[..|ks| - 1] == MonthKeys(s);
  }

  lemma NetSnoc(s: seq<Transaction>, t: Transaction)
    ensures Net(s + [t]) == Net(s) + (if t.kind == INCOME then t.amount else -t.amount)
  {
    var s' := s + [t];
    assert s'[..|s'| - 1] == s;
  }

  lemma BalanceAfterLastSnoc(s: seq<Transaction>, t: Transaction, m: int)
    ensures BalanceAfterLast(s + [t], m) == if MonthKey(t) == m then Net(s + [t]) else BalanceAfterLast(s, m)
  {
    var s' := s + [t];
    assert s'[..|s'| - 1] == s;
  }

  /** After the whole walk, every key has its balance in the map. */
  lemma TrendDone(ts: seq<Transaction>, keys: seq<int>, balances: map<int, int>, cumulative: int)
    requires TrendState(ts[..|ts|], keys, balances, cumulative)
    ensures keys == FirstSeen(MonthKeys(ts))
    ensures forall k :: 0 <= k < |keys| ==> keys[k] in balances && balances[keys[k]] == BalanceAfterLast(ts, keys[k])
  {
    assert ts[..|ts|] == ts;
  }

  /** `getFinancialTrends`: one point per month key met in the walk, in the
      order first met, each holding the running balance after the last
      transaction with that key. */
  method FinancialTrends(rows: seq<Transaction>, userId: int, startDate: Date, endDate: Date)
    returns (trends: seq<TrendPoint>)
    ensures var s := TrendWalk(rows, userId, startDate, endDate);
      && |trends| == |FirstSeen(MonthKeys(s))|
      && (forall i :: 0 <= i < |trends| ==> trends[i].month == FirstSeen(MonthKeys(s))[i])
      && (forall i :: 0 <= i < |trends| ==> trends[i].balance == BalanceAfterLast(s, trends[i].month))
  {
    var transactions := TrendWalk(rows, userId, startDate, endDate);
    var keys: seq<int> := [];
    var monthlyBalances: map<int, int> := map[];
    var cumulativeBalance := 0;
    for j := 0 to |transactions|
      invariant TrendState(transactions[..j], keys, monthlyBalances, cumulativeBalance)
    {
      var t := transactions[j];
      ghost var keys0, balances0, cumulative0 := keys, monthlyBalances, cumulativeBalance;
      if t.kind == INCOME {
        cumulativeBalance := cumulativeBalance + t.amount;
      } else {
        cumulativeBalance := cumulativeBalance - t.amount;
      }
      var month := t.transactionDate.month - 1;
      if month !in monthlyBalances {
        keys := keys + [month];
      }
      monthlyBalances := monthlyBalances[month := cumulativeBalance];
      TrendStep(transactions, j, keys0, balances0, cumulative0, keys, monthlyBalances, cumulativeBalance);
    }
    TrendDone(transactions, keys, monthlyBalances, cumulativeBalance);
    trends := EntryPoints(keys, monthlyBalances);
  }

  /** The second loop of `getFinancialTrends`: one point per map entry, in
      the map's insertion order `keys`. */
  method EntryPoints(keys: seq<int>, balances: map<int, int>) returns (trends: seq<TrendPoint>)
    requires forall k :: 0 <= k < |keys| ==> keys[k] in balances
    ensures |trends| == |keys|
    ensures forall k :: 0 <= k < |keys| ==> trends[k].month == keys[k] && trends[k].balance == balances[keys[k]]
  {
    trends := [];
    for i := 0 to |keys|
      invariant |trends| == i
      invariant forall k :: 0 <= k < i ==> trends[k].month == keys[k] && trends[k].balance == balances[keys[k]]
    {
      trends := trends + [TrendPoint(keys[i], balances[keys[i]])];
    }
  }

  lemma {:induction false} FirstSeenMembers(ks: seq<int>)
    ensures forall m :: m in FirstSeen(ks) <==> m in ks
  {
    if ks != [] {
      FirstSeenMembers(ks[..|ks| - 1]);
      assert ks == ks[..|ks| - 1] + [ks[|ks| - 1]];
    }
  }

  lemma {:induction false} FirstSeenDistinct(ks: seq<int>)
    ensures forall i, j :: 0 <= i < j < |FirstSeen(ks)| ==> FirstSeen(ks)[i] != FirstSeen(ks)[j]
  {
    if ks != [] {
      FirstSeenDistinct(ks[..|ks| - 1]);
    }
  }

  /** The first position of `m` in `ks`. */
  function IndexOf(ks: seq<int>, m: int): (k: nat)
    requires m in ks
    ensures k < |ks| && ks[k] == m && forall i :: 0 <= i < k ==> ks[i] != m
  {
    if ks[0] == m then 0 else 1 + IndexOf(ks[1..], m)
  }

  /** Both keys occur in `ks` and `a` occurs first. */
  predicate MetBefore(ks: seq<int>, a: int, b: int) {
    a in ks && b in ks && IndexOf(ks, a) < IndexOf(ks, b)
  }

  /** Points come in the order their months were first met. */
  lemma {:induction false} FirstSeenOrder(ks: seq<int>)
    ensures forall i, j :: 0 <= i < j < |FirstSeen(ks)| ==> MetBefore(ks, FirstSeen(ks)[i], FirstSeen(ks)[j])
  {
    if ks != [] {
      var init, x := ks[..|ks| - 1], ks[|ks| - 1];
      var prior, seen := FirstSeen(init), FirstSeen(ks);
      FirstSeenOrder(init);
      FirstSeenMembers(init);
      assert ks == init + [x];
      forall i, j | 0 <= i < j < |seen| ensures MetBefore(ks, seen[i], seen[j]) {
        assert seen[i] == prior[i] && prior[i] in init;
        if j < |prior| {
          MetBeforeExtend(init, x, prior[i], prior[j]);
        } else {
          MetBeforeNew(init, x, prior[i]);
        }
      }
    }
  }

  lemma MetBeforeExtend(ks: seq<int>, x: int, a: int, b: int)
    requires MetBefore(ks, a, b)
    ensures MetBefore(ks + [x], a, b)
  {
    IndexOfPrefix(ks, [x], a);
    IndexOfPrefix(ks, [x], b);
  }

  lemma MetBeforeNew(ks: seq<int>, x: int, a: int)
    requires a in ks && x !in ks
    ensures MetBefore(ks + [x], a, x)
  {
    IndexOfPrefix(ks, [x], a);
    IndexOfAfter(ks, [x], x);
  }

  lemma {:induction false} IndexOfAfter(a: seq<int>, b: seq<int>, m: int)
    requires m !in a && m in b
    ensures m in a + b && IndexOf(a + b, m) == |a| + IndexOf(b, m)
  {
    if a == [] {
      assert a + b == b;
    } else {
      assert (a + b)[1..] == a[1..] + b;
      IndexOfAfter(a[1..], b, m);
    }
  }

  lemma {:induction false} IndexOfPrefix(a: seq<int>, b: seq<int>, m: int)
    requires m in a
    ensures m in a + b && IndexOf(a + b, m) == IndexOf(a, m)
  {
    if a[0] != m {
      assert (a + b)[1..] == a[1..] + b;
      IndexOfPrefix(a[1..], b, m);
    }
  }

  /** The walk's last month key holds the net of the whole range, which is
      the range's income minus its expense (the order of the walk does not
      matter); the walk is the user's in-range rows of the date-range query. */
  lemma TrendEndsAtRangeNet(rows: seq<Transaction>, userId: int, startDate: Date, endDate: Date)
    requires TrendWalk(rows, userId, startDate, endDate) != []
    ensures var s := TrendWalk(rows, userId, startDate, endDate);
      var inRange := FindByUserIdAndTransactionDateBetween(rows, userId, startDate, endDate);
      && multiset(s) == multiset(inRange)
      && BalanceAfterLast(s, MonthKey(s[|s| - 1]))
         == TotalAmount(OfKind(inRange, INCOME)) - TotalAmount(OfKind(inRange, EXPENSE))
  {
    var s := TrendWalk(rows, userId, startDate, endDate);
    var owned := (t: Transaction) => t.userId == userId;
    var between := Within(startDate, endDate);
    var filtered := Filter(FindByUserId(rows, userId), between);
    SortByDateCorrect(Ascending, filtered);
    FilterFilter(rows, owned, between);
    FilterExtensional(rows, Both(owned, between),
      (t: Transaction) => t.userId == userId && Between(t.transactionDate, startDate, endDate));
    var inRange := FindByUserIdAndTransactionDateBetween(rows, userId, startDate, endDate);
    assert filtered == inRange;
    NetPermutation(s, inRange);
    NetIsIncomeMinusExpense(inRange);
  }

  // ------------------------------------------------ update and delete rows

  /** `updated` is `existing` with the eleven fields copied from `details`
      (category, type, amount, description, location, date, isRecurring,
      frequency, nextExecutionDate, endDate, isActive); id, owner and creation
      time are kept, and the update time is `now`. */
  ghost predicate UpdatedFrom(updated: Transaction, existing: Transaction, details: Transaction, now: Timestamp) {
    && updated.id == existing.id
    && updated.userId == existing.userId
    && updated.createdAt == existing.createdAt
    && updated.updatedAt == Some(now)
    && updated.category == details.category
    && updated.kind == details.kind
    && updated.amount == details.amount
    && updated.description == details.description
    && updated.location == details.location
    && updated.transactionDate == details.transactionDate
    && updated.isRecurring == details.isRecurring
    && updated.frequency == details.frequency
    && updated.nextExecutionDate == details.nextExecutionDate
    && updated.endDate == details.endDate
    && updated.isActive == details.isActive
  }

  /** Every row has an id below `nextId` and no two rows share an id. */
  ghost predicate IdsIssued(rows: seq<Transaction>, nextId: int) {
    && (forall i :: 0 <= i < |rows| ==> rows[i].id.Some? && rows[i].id.value < nextId)
    && (forall i, j :: 0 <= i < j < |rows| ==> rows[i].id != rows[j].id)
  }

  /** Removing the row at `k` keeps the ids issued and unique, and removes
      exactly the rows with that row's id. */
  lemma RemoveRow(rows: seq<Transaction>, nextId: int, k: nat)
    requires IdsIssued(rows, nextId) && k < |rows|
    ensures IdsIssued(rows[..k] + rows[k + 1..], nextId)
    ensures forall t :: t in rows[..k] + rows[k + 1..] <==> t in rows && t.id != rows[k].id
  {
    var rest := rows[..k] + rows[k + 1..];
    assert forall i :: 0 <= i < |rest| ==> rest[i] == rows[if i < k then i else i + 1];
    forall t ensures t in rest <==> t in rows && t.id != rows[k].id {
      if t in rows && t.id != rows[k].id {
        var i :| 0 <= i < |rows| && rows[i] == t;
        assert t == rest[if i < k then i else i - 1];
      }
    }
  }

  /** The `is_recurring` column is declared NOT NULL: every stored row has
      a value there. */
  ghost predicate RecurringStored(rows: seq<Transaction>) {
    forall t :: t in rows ==> t.isRecurring.Some?
  }

  /** The transactions table as the service writes it: every stored row has
      an id, ids are unique and below the next id the database will issue,
      and the NOT NULL recurrence flag is set. */
  class TransactionStore {
    var rows: seq<Transaction>
    var nextId: int

    ghost predicate Valid()
      reads this
    {
      IdsIssued(rows, nextId) && RecurringStored(rows)
    }

    constructor ()
      ensures Valid() && rows == [] && nextId == 1
    {
      rows := [];
      nextId := 1;
    }

    /** `createTransaction`: `save` of a new row; the database refuses a
        null recurrence flag, otherwise it issues the id and the persist hook
        stamps both times with `now`. */
    method CreateTransaction(t: Transaction, now: Timestamp) returns (r: Result<Transaction, ServiceError>)
      requires Valid() && t.id.None?
      modifies this
      ensures Valid()
      ensures t.isRecurring.None? ==> r == Failure(RecurringNull) && rows == old(rows) && nextId == old(nextId)
      ensures t.isRecurring.Some? ==>
        && r == Success(t.(id := Some(old(nextId)), createdAt := Some(now), updatedAt := Some(now)))
        && rows == old(rows) + [r.value]
    {
      if t.isRecurring.None? {
        return Failure(RecurringNull);
      }
      var saved := t.(id := Some(nextId), createdAt := Some(now), updatedAt := Some(now));
      rows := rows + [saved];
      nextId := nextId + 1;
      r := Success(saved);
    }

    /** `updateTransaction`: raises when no row has the id, otherwise copies
        the eleven fields onto the stored row and saves it in place; the save
        of a null recurrence flag is refused and the transaction rolls back. */
    method UpdateTransaction(id: int, details: Transaction, now: Timestamp) returns (r: Result<Transaction, ServiceError>)
      requires Valid()
      modifies this
      ensures Valid() && nextId == old(nextId)
      ensures IndexOfId(old(rows), id).None? ==> r == Failure(TransactionNotFound(id)) && rows == old(rows)
      ensures IndexOfId(old(rows), id).Some? && details.isRecurring.None? ==>
        r == Failure(RecurringNull) && rows == old(rows)
      ensures IndexOfId(old(rows), id).Some? && details.isRecurring.Some? ==>
        var k := IndexOfId(old(rows), id).value;
        && r.Success?
        && UpdatedFrom(r.value, old(rows)[k], details, now)
        && rows == old(rows)[k := r.value]
    {
      var found := IndexOfId(rows, id);
      if found.None? {
        return Failure(TransactionNotFound(id));
      }
      var k := found.value;
      var transaction := rows[k];
      transaction := transaction.(category := details.category);
      transaction := transaction.(kind := details.kind);
      transaction := transaction.(amount := details.amount);
      transaction := transaction.(description := details.description);
      transaction := transaction.(location := details.location);
      transaction := transaction.(transactionDate := details.transactionDate);
      transaction := transaction.(isRecurring := details.isRecurring);
      transaction := transaction.(frequency := details.frequency);
      transaction := transaction.(nextExecutionDate := details.nextExecutionDate);
      transaction := transaction.(endDate := details.endDate);
      transaction := transaction.(isActive := details.isActive);
      transaction := transaction.(updatedAt := Some(now));
      if transaction.isRecurring.None? {
        return Failure(RecurringNull);
      }
      forall u | u in rows[k := transaction] ensures u.isRecurring.Some? {
        var i :| 0 <= i < |rows| && rows[k := transaction][i] == u;
        if i != k {
          assert rows[i] in rows;
        }
      }
      rows := rows[k := transaction];
      r := Success(transaction);
    }

    /** `deleteTransaction`: raises when no row has the id, otherwise removes
        exactly that row. */
    method DeleteTransaction(id: int) returns (r: Result<(), ServiceError>)
      requires Valid()
      modifies this
      ensures Valid() && nextId == old(nextId)
      ensures IndexOfId(old(rows), id).None? ==> r == Failure(TransactionNotFound(id)) && rows == old(rows)
      ensures IndexOfId(old(rows), id).Some? ==>
        var k := IndexOfId(old(rows), id).value;
        r.Success? && rows == old(rows)[..k] + old(rows)[k + 1..]
      ensures forall t :: t in rows <==> t in old(rows) && t.id != Some(id)
    {
      var found := IndexOfId(rows, id);
      if found.None? {
        return Failure(TransactionNotFound(id));
      }
      var k := found.value;
      RemoveRow(rows, nextId, k);
      rows := rows[..k] + rows[k + 1..];
      r := Success(());
    }
  }
}
