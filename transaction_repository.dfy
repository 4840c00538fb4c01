/** The transaction queries of `TransactionRepository`, each a filter over the
    `transactions` table (a sequence in storage order). A null argument to a
    derived query compares with IS NULL; in the JPQL query a null date bound
    makes BETWEEN unknown, so no row matches. */
module TransactionRepository {
  import opened Domain
  import opened Ledger

  /** `d BETWEEN start AND end`: both bounds inclusive. */
  predicate Between(d: Date, start: Date, end: Date) {
    DateLe(start, d) && DateLe(d, end)
  }

  function FindByUserId(rows: seq<Transaction>, userId: int): (r: seq<Transaction>)
    ensures forall t :: t in r <==> t in rows && t.userId == userId
  {
    var p := (t: Transaction) => t.userId == userId;
    FilterMembers(rows, p);
    Filter(rows, p)
  }

  function FindByUserIdAndType(rows: seq<Transaction>, userId: int, kind: TransactionType): (r: seq<Transaction>)
    ensures forall t :: t in r <==> t in rows && t.userId == userId && t.kind == kind
  {
    var p := (t: Transaction) => t.userId == userId && t.kind == kind;
    FilterMembers(rows, p);
    Filter(rows, p)
  }

  function FindByUserIdAndTransactionDateBetween(rows: seq<Transaction>, userId: int, startDate: Date, endDate: Date): (r: seq<Transaction>)
    ensures forall t :: t in r <==> t in rows && t.userId == userId && Between(t.transactionDate, startDate, endDate)
  {
    var p := (t: Transaction) => t.userId == userId && Between(t.transactionDate, startDate, endDate);
    FilterMembers(rows, p);
    Filter(rows, p)
  }

  function FindByUserIdAndCategoryId(rows: seq<Transaction>, userId: int, categoryId: int): (r: seq<Transaction>)
    ensures forall t :: t in r <==> t in rows && t.userId == userId && t.category.id == Some(categoryId)
  {
    var p := (t: Transaction) => t.userId == userId && t.category.id == Some(categoryId);
    FilterMembers(rows, p);
    Filter(rows, p)
  }

  /** The scheduler's query: all three columns equal the arguments (a null
      argument matches a null column). */
  function FindByIsRecurringAndIsActiveAndNextExecutionDate(
    rows: seq<Transaction>, isRecurring: Option<bool>, isActive: Option<bool>, date: Option<Date>): (r: seq<Transaction>)
    ensures forall t :: t in r <==>
      t in rows && t.isRecurring == isRecurring && t.isActive == isActive && t.nextExecutionDate == date
  {
    var p := (t: Transaction) =>
      t.isRecurring == isRecurring && t.isActive == isActive && t.nextExecutionDate == date;
    FilterMembers(rows, p);
    Filter(rows, p)
  }

  /** The row condition of `findByFilters`. */
  predicate MatchesFilters(t: Transaction, userId: int, startDate: Option<Date>, endDate: Option<Date>,
                           categoryId: Option<int>, kind: Option<TransactionType>)
  {
    && t.userId == userId
    && startDate.Some? && endDate.Some? && Between(t.transactionDate, startDate.value, endDate.value)
    && (categoryId.None? || t.category.id == categoryId)
    && (kind.None? || t.kind == kind.value)
  }

  /** The two conditions of `findByFilters` that a null argument disables. */
  function OptionalFiltersMatch(categoryId: Option<int>, kind: Option<TransactionType>): Transaction -> bool {
    (t: Transaction) => (categoryId.None? || t.category.id == categoryId) && (kind.None? || t.kind == kind.value)
  }

  function FindByFilters(rows: seq<Transaction>, userId: int, startDate: Option<Date>, endDate: Option<Date>,
                         categoryId: Option<int>, kind: Option<TransactionType>): (r: seq<Transaction>)
    ensures forall t :: t in r <==> t in rows && MatchesFilters(t, userId, startDate, endDate, categoryId, kind)
  {
    var p := (t: Transaction) => MatchesFilters(t, userId, startDate, endDate, categoryId, kind);
    FilterMembers(rows, p);
    Filter(rows, p)
  }

  /** The position of the row with this id, if any (`findById`, `existsById`). */
  function IndexOfId(rows: seq<Transaction>, id: int): (r: Option<nat>)
    ensures r.Some? ==> r.value < |rows| && rows[r.value].id == Some(id)
    ensures r.None? ==> forall i :: 0 <= i < |rows| ==> rows[i].id != Some(id)
  {
    if rows == [] then None
    else if rows[0].id == Some(id) then Some(0)
    else match IndexOfId(rows[1..], id)
      case None => None
      case Some(k) => Some(k + 1)
  }

  /** A null date bound: BETWEEN is unknown and nothing is returned. */
  lemma {:induction false} FindByFiltersNullBound(rows: seq<Transaction>, userId: int, startDate: Option<Date>,
                                                  endDate: Option<Date>, categoryId: Option<int>, kind: Option<TransactionType>)
    requires startDate.None? || endDate.None?
    ensures FindByFilters(rows, userId, startDate, endDate, categoryId, kind) == []
  {
    if rows != [] {
      FindByFiltersNullBound(rows[1..], userId, startDate, endDate, categoryId, kind);
    }
  }

  /** With both optional filters null, `findByFilters` is exactly the
      inclusive date-range query, row for row and in order. */
  lemma FindByFiltersWithoutOptionals(rows: seq<Transaction>, userId: int, startDate: Date, endDate: Date)
    ensures FindByFilters(rows, userId, Some(startDate), Some(endDate), None, None)
         == FindByUserIdAndTransactionDateBetween(rows, userId, startDate, endDate)
  {
    FilterExtensional(rows,
      (t: Transaction) => MatchesFilters(t, userId, Some(startDate), Some(endDate), None, None),
      (t: Transaction) => t.userId == userId && Between(t.transactionDate, startDate, endDate));
  }

  /** A non-null category id or type narrows the date-range query to the rows
      with that category or type, keeping their order. */
  lemma FindByFiltersNarrowsRange(rows: seq<Transaction>, userId: int, startDate: Date, endDate: Date,
                                  categoryId: Option<int>, kind: Option<TransactionType>)
    ensures FindByFilters(rows, userId, Some(startDate), Some(endDate), categoryId, kind)
         == Filter(FindByUserIdAndTransactionDateBetween(rows, userId, startDate, endDate), OptionalFiltersMatch(categoryId, kind))
  {
    var inRange := (t: Transaction) => t.userId == userId && Between(t.transactionDate, startDate, endDate);
    var optional := OptionalFiltersMatch(categoryId, kind);
    FilterFilter(rows, inRange, optional);
    FilterExtensional(rows,
      (t: Transaction) => MatchesFilters(t, userId, Some(startDate), Some(endDate), categoryId, kind),
      Both(inRange, optional));
  }
}
