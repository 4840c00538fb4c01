/** `TransactionController`: builds transaction entities from validated
    request bodies (resolving the category by id and applying the recurrence
    defaults), dispatches the listing between the filtered and the plain
    query, and fills in the default limit of the recent list. */
module TransactionController {
  import opened Domain
  import opened Ledger
  import opened TransactionRepository
  import CategoryRepository
  import opened TransactionService

  /** A `TransactionRequest` body after `@Valid`: the `@NotNull` fields are
      plain values. `isRecurring` and `isActive` hold what the body left in
      them, `Some(false)` and `Some(true)` when the JSON omits them and `None`
      only for an explicit null. */
  datatype TransactionRequest = TransactionRequest(
    categoryId: int,
    kind: TransactionType,
    amount: Cents,
    description: Option<string>,
    location: Option<string>,
    transactionDate: Date,
    isRecurring: Option<bool>,
    frequency: Option<Frequency>,
    endDate: Option<Date>,
    nextExecutionDate: Option<Date>,
    isActive: Option<bool>)

  /** `@DecimalMin("0.01")` on the amount. */
  predicate ValidRequest(req: TransactionRequest) {
    req.amount >= 1
  }

  datatype RequestError =
    | CategoryNotFound(categoryId: int)     // "Category not found with id: ..."
    | Service(error: ServiceError)          // raised by the transaction service

  /** The entity `createTransaction` hands to the service: owner from the
      query parameter, the resolved category, the request's fields, and the
      recurrence defaults. A recurring row always gets a next execution
      date; a row is inactive only when a recurring request says so. */
  function NewTransaction(userId: int, category: Category, req: TransactionRequest): (t: Transaction)
    ensures t.id.None? && t.userId == userId && t.category == category
    ensures && t.kind == req.kind && t.amount == req.amount && t.description == req.description
            && t.location == req.location && t.transactionDate == req.transactionDate
            && t.isRecurring == req.isRecurring && t.frequency == req.frequency && t.endDate == req.endDate
    ensures t.isRecurring == Some(true) <==> t.nextExecutionDate.Some?
    ensures req.isRecurring == Some(true) && req.nextExecutionDate.None? ==> t.nextExecutionDate == Some(req.transactionDate)
    ensures req.isRecurring == Some(true) && req.nextExecutionDate.Some? ==> t.nextExecutionDate == req.nextExecutionDate
    ensures req.isRecurring != Some(true) ==> t.isActive == Some(true)
    ensures req.isRecurring == Some(true) && req.isActive.Some? ==> t.isActive == req.isActive
    ensures t.isActive.Some?
    ensures t.isActive == Some(false) ==> req.isRecurring == Some(true) && req.isActive == Some(false)
    ensures ValidRequest(req) ==> t.amount >= 1
  {
    var recurring := req.isRecurring == Some(true);
    Transaction(
      id := None,
      userId := userId,
      category := category,
      kind := req.kind,
      amount := req.amount,
      description := req.description,
      location := req.location,
      transactionDate := req.transactionDate,
      isRecurring := req.isRecurring,
      frequency := req.frequency,
      nextExecutionDate :=
        if !recurring then None
        else if req.nextExecutionDate.Some? then req.nextExecutionDate
        else Some(req.transactionDate),
      endDate := req.endDate,
      isActive := if recurring && req.isActive.Some? then req.isActive else Some(true),
      createdAt := None,
      updatedAt := None)
  }

  /** The field mapping of `createTransaction`, setter by setter, after the
      category lookup that raises for an unknown id. */
  method BuildNewTransaction(cats: seq<Category>, userId: int, req: TransactionRequest)
    returns (r: Result<Transaction, RequestError>)
    ensures CategoryRepository.FindById(cats, req.categoryId).None? ==> r == Failure(CategoryNotFound(req.categoryId))
    ensures CategoryRepository.FindById(cats, req.categoryId).Some? ==>
      r == Success(NewTransaction(userId, CategoryRepository.FindById(cats, req.categoryId).value, req))
  {
    var found := CategoryRepository.FindById(cats, req.categoryId);
    if found.None? {
      return Failure(CategoryNotFound(req.categoryId));
    }
    // `new Transaction()` starts with isRecurring = false and isActive = true.
    var transaction := Transaction(None, userId, found.value, req.kind, req.amount, None, None,
                                   req.transactionDate, Some(false), None, None, None, Some(true), None, None);
    transaction := transaction.(description := req.description);
    transaction := transaction.(location := req.location);
    transaction := transaction.(isRecurring := req.isRecurring);
    transaction := transaction.(frequency := req.frequency);
    transaction := transaction.(endDate := req.endDate);
    if req.isRecurring.Some? && req.isRecurring.value {
      if req.nextExecutionDate.Some? {
        transaction := transaction.(nextExecutionDate := req.nextExecutionDate);
      } else {
        transaction := transaction.(nextExecutionDate := Some(req.transactionDate));
      }
      transaction := transaction.(isActive := if req.isActive.Some? then req.isActive else Some(true));
    } else {
      transaction := transaction.(isActive := Some(true));
    }
    r := Success(transaction);
  }

  /** A recurring transaction created without an explicit next date, and not
      explicitly inactive, is picked up by the scheduler's query on its own
      transaction date once saved. */
  lemma RecurringCreateIsScheduled(rows: seq<Transaction>, userId: int, category: Category, req: TransactionRequest,
                                   id: int, now: Timestamp)
    requires req.isRecurring == Some(true) && req.nextExecutionDate.None? && req.isActive != Some(false)
    ensures var saved := NewTransaction(userId, category, req).(id := Some(id), createdAt := Some(now), updatedAt := Some(now));
      saved in FindByIsRecurringAndIsActiveAndNextExecutionDate(rows + [saved], Some(true), Some(true), Some(req.transactionDate))
  {
    var saved := NewTransaction(userId, category, req).(id := Some(id), createdAt := Some(now), updatedAt := Some(now));
    if req.isActive.Some? {
      assert req.isActive.value;
    }
    assert saved in rows + [saved];
  }

  /** `POST /api/transactions`: nothing is stored when the category is
      unknown or when an explicit null `isRecurring` reaches the NOT NULL
      column; otherwise the built entity is saved. Rows stay positive. */
  method CreateTransactionEndpoint(store: TransactionStore, cats: seq<Category>, userId: int, req: TransactionRequest,
                                   now: Timestamp)
    returns (r: Result<Transaction, RequestError>)
    requires store.Valid() && ValidRequest(req)
    modifies store
    ensures store.Valid()
    ensures CategoryRepository.FindById(cats, req.categoryId).None? ==>
      r == Failure(CategoryNotFound(req.categoryId)) && store.rows == old(store.rows) && store.nextId == old(store.nextId)
    ensures CategoryRepository.FindById(cats, req.categoryId).Some? && req.isRecurring.None? ==>
      r == Failure(Service(RecurringNull)) && store.rows == old(store.rows) && store.nextId == old(store.nextId)
    ensures CategoryRepository.FindById(cats, req.categoryId).Some? && req.isRecurring.Some? ==>
      && r.Success?
      && r.value == NewTransaction(userId, CategoryRepository.FindById(cats, req.categoryId).value, req)
                      .(id := Some(old(store.nextId)), createdAt := Some(now), updatedAt := Some(now))
      && store.rows == old(store.rows) + [r.value]
    ensures AllPositive(old(store.rows)) ==> AllPositive(store.rows)
  {
    var built := BuildNewTransaction(cats, userId, req);
    if built.Failure? {
      return Failure(built.error);
    }
    var saved := store.CreateTransaction(built.value, now);
    if saved.Failure? {
      return Failure(Service(saved.error));
    }
    r := Success(saved.value);
  }

  /** The details entity of `updateTransaction`: every field copied from the
      request as it is, with no defaulting. The owner is never read (the
      service keeps the stored one), so it is left at 0. */
  function TransactionDetails(category: Category, req: TransactionRequest): (t: Transaction)
    ensures t.isActive == req.isActive && t.nextExecutionDate == req.nextExecutionDate
    ensures t.isRecurring == req.isRecurring
  {
    Transaction(None, 0, category, req.kind, req.amount, req.description, req.location, req.transactionDate,
                req.isRecurring, req.frequency, req.nextExecutionDate, req.endDate, req.isActive, None, None)
  }

  /** `PUT /api/transactions/{id}`: the category lookup raises first and then
      the service's update runs with the details (refused, like a create,
      for an explicit null `isRecurring`). */
  method UpdateTransactionEndpoint(store: TransactionStore, cats: seq<Category>, id: int, req: TransactionRequest,
                                   now: Timestamp)
    returns (r: Result<Transaction, RequestError>)
    requires store.Valid() && ValidRequest(req)
    modifies store
    ensures store.Valid() && store.nextId == old(store.nextId)
    ensures CategoryRepository.FindById(cats, req.categoryId).None? ==>
      r == Failure(CategoryNotFound(req.categoryId)) && store.rows == old(store.rows)
    ensures CategoryRepository.FindById(cats, req.categoryId).Some? && IndexOfId(old(store.rows), id).None? ==>
      r == Failure(Service(TransactionNotFound(id))) && store.rows == old(store.rows)
    ensures CategoryRepository.FindById(cats, req.categoryId).Some? && IndexOfId(old(store.rows), id).Some? &&
            req.isRecurring.None? ==>
      r == Failure(Service(RecurringNull)) && store.rows == old(store.rows)
    ensures CategoryRepository.FindById(cats, req.categoryId).Some? && IndexOfId(old(store.rows), id).Some? &&
            req.isRecurring.Some? ==>
      var k := IndexOfId(old(store.rows), id).value;
      var details := TransactionDetails(CategoryRepository.FindById(cats, req.categoryId).value, req);
      && r.Success?
      && UpdatedFrom(r.value, old(store.rows)[k], details, now)
      && store.rows == old(store.rows)[k := r.value]
    ensures AllPositive(old(store.rows)) ==> AllPositive(store.rows)
  {
    var found := CategoryRepository.FindById(cats, req.categoryId);
    if found.None? {
      return Failure(CategoryNotFound(req.categoryId));
    }
    var details := TransactionDetails(found.value, req);
    var updated := store.UpdateTransaction(id, details, now);
    if updated.Failure? {
      return Failure(Service(updated.error));
    }
    r := Success(updated.value);
    if AllPositive(old(store.rows)) {
      UpdatedAmountPositive(old(store.rows), IndexOfId(old(store.rows), id).value, r.value);
    }
  }

  /** Replacing one row by a row with a positive amount keeps every amount
      positive. */
  lemma UpdatedAmountPositive(rows: seq<Transaction>, k: nat, t: Transaction)
    requires k < |rows| && AllPositive(rows) && t.amount >= 1
    ensures AllPositive(rows[k := t])
  {
    forall u | u in rows[k := t] ensures u.amount >= 1 {
      var i :| 0 <= i < |rows[k := t]| && rows[k := t][i] == u;
      if i != k {
        assert rows[i] in rows;
      }
    }
  }

  /** `GET /api/transactions`: the filtered query only when both dates are
      given, otherwise all of the user's rows (category and type then play no
      part). */
  function GetTransactions(rows: seq<Transaction>, userId: int, startDate: Option<Date>, endDate: Option<Date>,
                           categoryId: Option<int>, kind: Option<TransactionType>): (r: seq<Transaction>)
    ensures forall t :: t in r <==>
      && t in rows
      && t.userId == userId
      && (startDate.Some? && endDate.Some? ==>
            && Between(t.transactionDate, startDate.value, endDate.value)
            && (categoryId.None? || t.category.id == categoryId)
            && (kind.None? || t.kind == kind.value))
  {
    if startDate.Some? && endDate.Some? then FindByFilters(rows, userId, startDate, endDate, categoryId, kind)
    else FindByUserId(rows, userId)
  }

  /** Without both dates the category and type parameters are ignored. */
  lemma GetTransactionsIgnoresFilters(rows: seq<Transaction>, userId: int, startDate: Option<Date>, endDate: Option<Date>,
                                      categoryId: Option<int>, kind: Option<TransactionType>)
    requires startDate.None? || endDate.None?
    ensures GetTransactions(rows, userId, startDate, endDate, categoryId, kind)
         == GetTransactions(rows, userId, startDate, endDate, None, None)
         == FindByUserId(rows, userId)
  {
  }

  /** `GET /dashboard/recent`: `limit` defaults to 5. */
  function RecentEndpoint(rows: seq<Transaction>, userId: int, limit: Option<int>): (r: Result<seq<Transaction>, ServiceError>)
    ensures limit.None? ==> r.Success? && |r.value| == Min(5, |FindByUserId(rows, userId)|)
  {
    RecentTransactions(rows, userId, limit.GetOr(DefaultRecentLimit))
  }
}
