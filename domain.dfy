/** The persistent records of the finance back-end (transactions, categories,
    users), the calendar date and its order, and the small wrappers used for
    Java's nullable references and thrown exceptions. */
module Domain {

  /** A nullable reference: `None` stands for Java's `null`. */
  datatype Option<T> = None | Some(value: T) {
    function GetOr(default: T): T {
      if Some? then value else default
    }
  }

  /** The value of a call, or the exception it raises. */
  datatype Result<T, E> = Success(value: T) | Failure(error: E)

  /** A `java.time.LocalDate`: month 1..12, day 1..31. */
  type Month = m: int | 1 <= m <= 12 witness 1
  type Day = d: int | 1 <= d <= 31 witness 1
  datatype Date = Date(year: int, month: Month, day: Day)

  /** `!a.isAfter(b)`: LocalDate compares year, then month, then day. */
  predicate DateLe(a: Date, b: Date) {
    a.year < b.year
    || (a.year == b.year && (a.month < b.month || (a.month == b.month && a.day <= b.day)))
  }

  /** A `LocalDateTime` read from the clock; only ever copied here. */
  type Timestamp = int

  /** An amount of money at scale 2, counted in cents. */
  type Cents = int

  datatype TransactionType = INCOME | EXPENSE

  datatype Frequency = DAILY | WEEKLY | MONTHLY | YEARLY

  /** A category row; `userId` is null for the shared default categories.
      `kind` is the category's type string ("INCOME" or "EXPENSE"). */
  datatype Category = Category(
    id: Option<int>,
    userId: Option<int>,
    name: string,
    kind: string,
    icon: Option<string>,
    isDefault: bool,
    createdAt: Option<Timestamp>)

  /** A transaction row. `id` is null until the row is saved. */
  datatype Transaction = Transaction(
    id: Option<int>,
    userId: int,
    category: Category,
    kind: TransactionType,
    amount: Cents,
    description: Option<string>,
    location: Option<string>,
    transactionDate: Date,
    isRecurring: Option<bool>,
    frequency: Option<Frequency>,
    nextExecutionDate: Option<Date>,
    endDate: Option<Date>,
    isActive: Option<bool>,
    createdAt: Option<Timestamp>,
    updatedAt: Option<Timestamp>)

  /** A user row; the profile picture is raw bytes, the budget a copied double. */
  datatype User = User(
    id: Option<int>,
    email: string,
    firstName: string,
    lastName: string,
    telephone: string,
    password: string,
    profilePicture: Option<seq<bv8>>,
    status: string,
    createdAt: Option<Timestamp>,
    monthlyBudget: Option<real>,
    riskTolerance: Option<string>,
    financialGoals: Option<string>)

  /** Every amount is at least one cent, as the request validation demands. */
  predicate AllPositive(s: seq<Transaction>) {
    forall t :: t in s ==> t.amount >= 1
  }

}
