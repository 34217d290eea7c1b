/**
 * Entities and failures shared by every service of the finance backend.
 *
 * Amounts are whole cents (`int`) instead of `Double`, so sums and
 * comparisons are exact. Identifiers are the store-assigned `Long` ids.
 */
module Domain {

  datatype Option<+T> = None | Some(value: T)

  /** Why a `ResourceNotFoundException` was thrown. */
  datatype Missing =
    | NoSuchUser
    | NoSuchExpenseOrNotOwner
    | NoSuchIncome
    | IncomeNotOwned
    | NoLimit

  /** Every exception the modelled services and the token layer raise. */
  datatype Failure =
    | ResourceNotFound(reason: Missing)  // ResourceNotFoundException
    | UserNotFound                        // RuntimeException("User not found") raised by login
    | BadCredentials                      // rejection by the authentication manager
    | ConstraintViolation                 // a unique constraint of the user table
    | WeakKey                             // signing secret shorter than 256 bits
    | DecryptionFailed                    // ciphertext not produced under this password
    | MalformedToken                      // plaintext is not a compact signed token
    | SignatureInvalid                    // signature does not verify under the key
    | Expired                             // the parser's ExpiredJwtException: `exp` lies before the current time

  datatype Result<+T> = Ok(value: T) | Err(error: Failure)

  datatype Role = USER | ADMIN

  /** `Role.name()` */
  function RoleName(r: Role): string
  {
    match r
    case USER => "USER"
    case ADMIN => "ADMIN"
  }

  type Month = m: int | 1 <= m <= 12 witness 1
  type DayOfMonth = d: int | 1 <= d <= 31 witness 1

  /** A `LocalDate`. */
  datatype Date = Date(year: int, month: Month, day: DayOfMonth)

  /** `!a.isAfter(b)`: calendar order on dates. */
  predicate OnOrBefore(a: Date, b: Date)
  {
    a.year < b.year
    || (a.year == b.year && a.month < b.month)
    || (a.year == b.year && a.month == b.month && a.day <= b.day)
  }

  /** A row of the `users` table; `password` holds the encoded password. */
  datatype Account = Account(id: nat, username: string, password: string, role: Role, email: Option<string>)

  datatype Expense = Expense(id: nat, ownerId: nat, amount: int, category: string, date: Option<Date>, description: string)

  datatype Income = Income(id: nat, ownerId: nat, amount: int, source: string, date: Option<Date>)

  /** A row of the `expense_limit` table. */
  datatype Limit = Limit(id: nat, ownerId: nat, amount: int)

  /** The four fields an expense request carries. */
  datatype ExpenseRequest = ExpenseRequest(amount: int, category: string, date: Option<Date>, description: string)

  /** `ExpenseResponse`; `userId` and `username` are left unset by some callers. */
  datatype ExpenseResponse = ExpenseResponse(
    id: nat, description: string, amount: int, date: Option<Date>, category: string,
    userId: Option<nat>, username: Option<string>)

  datatype IncomeRequest = IncomeRequest(amount: int, source: string, date: Option<Date>)

  /** `IncomeResponseDTO` */
  datatype IncomeResponse = IncomeResponse(id: nat, amount: int, source: string, date: Option<Date>, userId: nat, username: string)

  /** `FinancialReportResponse` */
  datatype FinancialReport = FinancialReport(totalIncome: int, totalExpense: int, balance: int, expenseByCategory: map<string, int>)

  /** The `totalExpense` and `categorySummary` entries of an overview map. */
  datatype Overview = Overview(totalExpense: int, categorySummary: map<string, int>)
}
