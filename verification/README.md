# Personal finance backend: verified model of the service core

This project is a Dafny model of the service layer of a Spring personal-finance
backend. Users register and sign in, record expenses and incomes, set a monthly
spending limit, and read overviews, monthly charts and financial reports.
Administrators see system-wide totals and list the users who went over their limit.

The model has these modules:

- `Domain` (domain.dfy): the entities (`Account`, `Expense`, `Income`, `Limit`),
  the request and response records, and the failures the services raise.
- `JavaText` (java_text.dfy): the pieces of `java.lang.String` the services use.
  These are `equalsIgnoreCase` against a literal, `Integer.toString`, and the
  `"%02d"` month field of the chart keys.
- `Store` (store.dfy): the four repositories as one `Database` class.
  - Each table is a sequence in insertion order, with ids generated ascending.
    The model assumes `findAll()` and the derived `findBy…` queries return rows in
    that order (see "## Left out").
  - `Valid()` holds the table invariants: unique usernames, unique non-null emails,
    at most one limit per user, and every row's owner present.
- `Aggregates` (aggregates.dfy): the stream computations.
  - Sums, and `groupingBy(..., summingDouble(...))` as `GroupSum`.
  - The per-month buckets of the chart, and the spend of a user inside a date window.
- `Jwt` (jwt.dfy): `JwtService` and `EncryptorService`.
  - HS256 signing and AES text encryption are ideal symbolic primitives. A signature
    is the value `Hs256(key, claims)`, and a ciphertext opens only under its password.
  - A token carries `sub`, `role`, `iat` and `exp`. `iat` and `exp` are whole seconds,
    following the NumericDate of RFC 7519, section 2.
- `AuthService` (auth_service.dfy): `register` and `login`.
- `ExpenseService`, `UserService`, `AdminService`: the three service implementations,
  operation by operation.

Exceptions become `Result` errors:

- `ResourceNotFoundException` becomes `ResourceNotFound(reason)`.
- The `RuntimeException("User not found")` of `login` becomes `UserNotFound`.
- A rejected authentication becomes `BadCredentials`.
- A unique-constraint violation on save becomes `ConstraintViolation`.

Collaborators whose code is not part of this model are parameters:

- the password encoder (`encode`) and Spring's authentication manager (`authenticates`);
- the clock (`now`, in epoch milliseconds);
- the encryptor's random salt;
- the first and last day of the current month.

Token expiry has two layers in the source:

- The JWT parser rejects a token whose expiry is strictly before the current time
  (no clock skew is configured). Every read of the claims goes through it
  (JwtService.java:49-55).
- `isTokenExpired` then compares with `exp.before(now)` (JwtService.java:57-59).

Both comparisons are strict, so a token checked at exactly its expiry is still valid
(`Jwt.IssuedTokenValidity`). After its expiry, validation fails with the parser's
`Expired` error rather than answering false. Read with the same clock as the parser,
`isTokenExpired` never answers true (`Jwt.IsTokenExpired`).

## Model

Source paths are relative to the repository root.

| member | source | states |
|---|---|---|
| Jwt.Parse | src/main/java/com/personalfinance/finance_system/security/JwtService.java:49-55 | at time `now`, parsing succeeds exactly when the signature was made with the key over the token's own claims and the expiry is not before `now`; it returns the signed claims; a malformed token, a bad signature and an expired token give distinct errors, checked in that order |
| Jwt.Decrypt | src/main/java/com/personalfinance/finance_system/security/EncryptorService.java:21-23 | decryption succeeds exactly under the encrypting password and returns the plaintext, whatever the salt |
| Jwt.Sign | src/main/java/com/personalfinance/finance_system/security/JwtService.java:27-33 | the compact token carries the claims and verifies under the signing key and under no other |
| Jwt.Encrypt | src/main/java/com/personalfinance/finance_system/security/EncryptorService.java:17-19 | the ciphertext decrypts to the plaintext under the password, and under no other password |
| Jwt.SignParseRoundTrip | src/main/java/com/personalfinance/finance_system/security/JwtService.java:27-33 | parsing a token signed with the same key gives back the signed claims up to its expiry, and the Expired error after it |
| Jwt.ParseRejectsOtherKey | src/main/java/com/personalfinance/finance_system/security/JwtService.java:49-55 | in the ideal signature model, a token signed under one key fails verification under any other key, at any time |
| Jwt.EncryptDecryptRoundTrip | src/main/java/com/personalfinance/finance_system/security/EncryptorService.java:17-23 | decrypt inverts encrypt under the same password |
| Jwt.NewJwtService | src/main/java/com/personalfinance/finance_system/security/JwtService.java:21-24 | the service is built exactly when the secret has at least 32 bytes (a weak key is refused) and keeps the secret and the encryptor password |
| Jwt.GenerateToken | src/main/java/com/personalfinance/finance_system/security/JwtService.java:26-35 | the issued token decrypts to the claims signed under the service key; read at the instant of issue, its subject is the user's username and its role claim the user's role name |
| Jwt.DecryptToken | src/main/java/com/personalfinance/finance_system/security/JwtService.java:37-39 | opens exactly the tokens encrypted under the service's password, returning their plaintext, and fails with DecryptionFailed otherwise |
| Jwt.ExtractClaims | src/main/java/com/personalfinance/finance_system/security/JwtService.java:49-55 | claims are extracted exactly from tokens that verify under the service key and have not expired, returning the token's own claims, with the parser's error otherwise |
| Jwt.ExtractUsername | src/main/java/com/personalfinance/finance_system/security/JwtService.java:41-43 | succeeds exactly when extraction does, with the same error otherwise, and returns the subject |
| Jwt.ExtractExpiration | src/main/java/com/personalfinance/finance_system/security/JwtService.java:45-47 | succeeds exactly when extraction does and returns the expiry in milliseconds (seconds times 1000), which is then never before `now` |
| Jwt.IsTokenExpired | src/main/java/com/personalfinance/finance_system/security/JwtService.java:57-59 | fails exactly when extraction does, with its error; when it answers, the answer is false, because the parser has already rejected every token expired at `now` |
| Jwt.IsTokenValid | src/main/java/com/personalfinance/finance_system/security/JwtService.java:61-64 | fails with the parser's error on an unverifiable or expired token; otherwise valid exactly when the subject is the username; a valid token has not expired and is the key's signature over claims naming that user |
| Jwt.IssuedLifetime | src/main/java/com/personalfinance/finance_system/security/JwtService.java:30-31 | expiry minus issue time is exactly 36000 seconds; the stored expiry in milliseconds is the issue second plus ten hours, in the closed interval [issue time + 10 h − 999 ms, issue time + 10 h] |
| Jwt.IssuedExpiry | src/main/java/com/personalfinance/finance_system/security/JwtService.java:31 | the last instant at which a token issued at `now` is still accepted (the stored `exp` in milliseconds) lies in the closed interval [`now` + 10 h − 999 ms, `now` + 10 h] |
| Jwt.IssuedTokenValidity | src/main/java/com/personalfinance/finance_system/security/JwtService.java:26-64 | an issued token is valid for its own user at time `at` exactly when `at` is at most the issue second plus ten hours, the boundary included; after that, validation fails with Expired |
| Jwt.ExpiryWindow | src/main/java/com/personalfinance/finance_system/security/JwtService.java:26-64 | ten hours less one second after issue the token is valid and not expired; one millisecond past ten hours both checks fail with Expired |
| Jwt.WrongSubjectNeverValid | src/main/java/com/personalfinance/finance_system/security/JwtService.java:61-64 | a token that can be read at `now` but names another subject is not valid for the expected username |
| Jwt.AliceIsNotBob | src/main/java/com/personalfinance/finance_system/security/JwtService.java:61-64 | an instance of the previous row: a token issued to "alice" and checked as "bob" is answered false until its expiry, and fails with Expired after it |
| Jwt.UnverifiableNeverValid | src/main/java/com/personalfinance/finance_system/security/JwtService.java:61-64 | a token that does not verify under the key makes validation fail |
| Jwt.FreshCiphertexts | src/main/java/com/personalfinance/finance_system/security/JwtService.java:34 | two issuances with different salts give different opaque tokens that decrypt to the same signed token |
| AuthService.ResolveRole | src/main/java/com/personalfinance/finance_system/service/impl/AuthServiceImpl.java:38-42 | the role is ADMIN exactly when the requested role equals "ADMIN" ignoring case; USER otherwise, a missing role included |
| AuthService.ResolveRoleAscii | src/main/java/com/personalfinance/finance_system/service/impl/AuthServiceImpl.java:38-42 | on ASCII input, ADMIN exactly when the upper-cased request is "ADMIN" |
| AuthService.ResolveRoleExamples | src/main/java/com/personalfinance/finance_system/service/impl/AuthServiceImpl.java:38-42 | the hints the tests use ("ADMIN" gives ADMIN; "user" and "USER" give USER), plus "admin", "AdMiN" (ADMIN) and "ADMINS", "" and a missing role (USER) |
| AuthService.Respond | src/main/java/com/personalfinance/finance_system/service/impl/AuthServiceImpl.java:46-54 | the response carries a token decrypting to the user's signed claims, plus the user's id, username, role name and email |
| AuthService.Register | src/main/java/com/personalfinance/finance_system/service/impl/AuthServiceImpl.java:32-55 | succeeds exactly when the username and any email are unused; then one user is appended, with a fresh id, the encoded password and the resolved role, and the response is built for it; otherwise a constraint violation and no user added |
| AuthService.Login | src/main/java/com/personalfinance/finance_system/service/impl/AuthServiceImpl.java:59-76 | an unknown username fails before the password is checked; a rejected password fails; otherwise the response is built for the stored user |
| AuthService.LoginMintsFreshTokens | src/main/java/com/personalfinance/finance_system/service/impl/AuthServiceImpl.java:67-75 | two logins with different salts return different tokens carrying the same signed claims |
| AuthService.RegisteredTokenValid | src/main/java/com/personalfinance/finance_system/service/impl/AuthServiceImpl.java:46-54 | the token returned on registration is valid for the new username at every time up to and including its stored expiry, where its role claim is the resolved role, and fails with Expired after it |
| ExpenseService.MapToResponse | src/main/java/com/personalfinance/finance_system/service/impl/ExpenseServiceImpl.java:89-97 | the response copies id, amount, category, date and description and leaves the owner fields unset |
| ExpenseService.OwnedExpenseIndex | src/main/java/com/personalfinance/finance_system/service/impl/ExpenseServiceImpl.java:53-57 | finds the position of the expense with this id when it belongs to the owner; none exactly when no such expense is the owner's |
| ExpenseService.GetUserExpenses | src/main/java/com/personalfinance/finance_system/service/impl/ExpenseServiceImpl.java:44-49 | an unknown user fails; otherwise there is one response per row of the user's expense query, in the query's order, each copying that row's fields |
| ExpenseService.GetExpenseById | src/main/java/com/personalfinance/finance_system/service/impl/ExpenseServiceImpl.java:52-59 | an unknown user fails; otherwise found exactly when the expense exists and belongs to the user, with one error for missing and not-owned alike |
| ExpenseService.AddExpense | src/main/java/com/personalfinance/finance_system/service/impl/ExpenseServiceImpl.java:28-41 | an unknown user changes nothing; otherwise exactly one expense, with a fresh id, the user as owner and the request's fields, is appended and returned |
| ExpenseService.UpdateExpense | src/main/java/com/personalfinance/finance_system/service/impl/ExpenseServiceImpl.java:62-76 | succeeds exactly for the user's own expense; that row alone gets the request's fields, keeping id and owner; failures change nothing |
| ExpenseService.DeleteExpense | src/main/java/com/personalfinance/finance_system/service/impl/ExpenseServiceImpl.java:79-87 | succeeds exactly for the user's own expense; afterwards the expenses are the old ones minus that id, one fewer; failures change nothing |
| ExpenseService.RemovedRow | src/main/java/com/personalfinance/finance_system/service/impl/ExpenseServiceImpl.java:86 | with unique ids, removing one row removes exactly the expense with its id |
| UserService.GetOverview | src/main/java/com/personalfinance/finance_system/service/impl/UserServiceImpl.java:33-49 | an unknown user fails; otherwise the total is the sum of the user's expenses, and the category summary has exactly the user's categories, each mapped to its sum |
| UserService.MyExpenses | src/main/java/com/personalfinance/finance_system/service/impl/UserServiceImpl.java:35 | exactly the expenses owned by the user |
| UserService.GetChartData | src/main/java/com/personalfinance/finance_system/service/impl/UserServiceImpl.java:52-70 | an unknown user fails; otherwise a "YYYY-MM" key is present exactly when a dated expense of the user falls in that month, it holds that month's sum, and every key parses back to a year and month |
| UserService.MonthlyBuckets | src/main/java/com/personalfinance/finance_system/service/impl/UserServiceImpl.java:56-65 | the loop's map equals the monthly grouping of the dated expenses |
| UserService.SetLimit | src/main/java/com/personalfinance/finance_system/service/impl/UserServiceImpl.java:74-83 | an unknown user changes nothing; otherwise the user ends with exactly one limit, holding the amount, reusing the old row's id when there was one, and other users' limits are unchanged |
| UserService.UpsertLimit | src/main/java/com/personalfinance/finance_system/service/impl/UserServiceImpl.java:76-82 | the find-or-create-then-save step: the table afterwards is an upsert of the user's limit |
| UserService.LimitOverwritten | src/main/java/com/personalfinance/finance_system/service/impl/UserServiceImpl.java:78-82 | overwriting the user's single limit row is an upsert |
| UserService.LimitAppended | src/main/java/com/personalfinance/finance_system/service/impl/UserServiceImpl.java:78-82 | adding a limit for a user with none is an upsert |
| UserService.GetLimit | src/main/java/com/personalfinance/finance_system/service/impl/UserServiceImpl.java:86-92 | an unknown user fails; otherwise found exactly when the user has a limit, returning its amount, and fails with a missing-limit error when there is none |
| UserService.AddExpense | src/main/java/com/personalfinance/finance_system/service/impl/UserServiceImpl.java:96-105 | an unknown user changes nothing; otherwise one expense owned by the user is appended and returned |
| UserService.GetAllExpenses | src/main/java/com/personalfinance/finance_system/service/impl/UserServiceImpl.java:108-123 | an unknown user fails; otherwise there is one response per user expense, in order, with its fields and the user's id and username |
| UserService.OwnedResponse | src/main/java/com/personalfinance/finance_system/service/impl/UserServiceImpl.java:112-121 | a response copies the expense's five fields and fills in the caller's id and username |
| UserService.AddIncome | src/main/java/com/personalfinance/finance_system/service/impl/UserServiceImpl.java:128-132 | an unknown user changes nothing; otherwise one income owned by the user is appended and returned |
| UserService.GetIncome | src/main/java/com/personalfinance/finance_system/service/impl/UserServiceImpl.java:136-150 | an unknown user fails; otherwise there is one response per user income, in order, with its fields and the user's id and username |
| UserService.IncomeResponseOf | src/main/java/com/personalfinance/finance_system/service/impl/UserServiceImpl.java:140-147 | a response copies the income's id, amount, source and date and fills in the caller's id and username |
| UserService.OwnedIncomeIndex | src/main/java/com/personalfinance/finance_system/service/impl/UserServiceImpl.java:157-162 | finds the user's income with this id; a missing income and an income owned by someone else give distinct errors |
| UserService.UsernamesIdentify | src/main/java/com/personalfinance/finance_system/model/User.java:10 | usernames are unique, so two accounts with the same username are the same account |
| UserService.UpdateIncome | src/main/java/com/personalfinance/finance_system/service/impl/UserServiceImpl.java:154-176 | succeeds exactly for the user's own income; only that row's amount, source and date change; errors distinguish missing from not owned; failures change nothing |
| UserService.DeleteIncome | src/main/java/com/personalfinance/finance_system/service/impl/UserServiceImpl.java:179-189 | succeeds exactly for the user's own income; afterwards the incomes are the old ones minus that id; failures change nothing |
| UserService.RemovedIncome | src/main/java/com/personalfinance/finance_system/service/impl/UserServiceImpl.java:188 | with unique ids, removing one row removes exactly the income with its id |
| UserService.GetFinancialReport | src/main/java/com/personalfinance/finance_system/service/impl/UserServiceImpl.java:193-209 | an unknown user fails; otherwise the totals are the sums of the user's incomes and expenses, the balance is their difference, and the categories map to their sums |
| UserService.ReportAgreesWithOverview | src/main/java/com/personalfinance/finance_system/service/impl/UserServiceImpl.java:193-209 | the report's category map and total expense equal the overview's |
| AdminService.GetExpensesGroupedByCategory | src/main/java/com/personalfinance/finance_system/service/impl/AdminServiceImpl.java:93-100 | the keys are exactly the categories present in any expense, each mapped to its sum |
| AdminService.GetOverview | src/main/java/com/personalfinance/finance_system/service/impl/AdminServiceImpl.java:41-56 | the total is the sum of all expenses and the summary is the category grouping |
| AdminService.GetSystemFinancialReport | src/main/java/com/personalfinance/finance_system/service/impl/AdminServiceImpl.java:103-123 | the income and expense totals cover every row, the balance is their difference, and the categories are the grouping |
| AdminService.TotalSplitsByOwner | src/main/java/com/personalfinance/finance_system/service/impl/AdminServiceImpl.java:45-48 | over duplicate-free owner ids covering every expense, the owners' totals add up to the grand total |
| AdminService.SystemTotalIsSumOfUserTotals | src/main/java/com/personalfinance/finance_system/service/impl/AdminServiceImpl.java:41-56 | the administrator's total expense is the sum over all users of the total each user's own overview shows |
| AdminService.GetUserExpenses | src/main/java/com/personalfinance/finance_system/service/impl/AdminServiceImpl.java:64-68 | an unknown id fails; otherwise the result is the owner's expense query itself: exactly the expenses owned by that id |
| AdminService.Owner | src/main/java/com/personalfinance/finance_system/service/impl/AdminServiceImpl.java:131 | the owner of a row is the account of the table holding its owner id |
| AdminService.HasUserRole | src/main/java/com/personalfinance/finance_system/service/impl/AdminServiceImpl.java:129 | the role filter holds exactly for accounts with role USER |
| AdminService.HasUserRoleIsUser | src/main/java/com/personalfinance/finance_system/service/impl/AdminServiceImpl.java:129 | the case-insensitive "USER" test on a role's name holds exactly for role USER |
| AdminService.AdminRow | src/main/java/com/personalfinance/finance_system/service/impl/AdminServiceImpl.java:130-141 | the row copies the expense's five fields and carries its owner's id and username |
| AdminService.UserRoleRows | src/main/java/com/personalfinance/finance_system/service/impl/AdminServiceImpl.java:127-142 | a row appears exactly for an expense whose owner passes the role test, carrying the owner's id and username |
| AdminService.UserOwned | src/main/java/com/personalfinance/finance_system/service/impl/AdminServiceImpl.java:129 | one flag per expense, set exactly when the owner has role USER |
| AdminService.Positions | src/main/java/com/personalfinance/finance_system/service/impl/AdminServiceImpl.java:129 | for every flag sequence, the positions that pass the filter: strictly ascending, in range, and exactly the positions whose flag is set |
| AdminService.KeptPositions | src/main/java/com/personalfinance/finance_system/service/impl/AdminServiceImpl.java:129 | the kept positions ascend strictly, lie inside the table, and are exactly the positions whose owner has role USER |
| AdminService.UserRoleRowsFollowPositions | src/main/java/com/personalfinance/finance_system/service/impl/AdminServiceImpl.java:127-142 | for every table, there is one row per kept position, in order: row `k` is the view of the expense at the `k`-th kept position |
| AdminService.GetAllExpenses | src/main/java/com/personalfinance/finance_system/service/impl/AdminServiceImpl.java:126-143 | a row appears exactly for each expense whose owner has role USER; there is one row per kept position, in table order, so administrators' expenses are left out and nothing is repeated or reordered |
| AdminService.GetAllIncomes | src/main/java/com/personalfinance/finance_system/service/impl/AdminServiceImpl.java:148-167 | one row per income in table order, with its fields, the owner's id and username, and a limit exactly when the owner has one, holding its amount |
| AdminService.IncomeRow | src/main/java/com/personalfinance/finance_system/service/impl/AdminServiceImpl.java:151-165 | a single row: the income's fields, its owner, and the owner's limit amount or none |
| AdminService.Exceeded | src/main/java/com/personalfinance/finance_system/service/impl/AdminServiceImpl.java:71-90 | every reported user is an account with a limit strictly below that user's spending inside the window |
| AdminService.GetUsersExceededLimit | src/main/java/com/personalfinance/finance_system/service/impl/AdminServiceImpl.java:71-90 | the loop over the limit table returns exactly the from-the-limits specification, in limit-table order |
| AdminService.ExceededIff | src/main/java/com/personalfinance/finance_system/service/impl/AdminServiceImpl.java:75-87 | a user is reported exactly when one of their limits is strictly exceeded by their spending in the window |
| AdminService.SpendingAtLimitNotReported | src/main/java/com/personalfinance/finance_system/service/impl/AdminServiceImpl.java:84 | spending exactly the limit is not reported |
| AdminService.ExceededNoDuplicates | src/main/java/com/personalfinance/finance_system/service/impl/AdminServiceImpl.java:71-90 | with at most one limit per user, nobody is reported twice |
| AdminService.SetExpenseLimit | src/main/java/com/personalfinance/finance_system/service/impl/AdminServiceImpl.java:173-185 | an unknown id changes nothing; otherwise the user ends with exactly one limit holding the amount, other limits are unchanged, and the amount is echoed back |
| Store.UserByName | src/main/java/com/personalfinance/finance_system/service/impl/UserServiceImpl.java:211-214 | finds an account with that username, or none exactly when no account has it |
| Store.FindUserOrNotFound | src/main/java/com/personalfinance/finance_system/service/impl/UserServiceImpl.java:211-214 | succeeds exactly when some account has the username, and returns such an account; otherwise ResourceNotFound |
| Store.ExpensesOf | src/main/java/com/personalfinance/finance_system/repository/ExpenseRepository.java:11-13 | exactly the expenses owned by the given user |
| Store.IncomesOf | src/main/java/com/personalfinance/finance_system/repository/IncomeRepository.java:14 | exactly the incomes owned by the given user |
| Store.ExpenseIndex | src/main/java/com/personalfinance/finance_system/service/impl/ExpenseServiceImpl.java:55 | `findById` on the expenses: a position holding that id when some row has it, and none exactly when no row does |
| Store.IncomeIndex | src/main/java/com/personalfinance/finance_system/service/impl/UserServiceImpl.java:156 | `findById` on the incomes: a position holding that id when some row has it, and none exactly when no row does |
| Store.UserById | src/main/java/com/personalfinance/finance_system/service/impl/AdminServiceImpl.java:65-66 | finds the account with that id, or none exactly when no account has it |
| Store.LimitIndex | src/main/java/com/personalfinance/finance_system/repository/LimitRepository.java:11 | the position of the user's limit, or none exactly when the user has no limit |
| Store.Database.SaveNewUser | src/main/java/com/personalfinance/finance_system/service/impl/AuthServiceImpl.java:44 | `save` of a new user succeeds exactly when the username and any non-null email are unused; it appends the account under a fresh id and leaves the other tables alone; otherwise a constraint violation and no change to the users |
| Store.Database.SaveNewExpense | src/main/java/com/personalfinance/finance_system/service/impl/ExpenseServiceImpl.java:39 | `save` of a new expense appends it under a fresh id, keeping every table invariant and the other tables |
| Store.Database.SaveExpense | src/main/java/com/personalfinance/finance_system/service/impl/ExpenseServiceImpl.java:74 | `save` of an existing expense overwrites its one row and nothing else |
| Store.Database.DeleteExpense | src/main/java/com/personalfinance/finance_system/service/impl/ExpenseServiceImpl.java:86 | `delete` removes that one row and nothing else |
| Store.Database.SaveNewIncome | src/main/java/com/personalfinance/finance_system/service/impl/UserServiceImpl.java:131 | `save` of a new income appends it under a fresh id, keeping every table invariant and the other tables |
| Store.Database.SaveIncome | src/main/java/com/personalfinance/finance_system/service/impl/UserServiceImpl.java:167 | `save` of an existing income overwrites its one row and nothing else |
| Store.Database.DeleteIncome | src/main/java/com/personalfinance/finance_system/service/impl/UserServiceImpl.java:188 | `delete` removes that one row and nothing else |
| Store.Database.SaveNewLimit | src/main/java/com/personalfinance/finance_system/service/impl/UserServiceImpl.java:78-82 | `save` of a new limit for a user without one appends it under a fresh id, keeping one limit per user |
| Store.Database.SaveLimit | src/main/java/com/personalfinance/finance_system/service/impl/UserServiceImpl.java:82 | `save` of an existing limit overwrites its one row and nothing else |
| Store.AppendUserWellFormed | src/main/java/com/personalfinance/finance_system/model/User.java:10-24 | a user with a fresh id, an unused username and an unused email keeps the user table's uniqueness invariants |
| Store.ExpenseRemovalKeepsOrder | src/main/java/com/personalfinance/finance_system/service/impl/ExpenseServiceImpl.java:86 | deleting a row keeps expense ids ascending and adds no row |
| Aggregates.GroupSumKeys | src/main/java/com/personalfinance/finance_system/service/impl/UserServiceImpl.java:39-43 | the grouping has a key exactly when some element has that key |
| Aggregates.GroupSumValue | src/main/java/com/personalfinance/finance_system/service/impl/UserServiceImpl.java:39-43 | a key of the grouping holds the sum of the amounts with that key |
| Aggregates.ExpenseTotalAppend | src/main/java/com/personalfinance/finance_system/service/impl/UserServiceImpl.java:37 | the expense total of a list is the sum of the totals of any two parts it is cut into |
| Aggregates.IncomeTotalAppend | src/main/java/com/personalfinance/finance_system/service/impl/UserServiceImpl.java:199 | the same for the income total |
| Aggregates.CategoryTotalsSpec | src/main/java/com/personalfinance/finance_system/service/impl/UserServiceImpl.java:39-43 | a category is a key exactly when some expense has it, and maps to that category's sum |
| Aggregates.CategoryTotalsAll | src/main/java/com/personalfinance/finance_system/service/impl/UserServiceImpl.java:39-43 | the same, for every category at once |
| Aggregates.CategoryTotalsSumToTotal | src/main/java/com/personalfinance/finance_system/service/impl/UserServiceImpl.java:37-43 | the category sums add up to the total expense |
| Aggregates.MonthlyTotalsStep | src/main/java/com/personalfinance/finance_system/service/impl/UserServiceImpl.java:58-64 | one more expense adds its amount to its month's bucket, starting from zero, or changes nothing when it has no date |
| Aggregates.MonthlyTotalsSpec | src/main/java/com/personalfinance/finance_system/service/impl/UserServiceImpl.java:56-65 | a month's key is present exactly when a dated expense falls in that month, and holds that month's sum |
| Aggregates.MonthlyTotalsAll | src/main/java/com/personalfinance/finance_system/service/impl/UserServiceImpl.java:56-65 | the same for every date, and every key parses back to a year and month |
| Aggregates.ExpensesInWindow | src/main/java/com/personalfinance/finance_system/repository/ExpenseRepository.java:15 | exactly the owner's expenses dated within the window, both ends inclusive |
| Aggregates.WindowSpend | src/main/java/com/personalfinance/finance_system/service/impl/AdminServiceImpl.java:78-82 | the spend the limit scan compares is the total of exactly those expenses |
| JavaText.EqualsIgnoreCaseOnAscii | src/main/java/com/personalfinance/finance_system/service/impl/AuthServiceImpl.java:38 | on ASCII text, the case-insensitive comparison with an upper-case literal is equality after upper-casing |
| JavaText.IntToStringRoundTrip | src/main/java/com/personalfinance/finance_system/service/impl/UserServiceImpl.java:60 | the decimal rendering of a year parses back to the year, negative years included |
| JavaText.TwoDigitsRoundTrip | src/main/java/com/personalfinance/finance_system/service/impl/UserServiceImpl.java:61 | the two-digit month field parses back to the month |
| JavaText.MonthKeyRoundTrip | src/main/java/com/personalfinance/finance_system/service/impl/UserServiceImpl.java:60-61 | a chart key parses back to the date's year and month |
| JavaText.MonthKeyInjective | src/main/java/com/personalfinance/finance_system/service/impl/UserServiceImpl.java:60-61 | two dates share a chart key exactly when their year and month agree |

## Left out

- Cryptography: HMAC-SHA256 and the AES-256 text encryption are modelled as ideal
  symbolic primitives; their algorithms are not modelled.
- The encryptor's random salt is a parameter. Its randomness is not modelled, only that
  distinct salts give distinct ciphertexts.
- Jwt.ParseRejectsOtherKey: HMAC pads a key shorter than its block with zero bytes, so
  two secrets that differ only in trailing zero bytes sign alike. The ideal signature of
  the model tells every pair of keys apart.
- Jwt.GenerateToken: the source reads the clock twice, once for `iat` and once for `exp`.
  The model uses one reading `now`, so the lifetime is exactly ten hours of whole seconds.
- Jwt.IsTokenValid: the source reads the clock once per parse and once more in
  `isTokenExpired`. The model uses one reading for all of them, so a token cannot expire
  between two reads in the middle of one validation.
- Jwt.IsTokenExpired: the source parses at one clock reading and compares `exp` against
  a second `new Date()` (JwtService.java:58). The model uses the parser's reading for
  both, so the answer is never true; with two readings a token could expire between
  them and the source would answer true.
- JavaText.TwoDigits: the month field is `String.format("%02d", …)`, which formats with
  the default locale; the model takes that locale to write ASCII digits. The year is
  joined by plain string concatenation, which is locale-independent.
- Row order: JPA promises no order for `findAll()` or a derived query without ORDER BY.
  The model assumes insertion order, so the order clauses of the listing operations
  (the admin and user expense lists, the income lists, the exceeded-limit report) hold
  for that assumed order only.
- The jjwt parser's other checks are not modelled: clock skew (none is configured), the
  `nbf` claim (never set), and compressed or unsigned tokens.
- `isTokenValid` compares against `UserDetails.getUsername()`; the model passes the
  username directly.
- Monetary amounts are Java `double`; the model uses unbounded integers. Floating-point
  rounding of sums is not modelled.
- Null handling:
  - Null categories, null amounts and null roles are not represented. On a null
    category, `groupingBy` would throw.
  - Only a null expense date is modelled, because the chart skips such expenses.
- Map ordering is not modelled. The chart's `TreeMap` and the reports' `HashMap`
  become Dafny maps.
- `PasswordEncoder` and `AuthenticationManager` are function parameters; their code is
  not part of this model.
- The user repository interface is not part of this model. Its `findByUsername` and
  `findById` are read from how the services use them, together with the unique
  constraints on the `User` entity.
- The month window of `getUsersExceededLimit`, read from `Calendar` in the source, is
  passed as its first and last day. `findByUserAndDateBetween` is taken as inclusive at
  both ends.
- `getAllUsers` (AdminServiceImpl.java:59-61) returns the user table unchanged; it is
  the `users` field of `Database` and has no member of its own.
- The expense controller calls a `getExpensesByCategory` that neither the expense
  service interface nor its implementation declares, so there is nothing to model.
- Controllers, the logging aspect, the currency-conversion and Gemini services, the DTO
  validation annotations and the application class are not modelled.
- Persistence is an in-memory `Database` with sequence tables. Transactions, lazy
  loading and concurrent access are not modelled.
- UserService.MonthlyBuckets: the source's `forEach` loop runs inline in
  `getChartData`. The model runs it in a helper method that `GetChartData` calls, with
  the same effect.
