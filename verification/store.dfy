/**
 * The four repositories (users, expenses, incomes, expense limits) as one
 * in-memory database. Each table is a sequence of rows in insertion order,
 * with ids generated by the store, ascending. The model takes `findAll()`
 * and the derived `findBy…` queries to return rows in that order; JPA
 * itself promises no order for a query without ORDER BY.
 */
module Store {
  import opened Domain

  // ---------------------------------------------------------------------
  // Derived queries over the tables

  /** `findByUsername` */
  function UserByName(users: seq<Account>, name: string): (r: Option<Account>)
    ensures r.Some? ==> r.value in users && r.value.username == name
    ensures r.None? <==> forall u :: u in users ==> u.username != name
  {
    if users == [] then None
    else if users[0].username == name then Some(users[0])
    else UserByName(users[1..], name)
  }

  /** `findById` on the user table */
  function UserById(users: seq<Account>, id: nat): (r: Option<Account>)
    ensures r.Some? ==> r.value in users && r.value.id == id
    ensures r.None? <==> forall u :: u in users ==> u.id != id
  {
    if users == [] then None
    else if users[0].id == id then Some(users[0])
    else UserById(users[1..], id)
  }

  /** `ExpenseRepository.findById`: position of the expense with this id, if any. */
  function ExpenseIndex(es: seq<Expense>, id: nat): (r: Option<nat>)
    ensures r.Some? ==> r.value < |es| && es[r.value].id == id
    ensures r.None? <==> forall e :: e in es ==> e.id != id
  {
    if es == [] then None
    else if es[0].id == id then Some(0)
    else match ExpenseIndex(es[1..], id)
      case None => None
      case Some(i) => Some(i + 1)
  }

  /** `IncomeRepository.findById`: position of the income with this id, if any. */
  function IncomeIndex(xs: seq<Income>, id: nat): (r: Option<nat>)
    ensures r.Some? ==> r.value < |xs| && xs[r.value].id == id
    ensures r.None? <==> forall x :: x in xs ==> x.id != id
  {
    if xs == [] then None
    else if xs[0].id == id then Some(0)
    else match IncomeIndex(xs[1..], id)
      case None => None
      case Some(i) => Some(i + 1)
  }

  /** `LimitRepository.findByUser`: position of the user's limit, if any. */
  function LimitIndex(ls: seq<Limit>, owner: nat): (r: Option<nat>)
    ensures r.Some? ==> r.value < |ls| && ls[r.value].ownerId == owner
    ensures r.None? <==> forall l :: l in ls ==> l.ownerId != owner
  {
    if ls == [] then None
    else if ls[0].ownerId == owner then Some(0)
    else match LimitIndex(ls[1..], owner)
      case None => None
      case Some(i) => Some(i + 1)
  }

  /** `findByUser` / `findByUserId` on the expense table, in table order. */
  function ExpensesOf(es: seq<Expense>, owner: nat): (r: seq<Expense>)
    ensures forall e :: e in r <==> e in es && e.ownerId == owner
  {
    if es == [] then []
    else ExpensesOf(es[..|es| - 1], owner) + (if es[|es| - 1].ownerId == owner then [es[|es| - 1]] else [])
  }

  /** `findByUser` on the income table, in table order. */
  function IncomesOf(xs: seq<Income>, owner: nat): (r: seq<Income>)
    ensures forall x :: x in r <==> x in xs && x.ownerId == owner
  {
    if xs == [] then []
    else IncomesOf(xs[..|xs| - 1], owner) + (if xs[|xs| - 1].ownerId == owner then [xs[|xs| - 1]] else [])
  }

  /** `findByUsername(...).orElseThrow(...)`, the lookup every user-facing operation starts with. */
  function FindUserOrNotFound(users: seq<Account>, username: string): (r: Result<Account>)
    ensures r.Ok? <==> exists u :: u in users && u.username == username
    ensures r.Ok? ==> r.value in users && r.value.username == username
    ensures r.Err? ==> r.error == ResourceNotFound(NoSuchUser)
  {
    match UserByName(users, username)
    case None => Err(ResourceNotFound(NoSuchUser))
    case Some(u) => Ok(u)
  }

  predicate HasUser(users: seq<Account>, id: nat)
  {
    exists u :: u in users && u.id == id
  }

  // ---------------------------------------------------------------------
  // Table invariants

  predicate UsersWellFormed(users: seq<Account>, next: nat)
  {
    (forall i, j :: 0 <= i < j < |users| ==> users[i].id < users[j].id)
    && (forall u :: u in users ==> u.id < next)
    && (forall i, j :: 0 <= i < j < |users| ==> users[i].username != users[j].username)
    && (forall i, j :: 0 <= i < j < |users| && users[i].email.Some? ==> users[i].email != users[j].email)
  }

  /** Store-generated ids ascend in table order, so no two rows share one. */
  predicate ExpenseIdsAscend(es: seq<Expense>)
  {
    forall i, j :: 0 <= i < j < |es| ==> es[i].id < es[j].id
  }

  predicate IncomeIdsAscend(xs: seq<Income>)
  {
    forall i, j :: 0 <= i < j < |xs| ==> xs[i].id < xs[j].id
  }

  predicate ExpensesWellFormed(es: seq<Expense>, next: nat, users: seq<Account>)
  {
    ExpenseIdsAscend(es)
    && (forall e :: e in es ==> e.id < next && HasUser(users, e.ownerId))
  }

  predicate IncomesWellFormed(xs: seq<Income>, next: nat, users: seq<Account>)
  {
    IncomeIdsAscend(xs)
    && (forall x :: x in xs ==> x.id < next && HasUser(users, x.ownerId))
  }

  /** Limit ids ascend, and a user has at most one limit (one-to-one join column). */
  predicate LimitsWellFormed(ls: seq<Limit>, next: nat, users: seq<Account>)
  {
    (forall i, j :: 0 <= i < j < |ls| ==> ls[i].id < ls[j].id && ls[i].ownerId != ls[j].ownerId)
    && (forall l :: l in ls ==> l.id < next && HasUser(users, l.ownerId))
  }

  /** Removing one row keeps the expense ids ascending and adds no row. */
  lemma ExpenseRemovalKeepsOrder(es: seq<Expense>, i: nat)
    requires ExpenseIdsAscend(es) && i < |es|
    ensures ExpenseIdsAscend(es[..i] + es[i + 1..])
    ensures forall x :: x in es[..i] + es[i + 1..] ==> x in es
  {
    var rest := es[..i] + es[i + 1..];
    forall k | 0 <= k < |rest| ensures rest[k] == es[if k < i then k else k + 1] {
    }
    forall a, b | 0 <= a < b < |rest| ensures rest[a].id < rest[b].id {
      var a', b' := if a < i then a else a + 1, if b < i then b else b + 1;
      assert rest[a] == es[a'] && rest[b] == es[b'] && a' < b';
    }
  }

  /** Removing one row keeps the income ids ascending and adds no row. */
  lemma IncomeRemovalKeepsOrder(xs: seq<Income>, i: nat)
    requires IncomeIdsAscend(xs) && i < |xs|
    ensures IncomeIdsAscend(xs[..i] + xs[i + 1..])
    ensures forall x :: x in xs[..i] + xs[i + 1..] ==> x in xs
  {
    var rest := xs[..i] + xs[i + 1..];
    forall k | 0 <= k < |rest| ensures rest[k] == xs[if k < i then k else k + 1] {
    }
    forall a, b | 0 <= a < b < |rest| ensures rest[a].id < rest[b].id {
      var a', b' := if a < i then a else a + 1, if b < i then b else b + 1;
      assert rest[a] == xs[a'] && rest[b] == xs[b'] && a' < b';
    }
  }

  /** A user with a fresh id, a new username and, if any, a new email keeps the user table well formed. */
  lemma AppendUserWellFormed(users: seq<Account>, next: nat, a: Account)
    requires UsersWellFormed(users, next) && a.id == next
    requires forall u :: u in users ==> u.username != a.username
    requires a.email.Some? ==> forall u :: u in users ==> u.email != a.email
    ensures UsersWellFormed(users + [a], next + 1)
  {
    var after := users + [a];
    forall i, j | 0 <= i < j < |after| ensures after[i].id < after[j].id && after[i].username != after[j].username
                                             && (after[i].email.Some? ==> after[i].email != after[j].email) {
      assert after[i] == users[i] && users[i] in users;
      if j < |users| {
        assert after[j] == users[j];
      } else {
        assert after[j] == a;
      }
    }
  }

  lemma AppendExpenseWellFormed(es: seq<Expense>, next: nat, users: seq<Account>, e: Expense)
    requires ExpensesWellFormed(es, next, users) && e.id == next && HasUser(users, e.ownerId)
    ensures ExpensesWellFormed(es + [e], next + 1, users)
  {
    var after := es + [e];
    forall i, j | 0 <= i < j < |after| ensures after[i].id < after[j].id {
      assert after[i] == es[i] && es[i] in es;
    }
    assert forall x :: x in after <==> x in es || x == e;
  }

  lemma AppendIncomeWellFormed(xs: seq<Income>, next: nat, users: seq<Account>, x: Income)
    requires IncomesWellFormed(xs, next, users) && x.id == next && HasUser(users, x.ownerId)
    ensures IncomesWellFormed(xs + [x], next + 1, users)
  {
    var after := xs + [x];
    forall i, j | 0 <= i < j < |after| ensures after[i].id < after[j].id {
      assert after[i] == xs[i] && xs[i] in xs;
    }
    assert forall y :: y in after <==> y in xs || y == x;
  }

  lemma AppendLimitWellFormed(ls: seq<Limit>, next: nat, users: seq<Account>, l: Limit)
    requires LimitsWellFormed(ls, next, users) && l.id == next && HasUser(users, l.ownerId)
    requires forall m :: m in ls ==> m.ownerId != l.ownerId
    ensures LimitsWellFormed(ls + [l], next + 1, users)
  {
    var after := ls + [l];
    forall i, j | 0 <= i < j < |after| ensures after[i].id < after[j].id && after[i].ownerId != after[j].ownerId {
      assert after[i] == ls[i] && ls[i] in ls;
    }
    assert forall m :: m in after <==> m in ls || m == l;
  }

  /** Adding an account keeps every row's owner present. */
  lemma MoreUsersKeepOwners(users: seq<Account>, a: Account, es: seq<Expense>, xs: seq<Income>, ls: seq<Limit>,
                            ne: nat, nx: nat, nl: nat)
    requires ExpensesWellFormed(es, ne, users) && IncomesWellFormed(xs, nx, users) && LimitsWellFormed(ls, nl, users)
    ensures ExpensesWellFormed(es, ne, users + [a]) && IncomesWellFormed(xs, nx, users + [a])
    ensures LimitsWellFormed(ls, nl, users + [a])
  {
    assert forall u :: u in users ==> u in users + [a];
  }

  class Database {
    var users: seq<Account>
    var expenses: seq<Expense>
    var incomes: seq<Income>
    var limits: seq<Limit>
    var nextUserId: nat
    var nextExpenseId: nat
    var nextIncomeId: nat
    var nextLimitId: nat

    ghost predicate Valid()
      reads this
    {
      && UsersWellFormed(users, nextUserId)
      && ExpensesWellFormed(expenses, nextExpenseId, users)
      && IncomesWellFormed(incomes, nextIncomeId, users)
      && LimitsWellFormed(limits, nextLimitId, users)
    }

    constructor ()
      ensures Valid()
      ensures users == [] && expenses == [] && incomes == [] && limits == []
    {
      users, expenses, incomes, limits := [], [], [], [];
      nextUserId, nextExpenseId, nextIncomeId, nextLimitId := 1, 1, 1, 1;
    }

    // -------------------------------------------------------------------
    // UserRepository.save on a new user

    /**
     * Inserts a user under a fresh id. The table's unique constraints reject
     * a username already present and a non-null email already present.
     */
    method SaveNewUser(username: string, password: string, role: Role, email: Option<string>)
      returns (r: Result<Account>)
      requires Valid()
      modifies this
      ensures Valid()
      ensures r.Ok? <==> (old(UserByName(users, username)).None?
                          && (email.Some? ==> forall u :: u in old(users) ==> u.email != email))
      ensures r.Ok? ==> (r.value == Account(old(nextUserId), username, password, role, email)
                         && users == old(users) + [r.value])
      ensures r.Err? ==> r.error == ConstraintViolation && users == old(users)
      ensures expenses == old(expenses) && incomes == old(incomes) && limits == old(limits)
    {
      var free := UserByName(users, username).None?
                  && (email.Some? ==> forall u | u in users :: u.email != email);
      if !free {
        return Err(ConstraintViolation);
      }
      var a := Account(nextUserId, username, password, role, email);
      AppendUserWellFormed(users, nextUserId, a);
      MoreUsersKeepOwners(users, a, expenses, incomes, limits, nextExpenseId, nextIncomeId, nextLimitId);
      users := users + [a];
      nextUserId := nextUserId + 1;
      r := Ok(a);
      assert forall u :: u in old(users) ==> u in users;
    }

    // -------------------------------------------------------------------
    // ExpenseRepository

    /** `save` on a new expense: appended under a fresh id. */
    method SaveNewExpense(owner: Account, req: ExpenseRequest) returns (saved: Expense)
      requires Valid() && owner in users
      modifies this
      ensures Valid()
      ensures saved == Expense(old(nextExpenseId), owner.id, req.amount, req.category, req.date, req.description)
      ensures expenses == old(expenses) + [saved]
      ensures users == old(users) && incomes == old(incomes) && limits == old(limits)
    {
      saved := Expense(nextExpenseId, owner.id, req.amount, req.category, req.date, req.description);
      AppendExpenseWellFormed(expenses, nextExpenseId, users, saved);
      expenses := expenses + [saved];
      nextExpenseId := nextExpenseId + 1;
    }

    /** `save` on an existing expense: the row at position `i` is overwritten. */
    method SaveExpense(i: nat, e: Expense)
      requires Valid() && i < |expenses| && e.id == expenses[i].id && e.ownerId == expenses[i].ownerId
      modifies this
      ensures Valid()
      ensures expenses == old(expenses)[i := e]
      ensures users == old(users) && incomes == old(incomes) && limits == old(limits)
    {
      expenses := expenses[i := e];
      assert forall x :: x in expenses ==> x == e || x in old(expenses);
    }

    /** `delete`: the row at position `i` is removed. */
    method DeleteExpense(i: nat)
      requires Valid() && i < |expenses|
      modifies this
      ensures Valid()
      ensures expenses == old(expenses[..i] + expenses[i + 1..])
      ensures users == old(users) && incomes == old(incomes) && limits == old(limits)
    {
      ExpenseRemovalKeepsOrder(expenses, i);
      expenses := expenses[..i] + expenses[i + 1..];
    }

    // -------------------------------------------------------------------
    // IncomeRepository

    method SaveNewIncome(owner: Account, req: IncomeRequest) returns (saved: Income)
      requires Valid() && owner in users
      modifies this
      ensures Valid()
      ensures saved == Income(old(nextIncomeId), owner.id, req.amount, req.source, req.date)
      ensures incomes == old(incomes) + [saved]
      ensures users == old(users) && expenses == old(expenses) && limits == old(limits)
    {
      saved := Income(nextIncomeId, owner.id, req.amount, req.source, req.date);
      AppendIncomeWellFormed(incomes, nextIncomeId, users, saved);
      incomes := incomes + [saved];
      nextIncomeId := nextIncomeId + 1;
    }

    method SaveIncome(i: nat, x: Income)
      requires Valid() && i < |incomes| && x.id == incomes[i].id && x.ownerId == incomes[i].ownerId
      modifies this
      ensures Valid()
      ensures incomes == old(incomes)[i := x]
      ensures users == old(users) && expenses == old(expenses) && limits == old(limits)
    {
      incomes := incomes[i := x];
      assert forall y :: y in incomes ==> y == x || y in old(incomes);
    }

    method DeleteIncome(i: nat)
      requires Valid() && i < |incomes|
      modifies this
      ensures Valid()
      ensures incomes == old(incomes[..i] + incomes[i + 1..])
      ensures users == old(users) && expenses == old(expenses) && limits == old(limits)
    {
      IncomeRemovalKeepsOrder(incomes, i);
      incomes := incomes[..i] + incomes[i + 1..];
    }

    // -------------------------------------------------------------------
    // LimitRepository

    method SaveNewLimit(owner: Account, amount: int) returns (saved: Limit)
      requires Valid() && owner in users && LimitIndex(limits, owner.id).None?
      modifies this
      ensures Valid()
      ensures saved == Limit(old(nextLimitId), owner.id, amount)
      ensures limits == old(limits) + [saved]
      ensures users == old(users) && expenses == old(expenses) && incomes == old(incomes)
    {
      saved := Limit(nextLimitId, owner.id, amount);
      AppendLimitWellFormed(limits, nextLimitId, users, saved);
      limits := limits + [saved];
      nextLimitId := nextLimitId + 1;
    }

    method SaveLimit(i: nat, l: Limit)
      requires Valid() && i < |limits| && l.id == limits[i].id && l.ownerId == limits[i].ownerId
      modifies this
      ensures Valid()
      ensures limits == old(limits)[i := l]
      ensures users == old(users) && expenses == old(expenses) && incomes == old(incomes)
    {
      limits := limits[i := l];
      assert forall y :: y in limits ==> y == l || y in old(limits);
    }
  }
}
