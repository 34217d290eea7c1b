/**
 * `UserServiceImpl`: what a signed-in user sees and changes about their own
 * money: overview, monthly chart, spending limit, expenses, incomes and the
 * financial report. Every operation first looks the caller up by username
 * (`getUser`), and an unknown username raises ResourceNotFound before
 * anything else happens.
 */
module UserService {
  import opened Domain
  import opened JavaText
  import opened Store
  import opened Aggregates

  /** The caller's expenses, as `expenseRepository.findByUser(user)` returns them. */
  function MyExpenses(db: Database, user: Account): (r: seq<Expense>)
    reads db
    ensures forall e :: e in r <==> e in db.expenses && e.ownerId == user.id
  {
    ExpensesOf(db.expenses, user.id)
  }

  /** `getOverview`: the caller's total expense and per-category sums. */
  function GetOverview(db: Database, username: string): (r: Result<Overview>)
    reads db
    ensures r.Err? <==> UserByName(db.users, username).None?
    ensures r.Err? ==> r.error == ResourceNotFound(NoSuchUser)
    ensures r.Ok? ==>
      var mine := MyExpenses(db, UserByName(db.users, username).value);
      && r.value.totalExpense == ExpenseTotal(mine)
      && (forall c :: c in r.value.categorySummary <==> exists e :: e in mine && e.category == c)
      && (forall c :: c in r.value.categorySummary ==> r.value.categorySummary[c] == CategorySum(mine, c))
  {
    match FindUserOrNotFound(db.users, username)
    case Err(e) => Err(e)
    case Ok(user) =>
      var mine := MyExpenses(db, user);
      CategoryTotalsAll(mine);
      Ok(Overview(ExpenseTotal(mine), CategoryTotals(mine)))
  }

  /**
   * `getChartData`: walks the caller's expenses, skipping undated ones, and
   * adds each amount to the bucket of its "YYYY-MM" key.
   */
  method GetChartData(db: Database, username: string) returns (r: Result<map<string, int>>)
    ensures r.Err? <==> UserByName(db.users, username).None?
    ensures r.Err? ==> r.error == ResourceNotFound(NoSuchUser)
    ensures r.Ok? ==>
      var mine := MyExpenses(db, UserByName(db.users, username).value);
      && r.value == MonthlyTotals(mine)
      && (forall d: Date :: (MonthKey(d) in r.value
            <==> exists e :: e in mine && e.date.Some? && e.date.value.year == d.year && e.date.value.month == d.month))
      && (forall d: Date :: MonthKey(d) in r.value ==> r.value[MonthKey(d)] == MonthSum(mine, d.year, d.month))
      && (forall k :: k in r.value ==> ParseMonthKey(k).Some?)
  {
    var found := FindUserOrNotFound(db.users, username);
    if found.Err? {
      return Err(found.error);
    }
    var mine := MyExpenses(db, found.value);
    var monthly := MonthlyBuckets(mine);
    MonthlyTotalsAll(mine);
    r := Ok(monthly);
  }

  /**
   * The loop of `getChartData`: each dated expense adds its amount to the
   * bucket of its "YYYY-MM" key, a new bucket starting from zero.
   */
  method MonthlyBuckets(mine: seq<Expense>) returns (monthly: map<string, int>)
    ensures monthly == MonthlyTotals(mine)
  {
    monthly := map[];
    assert mine[..0] == [];
    for i := 0 to |mine|
      invariant monthly == MonthlyTotals(mine[..i])
    {
      MonthlyTotalsStep(mine, i, monthly);
      var e := mine[i];
      if e.date.Some? {
        var key := MonthKey(e.date.value);
        monthly := monthly[key := (if key in monthly then monthly[key] else 0) + e.amount];
      }
    }
    assert mine[..|mine|] == mine;
  }

  /**
   * `setLimit`: reuses the caller's limit if there is one, otherwise creates
   * one; either way the caller ends with exactly one limit, holding `amount`.
   */
  method SetLimit(db: Database, username: string, amount: int) returns (r: Result<Limit>)
    requires db.Valid()
    modifies db
    ensures db.Valid()
    ensures r.Err? <==> UserByName(old(db.users), username).None?
    ensures r.Err? ==> r.error == ResourceNotFound(NoSuchUser) && unchanged(db)
    ensures r.Ok? ==> UpsertedLimit(old(db.limits), db.limits, r.value, UserByName(old(db.users), username).value.id, amount)
    ensures db.users == old(db.users) && db.expenses == old(db.expenses) && db.incomes == old(db.incomes)
  {
    var found := FindUserOrNotFound(db.users, username);
    if found.Err? {
      return Err(found.error);
    }
    var saved := UpsertLimit(db, found.value, amount);
    r := Ok(saved);
  }

  /**
   * The limit table after an upsert for `owner`: the owner's limit (the old
   * one, or a new row if there was none) holds `amount`, it is the owner's
   * only limit, and every other limit is as before.
   */
  ghost predicate UpsertedLimit(before: seq<Limit>, after: seq<Limit>, saved: Limit, owner: nat, amount: int)
  {
    && saved.ownerId == owner && saved.amount == amount
    && saved in after
    && (forall l :: l in after && l.ownerId == owner ==> l == saved)
    && (forall l :: l in after && l.ownerId != owner <==> l in before && l.ownerId != owner)
    && (forall l :: l in before && l.ownerId == owner ==> l.id == saved.id)
  }

  /** The find-or-create-then-save step shared with the administrator's limit setting. */
  method UpsertLimit(db: Database, user: Account, amount: int) returns (saved: Limit)
    requires db.Valid() && user in db.users
    modifies db
    ensures db.Valid()
    ensures UpsertedLimit(old(db.limits), db.limits, saved, user.id, amount)
    ensures db.users == old(db.users) && db.expenses == old(db.expenses) && db.incomes == old(db.incomes)
  {
    var existing := LimitIndex(db.limits, user.id);
    if existing.Some? {
      var i := existing.value;
      saved := db.limits[i].(amount := amount);
      LimitOverwritten(db.limits, i, saved);
      db.SaveLimit(i, saved);
    } else {
      LimitAppended(db.limits, Limit(db.nextLimitId, user.id, amount));
      saved := db.SaveNewLimit(user, amount);
    }
  }

  /** Overwriting the owner's one limit row is an upsert. */
  lemma LimitOverwritten(before: seq<Limit>, i: nat, saved: Limit)
    requires i < |before| && saved.id == before[i].id && saved.ownerId == before[i].ownerId
    requires forall a, b :: 0 <= a < b < |before| ==> before[a].ownerId != before[b].ownerId
    ensures UpsertedLimit(before, before[i := saved], saved, saved.ownerId, saved.amount)
  {
    var after := before[i := saved];
    assert after[i] == saved;
    forall l | l in after && l.ownerId == saved.ownerId ensures l == saved {
      var k :| 0 <= k < |after| && after[k] == l;
      assert k == i;
    }
    forall l | l in after && l.ownerId != saved.ownerId ensures l in before {
      var k :| 0 <= k < |after| && after[k] == l;
      assert before[k] == l;
    }
    forall l | l in before && l.ownerId != saved.ownerId ensures l in after {
      var k :| 0 <= k < |before| && before[k] == l;
      assert after[k] == l;
    }
    forall l | l in before && l.ownerId == saved.ownerId ensures l.id == saved.id {
      var k :| 0 <= k < |before| && before[k] == l;
      assert k == i;
    }
  }

  /** Appending a limit for an owner who had none is an upsert. */
  lemma LimitAppended(before: seq<Limit>, saved: Limit)
    requires forall l :: l in before ==> l.ownerId != saved.ownerId
    ensures UpsertedLimit(before, before + [saved], saved, saved.ownerId, saved.amount)
  {
    assert forall l :: l in before + [saved] <==> l in before || l == saved;
  }

  /** `getLimit`: the caller's limit amount; ResourceNotFound when there is none. */
  function GetLimit(db: Database, username: string): (r: Result<int>)
    reads db
    ensures UserByName(db.users, username).None? ==> r == Err(ResourceNotFound(NoSuchUser))
    ensures UserByName(db.users, username).Some? ==>
      var uid := UserByName(db.users, username).value.id;
      && (r.Ok? <==> exists l :: l in db.limits && l.ownerId == uid)
      && (r.Ok? ==> exists l :: l in db.limits && l.ownerId == uid && l.amount == r.value)
      && (r.Err? ==> r.error == ResourceNotFound(NoLimit))
  {
    match FindUserOrNotFound(db.users, username)
    case Err(e) => Err(e)
    case Ok(user) =>
      match LimitIndex(db.limits, user.id)
      case None => Err(ResourceNotFound(NoLimit))
      case Some(i) => assert db.limits[i] in db.limits; Ok(db.limits[i].amount)
  }

  /** `addExpense`: like the expense service's, but returns the saved entity. */
  method AddExpense(db: Database, username: string, req: ExpenseRequest) returns (r: Result<Expense>)
    requires db.Valid()
    modifies db
    ensures db.Valid()
    ensures r.Err? <==> UserByName(old(db.users), username).None?
    ensures r.Err? ==> r.error == ResourceNotFound(NoSuchUser) && unchanged(db)
    ensures r.Ok? ==>
      && r.value == Expense(old(db.nextExpenseId), UserByName(old(db.users), username).value.id,
                            req.amount, req.category, req.date, req.description)
      && db.expenses == old(db.expenses) + [r.value]
    ensures db.users == old(db.users) && db.incomes == old(db.incomes) && db.limits == old(db.limits)
  {
    var found := FindUserOrNotFound(db.users, username);
    if found.Err? {
      return Err(found.error);
    }
    var saved := db.SaveNewExpense(found.value, req);
    r := Ok(saved);
  }

  /** The caller's view of one of their expenses, owner fields filled in. */
  function OwnedResponse(e: Expense, user: Account): (r: ExpenseResponse)
    ensures r.id == e.id && r.amount == e.amount && r.category == e.category
    ensures r.date == e.date && r.description == e.description
    ensures r.userId == Some(user.id) && r.username == Some(user.username)
  {
    ExpenseResponse(e.id, e.description, e.amount, e.date, e.category, Some(user.id), Some(user.username))
  }

  /** `getAllExpenses`: one response per caller expense, in order, carrying the caller's id and username. */
  function GetAllExpenses(db: Database, username: string): (r: Result<seq<ExpenseResponse>>)
    reads db
    ensures r.Err? <==> UserByName(db.users, username).None?
    ensures r.Err? ==> r.error == ResourceNotFound(NoSuchUser)
    ensures r.Ok? ==>
      var user := UserByName(db.users, username).value;
      var mine := MyExpenses(db, user);
      && |r.value| == |mine|
      && forall i :: 0 <= i < |mine| ==>
           && r.value[i].id == mine[i].id && r.value[i].amount == mine[i].amount
           && r.value[i].category == mine[i].category && r.value[i].date == mine[i].date
           && r.value[i].description == mine[i].description
           && r.value[i].userId == Some(user.id) && r.value[i].username == Some(username)
  {
    match FindUserOrNotFound(db.users, username)
    case Err(e) => Err(e)
    case Ok(user) =>
      var mine := MyExpenses(db, user);
      Ok(seq(|mine|, i requires 0 <= i < |mine| => OwnedResponse(mine[i], user)))
  }

  /** `addIncome`: stores a new income owned by the caller. */
  method AddIncome(db: Database, username: string, req: IncomeRequest) returns (r: Result<Income>)
    requires db.Valid()
    modifies db
    ensures db.Valid()
    ensures r.Err? <==> UserByName(old(db.users), username).None?
    ensures r.Err? ==> r.error == ResourceNotFound(NoSuchUser) && unchanged(db)
    ensures r.Ok? ==>
      && r.value == Income(old(db.nextIncomeId), UserByName(old(db.users), username).value.id, req.amount, req.source, req.date)
      && db.incomes == old(db.incomes) + [r.value]
    ensures db.users == old(db.users) && db.expenses == old(db.expenses) && db.limits == old(db.limits)
  {
    var found := FindUserOrNotFound(db.users, username);
    if found.Err? {
      return Err(found.error);
    }
    var saved := db.SaveNewIncome(found.value, req);
    r := Ok(saved);
  }

  /** The caller's view of one of their incomes, owner fields filled in. */
  function IncomeResponseOf(x: Income, user: Account): (r: IncomeResponse)
    ensures r.id == x.id && r.amount == x.amount && r.source == x.source && r.date == x.date
    ensures r.userId == user.id && r.username == user.username
  {
    IncomeResponse(x.id, x.amount, x.source, x.date, user.id, user.username)
  }

  /** `getIncome`: one response per caller income, in order. */
  function GetIncome(db: Database, username: string): (r: Result<seq<IncomeResponse>>)
    reads db
    ensures r.Err? <==> UserByName(db.users, username).None?
    ensures r.Err? ==> r.error == ResourceNotFound(NoSuchUser)
    ensures r.Ok? ==>
      var user := UserByName(db.users, username).value;
      var mine := IncomesOf(db.incomes, user.id);
      && |r.value| == |mine|
      && forall i :: 0 <= i < |mine| ==>
           r.value[i] == IncomeResponse(mine[i].id, mine[i].amount, mine[i].source, mine[i].date, user.id, username)
  {
    match FindUserOrNotFound(db.users, username)
    case Err(e) => Err(e)
    case Ok(user) =>
      var mine := IncomesOf(db.incomes, user.id);
      Ok(seq(|mine|, i requires 0 <= i < |mine| => IncomeResponseOf(mine[i], user)))
  }

  /**
   * The lookup `updateIncome` and `deleteIncome` share: the income must
   * exist, and its owner's username must be the caller's.
   */
  function OwnedIncomeIndex(db: Database, user: Account, incomeId: nat): (r: Result<nat>)
    reads db
    requires db.Valid() && user in db.users
    ensures r.Ok? ==> r.value < |db.incomes| && db.incomes[r.value].id == incomeId && db.incomes[r.value].ownerId == user.id
    ensures r.Ok? <==> exists x :: x in db.incomes && x.id == incomeId && x.ownerId == user.id
    ensures r.Err? ==> r.error == ResourceNotFound(
      if exists x :: x in db.incomes && x.id == incomeId then IncomeNotOwned else NoSuchIncome)
  {
    match IncomeIndex(db.incomes, incomeId)
    case None => Err(ResourceNotFound(NoSuchIncome))
    case Some(i) =>
      var x := db.incomes[i];
      assert x in db.incomes;
      assert forall j :: 0 <= j < |db.incomes| && db.incomes[j].id == incomeId ==> j == i;
      var owner := UserById(db.users, x.ownerId).value;
      UsernamesIdentify(db.users, owner, user);
      if owner.username != user.username then Err(ResourceNotFound(IncomeNotOwned)) else Ok(i)
  }

  /** Usernames are unique, so equal usernames mean the same account. */
  lemma UsernamesIdentify(users: seq<Account>, a: Account, b: Account)
    requires forall i, j :: 0 <= i < j < |users| ==> users[i].username != users[j].username
    requires a in users && b in users
    ensures a.username == b.username <==> a == b
  {
    var i :| 0 <= i < |users| && users[i] == a;
    var j :| 0 <= j < |users| && users[j] == b;
    if a.username == b.username && i != j {
      if i < j { assert users[i].username != users[j].username; } else { assert users[j].username != users[i].username; }
    }
  }

  /** `updateIncome`: changes only that income's amount, source and date. */
  method UpdateIncome(db: Database, username: string, incomeId: nat, req: IncomeRequest) returns (r: Result<IncomeResponse>)
    requires db.Valid()
    modifies db
    ensures db.Valid()
    ensures UserByName(old(db.users), username).None? ==> r == Err(ResourceNotFound(NoSuchUser))
    ensures r.Ok? <==> UserByName(old(db.users), username).Some?
                       && exists x :: x in old(db.incomes) && x.id == incomeId && x.ownerId == UserByName(old(db.users), username).value.id
    ensures r.Err? ==> unchanged(db)
    ensures r.Err? && UserByName(old(db.users), username).Some? ==>
      r.error == ResourceNotFound(if exists x :: x in old(db.incomes) && x.id == incomeId then IncomeNotOwned else NoSuchIncome)
    ensures r.Ok? ==>
      var user := UserByName(old(db.users), username).value;
      var updated := Income(incomeId, user.id, req.amount, req.source, req.date);
      && r.value == IncomeResponseOf(updated, user)
      && exists i :: 0 <= i < |old(db.incomes)| && old(db.incomes)[i].id == incomeId && db.incomes == old(db.incomes)[i := updated]
    ensures db.users == old(db.users) && db.expenses == old(db.expenses) && db.limits == old(db.limits)
  {
    var found := FindUserOrNotFound(db.users, username);
    if found.Err? {
      return Err(found.error);
    }
    var user := found.value;
    var idx := OwnedIncomeIndex(db, user, incomeId);
    if idx.Err? {
      return Err(idx.error);
    }
    var i := idx.value;
    var updated := db.incomes[i].(amount := req.amount, source := req.source, date := req.date);
    db.SaveIncome(i, updated);
    r := Ok(IncomeResponseOf(updated, user));
  }

  /** `deleteIncome`: removes the caller's income; every other income remains. */
  method DeleteIncome(db: Database, username: string, incomeId: nat) returns (r: Result<()>)
    requires db.Valid()
    modifies db
    ensures db.Valid()
    ensures UserByName(old(db.users), username).None? ==> r == Err(ResourceNotFound(NoSuchUser))
    ensures r.Ok? <==> UserByName(old(db.users), username).Some?
                       && exists x :: x in old(db.incomes) && x.id == incomeId && x.ownerId == UserByName(old(db.users), username).value.id
    ensures r.Err? ==> unchanged(db)
    ensures r.Err? && UserByName(old(db.users), username).Some? ==>
      r.error == ResourceNotFound(if exists x :: x in old(db.incomes) && x.id == incomeId then IncomeNotOwned else NoSuchIncome)
    ensures r.Ok? ==> forall x :: x in db.incomes <==> x in old(db.incomes) && x.id != incomeId
    ensures db.users == old(db.users) && db.expenses == old(db.expenses) && db.limits == old(db.limits)
  {
    var found := FindUserOrNotFound(db.users, username);
    if found.Err? {
      return Err(found.error);
    }
    var idx := OwnedIncomeIndex(db, found.value, incomeId);
    if idx.Err? {
      return Err(idx.error);
    }
    ghost var before := db.incomes;
    db.DeleteIncome(idx.value);
    RemovedIncome(before, idx.value);
    r := Ok(());
  }

  /** Removing the row at `i` removes exactly the income with its id, ids being unique. */
  lemma RemovedIncome(xs: seq<Income>, i: nat)
    requires IncomeIdsAscend(xs) && i < |xs|
    ensures forall x :: x in xs[..i] + xs[i + 1..] <==> x in xs && x.id != xs[i].id
  {
    var rest := xs[..i] + xs[i + 1..];
    forall k | 0 <= k < |rest| ensures rest[k] == xs[if k < i then k else k + 1] {
    }
    forall x | x in rest ensures x in xs && x.id != xs[i].id {
      var k :| 0 <= k < |rest| && rest[k] == x;
      var k' := if k < i then k else k + 1;
      assert x == xs[k'];
      if k' < i {
        assert xs[k'].id < xs[i].id;
      } else {
        assert xs[i].id < xs[k'].id;
      }
    }
    forall x | x in xs && x.id != xs[i].id ensures x in rest {
      var k :| 0 <= k < |xs| && xs[k] == x;
      if k < i {
        assert rest[k] == xs[k];
      } else {
        assert k > i;
        assert rest[k - 1] == xs[k];
      }
    }
  }


  /** `getFinancialReport`: the caller's income and expense totals, balance and category sums. */
  function GetFinancialReport(db: Database, username: string): (r: Result<FinancialReport>)
    reads db
    ensures r.Err? <==> UserByName(db.users, username).None?
    ensures r.Err? ==> r.error == ResourceNotFound(NoSuchUser)
    ensures r.Ok? ==>
      var user := UserByName(db.users, username).value;
      && r.value.totalIncome == IncomeTotal(IncomesOf(db.incomes, user.id))
      && r.value.totalExpense == ExpenseTotal(MyExpenses(db, user))
      && r.value.balance == r.value.totalIncome - r.value.totalExpense
      && (forall c :: c in r.value.expenseByCategory <==> exists e :: e in MyExpenses(db, user) && e.category == c)
      && (forall c :: c in r.value.expenseByCategory ==> r.value.expenseByCategory[c] == CategorySum(MyExpenses(db, user), c))
  {
    match FindUserOrNotFound(db.users, username)
    case Err(e) => Err(e)
    case Ok(user) =>
      var mine := MyExpenses(db, user);
      CategoryTotalsAll(mine);
      var totalExpense := ExpenseTotal(mine);
      var totalIncome := IncomeTotal(IncomesOf(db.incomes, user.id));
      Ok(FinancialReport(totalIncome, totalExpense, totalIncome - totalExpense, CategoryTotals(mine)))
  }

  /** The report groups expenses by the same rule as the overview and agrees on the total. */
  lemma ReportAgreesWithOverview(db: Database, username: string)
    requires UserByName(db.users, username).Some?
    ensures GetFinancialReport(db, username).value.expenseByCategory == GetOverview(db, username).value.categorySummary
    ensures GetFinancialReport(db, username).value.totalExpense == GetOverview(db, username).value.totalExpense
  {
  }
}
