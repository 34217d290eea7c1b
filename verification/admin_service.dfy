/**
 * `AdminServiceImpl`: system-wide views for administrators. Nothing here is
 * scoped to a caller. Every table is read in full, and users are addressed
 * by id rather than by username.
 */
module AdminService {
  import opened Domain
  import opened JavaText
  import opened Store
  import opened Aggregates
  import UserService

  /** `IncomeWithUserLimitDTO`: an income with its owner and the owner's limit, if any. */
  datatype IncomeWithLimit = IncomeWithLimit(
    id: nat, amount: int, source: string, date: Option<Date>,
    userId: nat, username: string, monthlyLimit: Option<int>)

  // ---------------------------------------------------------------------
  // Totals and category summary over all expenses

  /** `getExpensesGroupedByCategory`: every category present, mapped to the sum of its amounts. */
  function GetExpensesGroupedByCategory(db: Database): (r: map<string, int>)
    reads db
    ensures forall c :: c in r <==> exists e :: e in db.expenses && e.category == c
    ensures forall c :: c in r ==> r[c] == CategorySum(db.expenses, c)
  {
    CategoryTotalsAll(db.expenses);
    CategoryTotals(db.expenses)
  }

  /** `getOverview`: the total of every expense and the category summary. */
  function GetOverview(db: Database): (r: Overview)
    reads db
    ensures r.totalExpense == ExpenseTotal(db.expenses)
    ensures r.categorySummary == GetExpensesGroupedByCategory(db)
  {
    Overview(ExpenseTotal(db.expenses), GetExpensesGroupedByCategory(db))
  }

  /** `getSystemFinancialReport`: all incomes against all expenses. */
  function GetSystemFinancialReport(db: Database): (r: FinancialReport)
    reads db
    ensures r.totalIncome == IncomeTotal(db.incomes) && r.totalExpense == ExpenseTotal(db.expenses)
    ensures r.balance == r.totalIncome - r.totalExpense
    ensures r.expenseByCategory == GetExpensesGroupedByCategory(db)
  {
    var totalIncome := IncomeTotal(db.incomes);
    var totalExpense := ExpenseTotal(db.expenses);
    FinancialReport(totalIncome, totalExpense, totalIncome - totalExpense, GetExpensesGroupedByCategory(db))
  }

  /** The sum of each listed owner's expense total. */
  function OwnersTotal(es: seq<Expense>, ids: seq<nat>): int
  {
    if ids == [] then 0 else ExpenseTotal(ExpensesOf(es, ids[0])) + OwnersTotal(es, ids[1..])
  }

  function UserIds(users: seq<Account>): (ids: seq<nat>)
    ensures |ids| == |users| && forall i :: 0 <= i < |users| ==> ids[i] == users[i].id
  {
    seq(|users|, i requires 0 <= i < |users| => users[i].id)
  }

  lemma {:induction false} OwnersTotalEmpty(ids: seq<nat>)
    ensures OwnersTotal([], ids) == 0
  {
    if ids != [] {
      OwnersTotalEmpty(ids[1..]);
    }
  }

  /** Appending an expense adds its amount to its owner's total and to no one else's. */
  lemma OwnerTotalSnoc(es: seq<Expense>, e: Expense, owner: nat)
    ensures ExpenseTotal(ExpensesOf(es + [e], owner))
         == ExpenseTotal(ExpensesOf(es, owner)) + (if e.ownerId == owner then e.amount else 0)
  {
    assert (es + [e])[..|es|] == es;
    var mine := ExpensesOf(es, owner);
    if e.ownerId == owner {
      assert ExpensesOf(es + [e], owner) == mine + [e];
      assert (mine + [e])[..|mine|] == mine;
      assert ExpenseTotal(mine + [e]) == ExpenseTotal(mine) + e.amount;
    } else {
      assert ExpensesOf(es + [e], owner) == mine + [];
      assert mine + [] == mine;
    }
  }

  lemma {:induction false} OwnersTotalSnoc(es: seq<Expense>, e: Expense, ids: seq<nat>)
    ensures OwnersTotal(es + [e], ids) == OwnersTotal(es, ids) + Indicator(ids, e.ownerId, e.amount)
  {
    if ids != [] {
      OwnerTotalSnoc(es, e, ids[0]);
      OwnersTotalSnoc(es, e, ids[1..]);
    }
  }

  /**
   * Splitting the expenses by owner loses nothing: over a duplicate-free list
   * of ids covering every owner, the owners' totals add up to the total.
   */
  lemma {:induction false} TotalSplitsByOwner(es: seq<Expense>, ids: seq<nat>)
    requires Distinct(ids)
    requires forall e :: e in es ==> e.ownerId in ids
    ensures OwnersTotal(es, ids) == ExpenseTotal(es)
  {
    if es == [] {
      OwnersTotalEmpty(ids);
    } else {
      var init, e := es[..|es| - 1], es[|es| - 1];
      assert es == init + [e];
      TotalSplitsByOwner(init, ids);
      OwnersTotalSnoc(init, e, ids);
      IndicatorOnce(ids, e.ownerId, e.amount);
    }
  }

  /**
   * The administrator's total expense is the sum, over all users, of the
   * total each user sees in their own overview.
   */
  lemma SystemTotalIsSumOfUserTotals(db: Database)
    requires db.Valid()
    ensures GetOverview(db).totalExpense == OwnersTotal(db.expenses, UserIds(db.users))
  {
    var ids := UserIds(db.users);
    forall e | e in db.expenses ensures e.ownerId in ids {
      var u :| u in db.users && u.id == e.ownerId;
      var k :| 0 <= k < |db.users| && db.users[k] == u;
      assert ids[k] == e.ownerId;
    }
    TotalSplitsByOwner(db.expenses, ids);
  }

  // ---------------------------------------------------------------------
  // Per-user lookups

  /** `getUserExpenses`: the expenses of the user with this id, or ResourceNotFound. */
  function GetUserExpenses(db: Database, userId: nat): (r: Result<seq<Expense>>)
    reads db
    ensures r.Err? <==> forall u :: u in db.users ==> u.id != userId
    ensures r.Err? ==> r.error == ResourceNotFound(NoSuchUser)
    ensures r.Ok? ==> forall e :: e in r.value <==> e in db.expenses && e.ownerId == userId
    ensures r.Ok? ==> r.value == ExpensesOf(db.expenses, userId)
  {
    match UserById(db.users, userId)
    case None => Err(ResourceNotFound(NoSuchUser))
    case Some(user) => Ok(ExpensesOf(db.expenses, user.id))
  }

  /** The account that owns a row; the foreign key guarantees it exists. */
  function Owner(users: seq<Account>, ownerId: nat): (u: Account)
    requires HasUser(users, ownerId)
    ensures u in users && u.id == ownerId
  {
    UserById(users, ownerId).value
  }

  /** `"USER".equalsIgnoreCase(String.valueOf(role))`: holds exactly for role USER. */
  predicate HasUserRole(u: Account): (b: bool)
    ensures b <==> u.role == USER
  {
    HasUserRoleIsUser(u.role);
    EqualsIgnoreCase("USER", Some(RoleName(u.role)))
  }

  /** The case-insensitive "USER" test on a role's name selects exactly role USER. */
  lemma HasUserRoleIsUser(r: Role)
    ensures EqualsIgnoreCase("USER", Some(RoleName(r))) <==> r == USER
  {
    if r == USER {
      forall i | 0 <= i < 4 ensures FoldsTo("USER"[i], "USER"[i]) {
      }
    }
  }

  /** The administrator's view of an expense: its fields plus its owner's id and username. */
  function AdminRow(users: seq<Account>, e: Expense): (r: ExpenseResponse)
    requires HasUser(users, e.ownerId)
    ensures r.id == e.id && r.description == e.description && r.amount == e.amount
    ensures r.date == e.date && r.category == e.category
    ensures r.userId == Some(e.ownerId)
    ensures exists u :: u in users && u.id == e.ownerId && r.username == Some(u.username)
  {
    var u := Owner(users, e.ownerId);
    ExpenseResponse(e.id, e.description, e.amount, e.date, e.category, Some(u.id), Some(u.username))
  }

  /** The stream of `getAllExpenses`: filter on the owner's role, then map, keeping table order. */
  function UserRoleRows(users: seq<Account>, es: seq<Expense>): (r: seq<ExpenseResponse>)
    requires forall e :: e in es ==> HasUser(users, e.ownerId)
    ensures forall x :: x in r <==>
      exists e :: e in es && HasUserRole(Owner(users, e.ownerId)) && x == AdminRow(users, e)
  {
    if es == [] then []
    else
      var init, e := es[..|es| - 1], es[|es| - 1];
      assert forall x :: x in es <==> x in init || x == e;
      UserRoleRows(users, init) + (if HasUserRole(Owner(users, e.ownerId)) then [AdminRow(users, e)] else [])
  }

  /** The positions, ascending, at which `keep` holds. */
  function Positions(keep: seq<bool>): (ps: seq<int>)
    ensures forall k :: 0 <= k < |ps| ==> 0 <= ps[k] < |keep|
    ensures forall k, l :: 0 <= k < l < |ps| ==> ps[k] < ps[l]
    ensures forall i :: 0 <= i < |keep| ==> (i in ps <==> keep[i])
  {
    if keep == [] then []
    else
      var init, last := keep[..|keep| - 1], |keep| - 1;
      var ps0 := Positions(init);
      var ps := ps0 + (if keep[last] then [last] else []);
      assert forall i :: i in ps <==> i in ps0 || (keep[last] && i == last);
      assert forall i :: 0 <= i < last ==> keep[i] == init[i];
      ps
  }

  /** For each expense, whether its owner has role USER. */
  function UserOwned(users: seq<Account>, es: seq<Expense>): (keep: seq<bool>)
    requires forall e :: e in es ==> HasUser(users, e.ownerId)
    ensures |keep| == |es|
    ensures forall i :: 0 <= i < |es| ==> (keep[i] <==> Owner(users, es[i].ownerId).role == USER)
  {
    seq(|es|, i requires 0 <= i < |es| => HasUserRole(Owner(users, es[i].ownerId)))
  }

  /** The positions, ascending, of the expenses whose owner has role USER. */
  function KeptPositions(users: seq<Account>, es: seq<Expense>): (ps: seq<int>)
    requires forall e :: e in es ==> HasUser(users, e.ownerId)
    ensures forall k :: 0 <= k < |ps| ==> 0 <= ps[k] < |es|
    ensures forall k, l :: 0 <= k < l < |ps| ==> ps[k] < ps[l]
    ensures forall i :: 0 <= i < |es| ==> (i in ps <==> Owner(users, es[i].ownerId).role == USER)
  {
    Positions(UserOwned(users, es))
  }

  /** Dropping the last expense drops its position, if it was kept, from the end. */
  lemma KeptPositionsSnoc(users: seq<Account>, es: seq<Expense>)
    requires es != [] && forall e :: e in es ==> HasUser(users, e.ownerId)
    ensures forall x :: x in es[..|es| - 1] ==> x in es
    ensures KeptPositions(users, es) == KeptPositions(users, es[..|es| - 1])
      + (if Owner(users, es[|es| - 1].ownerId).role == USER then [|es| - 1] else [])
  {
    var init := es[..|es| - 1];
    assert forall x :: x in init ==> x in es;
    assert UserOwned(users, es)[..|es| - 1] == UserOwned(users, init);
  }

  /**
   * The rows of `getAllExpenses` are the kept expenses in table order, one
   * row each: row `k` is the view of the expense at the `k`-th kept position.
   */
  lemma {:induction false} UserRoleRowsFollowPositions(users: seq<Account>, es: seq<Expense>)
    requires forall e :: e in es ==> HasUser(users, e.ownerId)
    ensures |UserRoleRows(users, es)| == |KeptPositions(users, es)|
    ensures forall k :: 0 <= k < |UserRoleRows(users, es)| ==>
      UserRoleRows(users, es)[k] == AdminRow(users, es[KeptPositions(users, es)[k]])
  {
    if es != [] {
      var init, e, last := es[..|es| - 1], es[|es| - 1], |es| - 1;
      KeptPositionsSnoc(users, es);
      UserRoleRowsFollowPositions(users, init);
      var rs0, ps0 := UserRoleRows(users, init), KeptPositions(users, init);
      var rs, ps := UserRoleRows(users, es), KeptPositions(users, es);
      forall k | 0 <= k < |rs| ensures rs[k] == AdminRow(users, es[ps[k]]) {
        if k < |rs0| {
          assert rs[k] == rs0[k] && ps[k] == ps0[k];
          assert es[ps0[k]] == init[ps0[k]];
        }
      }
    }
  }

  /**
   * `getAllExpenses`: the expenses whose owner has role USER, each with its
   * owner's id and username, in table order; administrators' expenses are
   * left out.
   */
  function GetAllExpenses(db: Database): (r: seq<ExpenseResponse>)
    reads db
    requires db.Valid()
    ensures forall x :: x in r <==>
      exists e :: e in db.expenses && Owner(db.users, e.ownerId).role == USER && x == AdminRow(db.users, e)
    ensures |r| == |KeptPositions(db.users, db.expenses)|
    ensures forall k :: 0 <= k < |r| ==> r[k] == AdminRow(db.users, db.expenses[KeptPositions(db.users, db.expenses)[k]])
  {
    UserRoleRowsFollowPositions(db.users, db.expenses);
    UserRoleRows(db.users, db.expenses)
  }

  /**
   * `getAllIncomes`: every income, in table order, with its owner and the
   * owner's limit amount, or no limit when the owner has none.
   */
  function GetAllIncomes(db: Database): (r: seq<IncomeWithLimit>)
    reads db
    requires db.Valid()
    ensures |r| == |db.incomes|
    ensures forall i :: 0 <= i < |r| ==>
      var x := db.incomes[i];
      && r[i].id == x.id && r[i].amount == x.amount && r[i].source == x.source && r[i].date == x.date
      && r[i].userId == x.ownerId
      && (exists u :: u in db.users && u.id == x.ownerId && u.username == r[i].username)
      && (r[i].monthlyLimit.Some? <==> exists l :: l in db.limits && l.ownerId == x.ownerId)
      && (r[i].monthlyLimit.Some? ==> exists l :: l in db.limits && l.ownerId == x.ownerId && l.amount == r[i].monthlyLimit.value)
  {
    var xs, users, limits := db.incomes, db.users, db.limits;
    seq(|xs|, i requires 0 <= i < |xs| && HasUser(users, xs[i].ownerId) => IncomeRow(users, limits, xs[i]))
  }

  /** One row of `getAllIncomes`. */
  function IncomeRow(users: seq<Account>, limits: seq<Limit>, x: Income): (r: IncomeWithLimit)
    requires HasUser(users, x.ownerId)
    ensures r.id == x.id && r.amount == x.amount && r.source == x.source && r.date == x.date && r.userId == x.ownerId
    ensures exists u :: u in users && u.id == x.ownerId && u.username == r.username
    ensures r.monthlyLimit.Some? <==> exists l :: l in limits && l.ownerId == x.ownerId
    ensures r.monthlyLimit.Some? ==> exists l :: l in limits && l.ownerId == x.ownerId && l.amount == r.monthlyLimit.value
  {
    var u := Owner(users, x.ownerId);
    var limit := match LimitIndex(limits, x.ownerId)
      case None => None
      case Some(k) => assert limits[k] in limits; Some(limits[k].amount);
    IncomeWithLimit(x.id, x.amount, x.source, x.date, u.id, u.username, limit)
  }

  // ---------------------------------------------------------------------
  // Limits

  /**
   * The owners of the limits, in limit-table order, whose spending in the
   * window `first..last` is strictly above their limit amount.
   */
  function Exceeded(users: seq<Account>, es: seq<Expense>, ls: seq<Limit>, first: Date, last: Date): (r: seq<Account>)
    requires forall l :: l in ls ==> HasUser(users, l.ownerId)
    ensures forall u :: u in r ==>
      u in users && exists l :: l in ls && l.ownerId == u.id && WindowSpend(es, u.id, first, last) > l.amount
  {
    if ls == [] then []
    else
      var init, l := ls[..|ls| - 1], ls[|ls| - 1];
      assert forall x :: x in ls <==> x in init || x == l;
      Exceeded(users, es, init, first, last)
      + (if WindowSpend(es, l.ownerId, first, last) > l.amount then [Owner(users, l.ownerId)] else [])
  }

  /**
   * `getUsersExceededLimit`: walks the limit table and collects each owner
   * whose expenses dated within the month window add up to more than the
   * limit. The window's first and last day, which the source reads from the
   * clock, are parameters.
   */
  method GetUsersExceededLimit(db: Database, first: Date, last: Date) returns (over: seq<Account>)
    requires db.Valid()
    ensures over == Exceeded(db.users, db.expenses, db.limits, first, last)
  {
    var limits := db.limits;
    over := [];
    var i := 0;
    while i < |limits|
      invariant 0 <= i <= |limits|
      invariant over == Exceeded(db.users, db.expenses, limits[..i], first, last)
    {
      var limit := limits[i];
      assert limit in db.limits;
      var user := Owner(db.users, limit.ownerId);
      var spent := WindowSpend(db.expenses, user.id, first, last);
      if spent > limit.amount {
        over := over + [user];
      }
      assert limits[..i + 1][..i] == limits[..i];
      i := i + 1;
    }
    assert limits[..i] == limits;
  }

  /** With unique user ids, the owner found for an id is the account holding it. */
  lemma OwnerIsUnique(users: seq<Account>, u: Account)
    requires forall i, j :: 0 <= i < j < |users| ==> users[i].id < users[j].id
    requires u in users
    ensures Owner(users, u.id) == u
  {
    var v := Owner(users, u.id);
    var i :| 0 <= i < |users| && users[i] == u;
    var j :| 0 <= j < |users| && users[j] == v;
  }

  /** A user is reported exactly when one of their limits is strictly exceeded in the window. */
  lemma {:induction false} ExceededIff(users: seq<Account>, es: seq<Expense>, ls: seq<Limit>, first: Date, last: Date, u: Account)
    requires forall i, j :: 0 <= i < j < |users| ==> users[i].id < users[j].id
    requires forall l :: l in ls ==> HasUser(users, l.ownerId)
    requires u in users
    ensures u in Exceeded(users, es, ls, first, last)
        <==> exists l :: l in ls && l.ownerId == u.id && WindowSpend(es, u.id, first, last) > l.amount
  {
    if ls != [] {
      var init, l := ls[..|ls| - 1], ls[|ls| - 1];
      assert forall x :: x in ls <==> x in init || x == l;
      ExceededIff(users, es, init, first, last, u);
      if l.ownerId == u.id {
        OwnerIsUnique(users, u);
      }
    }
  }

  /** Spending exactly the limit does not count as exceeding it. */
  lemma SpendingAtLimitNotReported(users: seq<Account>, es: seq<Expense>, ls: seq<Limit>, first: Date, last: Date, u: Account)
    requires forall i, j :: 0 <= i < j < |users| ==> users[i].id < users[j].id
    requires forall l :: l in ls ==> HasUser(users, l.ownerId)
    requires u in users
    requires forall l :: l in ls && l.ownerId == u.id ==> WindowSpend(es, u.id, first, last) == l.amount
    ensures u !in Exceeded(users, es, ls, first, last)
  {
    ExceededIff(users, es, ls, first, last, u);
  }

  /** Since a user has at most one limit, nobody is reported twice. */
  lemma {:induction false} ExceededNoDuplicates(users: seq<Account>, es: seq<Expense>, ls: seq<Limit>, first: Date, last: Date)
    requires forall l :: l in ls ==> HasUser(users, l.ownerId)
    requires forall i, j :: 0 <= i < j < |ls| ==> ls[i].ownerId != ls[j].ownerId
    ensures Distinct(Exceeded(users, es, ls, first, last))
  {
    if ls != [] {
      var init, l := ls[..|ls| - 1], ls[|ls| - 1];
      assert forall x :: x in ls <==> x in init || x == l;
      ExceededNoDuplicates(users, es, init, first, last);
      var prev := Exceeded(users, es, init, first, last);
      forall v | v in prev ensures v.id != l.ownerId {
        var m :| m in init && m.ownerId == v.id && WindowSpend(es, v.id, first, last) > m.amount;
        var k :| 0 <= k < |init| && init[k] == m;
        assert ls[k] == m && ls[|ls| - 1] == l;
      }
      var r := Exceeded(users, es, ls, first, last);
      if WindowSpend(es, l.ownerId, first, last) > l.amount {
        var w := Owner(users, l.ownerId);
        assert r == prev + [w];
        forall i, j | 0 <= i < j < |r| ensures r[i] != r[j] {
          assert r[i] == prev[i] && prev[i] in prev;
          if j < |prev| {
            assert r[j] == prev[j];
            assert prev[i] != prev[j];
          } else {
            assert r[j] == w && w.id == l.ownerId;
            assert prev[i].id != l.ownerId;
          }
        }
      } else {
        assert r == prev;
      }
    }
  }

  /**
   * `setExpenseLimit`: the user with this id ends with exactly one limit,
   * holding the amount, which is echoed back.
   */
  method SetExpenseLimit(db: Database, userId: nat, amount: int) returns (r: Result<int>)
    requires db.Valid()
    modifies db
    ensures db.Valid()
    ensures r.Err? <==> forall u :: u in old(db.users) ==> u.id != userId
    ensures r.Err? ==> r.error == ResourceNotFound(NoSuchUser) && unchanged(db)
    ensures r.Ok? ==> (r.value == amount
      && exists saved :: UserService.UpsertedLimit(old(db.limits), db.limits, saved, userId, amount))
    ensures db.users == old(db.users) && db.expenses == old(db.expenses) && db.incomes == old(db.incomes)
  {
    var found := UserById(db.users, userId);
    if found.None? {
      return Err(ResourceNotFound(NoSuchUser));
    }
    var saved := UserService.UpsertLimit(db, found.value, amount);
    r := Ok(amount);
  }
}
