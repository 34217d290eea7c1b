/**
 * `ExpenseServiceImpl`: a user's own expenses. Every operation first looks
 * the caller up by username. Reading, updating or deleting an expense needs
 * the expense to exist and to belong to the caller; a missing expense and
 * someone else's expense raise the same error.
 */
module ExpenseService {
  import opened Domain
  import opened Store

  /** `mapToResponse`: copies the expense's own fields and leaves the owner fields unset. */
  function MapToResponse(e: Expense): (r: ExpenseResponse)
    ensures r.id == e.id && r.amount == e.amount && r.category == e.category
    ensures r.date == e.date && r.description == e.description
    ensures r.userId.None? && r.username.None?
  {
    ExpenseResponse(e.id, e.description, e.amount, e.date, e.category, None, None)
  }

  /** `findById(id).filter(e -> owner is the caller)`: the position of the caller's expense `id`. */
  function OwnedExpenseIndex(es: seq<Expense>, owner: nat, id: nat): (r: Option<nat>)
    requires ExpenseIdsAscend(es)
    ensures r.Some? ==> r.value < |es| && es[r.value].id == id && es[r.value].ownerId == owner
    ensures r.None? <==> forall e :: e in es && e.id == id ==> e.ownerId != owner
  {
    match ExpenseIndex(es, id)
    case None => None
    case Some(i) =>
      assert forall j :: 0 <= j < |es| && es[j].id == id ==> j == i;
      if es[i].ownerId == owner then Some(i) else None
  }

  /** `getUserExpenses`: one response per row `findByUserId` returns, in that order. */
  function GetUserExpenses(db: Database, username: string): (r: Result<seq<ExpenseResponse>>)
    reads db
    ensures r.Err? <==> UserByName(db.users, username).None?
    ensures r.Err? ==> r.error == ResourceNotFound(NoSuchUser)
    ensures r.Ok? ==> forall x :: x in r.value <==>
      exists e :: e in db.expenses && e.ownerId == UserByName(db.users, username).value.id && x == MapToResponse(e)
    ensures r.Ok? ==> |r.value| == |ExpensesOf(db.expenses, UserByName(db.users, username).value.id)|
    ensures r.Ok? ==> forall i :: 0 <= i < |r.value| ==>
      r.value[i] == MapToResponse(ExpensesOf(db.expenses, UserByName(db.users, username).value.id)[i])
  {
    match FindUserOrNotFound(db.users, username)
    case Err(e) => Err(e)
    case Ok(user) =>
      var mine := ExpensesOf(db.expenses, user.id);
      var rs := seq(|mine|, i requires 0 <= i < |mine| => MapToResponse(mine[i]));
      assert forall x :: x in rs <==> exists e :: e in mine && x == MapToResponse(e) by {
        forall x | x in rs ensures exists e :: e in mine && x == MapToResponse(e) {
          var i :| 0 <= i < |rs| && rs[i] == x;
          assert mine[i] in mine;
        }
        forall x | (exists e :: e in mine && x == MapToResponse(e)) ensures x in rs {
          var e :| e in mine && x == MapToResponse(e);
          var i :| 0 <= i < |mine| && mine[i] == e;
          assert rs[i] == x;
        }
      }
      Ok(rs)
  }

  /** `getExpenseById`: found only when the expense exists and belongs to the caller. */
  function GetExpenseById(db: Database, username: string, id: nat): (r: Result<ExpenseResponse>)
    reads db
    requires db.Valid()
    ensures UserByName(db.users, username).None? ==> r == Err(ResourceNotFound(NoSuchUser))
    ensures UserByName(db.users, username).Some? ==>
      (r.Ok? <==> exists e :: e in db.expenses && e.id == id && e.ownerId == UserByName(db.users, username).value.id)
    ensures UserByName(db.users, username).Some? && r.Err? ==> r.error == ResourceNotFound(NoSuchExpenseOrNotOwner)
    ensures r.Ok? ==> exists e :: e in db.expenses && e.id == id && r.value == MapToResponse(e)
  {
    match FindUserOrNotFound(db.users, username)
    case Err(e) => Err(e)
    case Ok(user) =>
      match OwnedExpenseIndex(db.expenses, user.id, id)
      case None => Err(ResourceNotFound(NoSuchExpenseOrNotOwner))
      case Some(i) => Ok(MapToResponse(db.expenses[i]))
  }

  /** `addExpense`: stores a new expense owned by the caller with the request's four fields. */
  method AddExpense(db: Database, username: string, req: ExpenseRequest) returns (r: Result<ExpenseResponse>)
    requires db.Valid()
    modifies db
    ensures db.Valid()
    ensures r.Err? <==> UserByName(old(db.users), username).None?
    ensures r.Err? ==> r.error == ResourceNotFound(NoSuchUser) && unchanged(db)
    ensures r.Ok? ==>
      var saved := Expense(old(db.nextExpenseId), UserByName(old(db.users), username).value.id,
                           req.amount, req.category, req.date, req.description);
      && db.expenses == old(db.expenses) + [saved]
      && r.value == MapToResponse(saved)
    ensures db.users == old(db.users) && db.incomes == old(db.incomes) && db.limits == old(db.limits)
  {
    var found := FindUserOrNotFound(db.users, username);
    if found.Err? {
      return Err(found.error);
    }
    var saved := db.SaveNewExpense(found.value, req);
    r := Ok(MapToResponse(saved));
  }

  /**
   * `updateExpense`: overwrites amount, category, date and description of the
   * caller's expense; its id and owner stay, and no other row changes.
   */
  method UpdateExpense(db: Database, username: string, id: nat, req: ExpenseRequest) returns (r: Result<ExpenseResponse>)
    requires db.Valid()
    modifies db
    ensures db.Valid()
    ensures UserByName(old(db.users), username).None? ==> r == Err(ResourceNotFound(NoSuchUser))
    ensures r.Ok? <==> UserByName(old(db.users), username).Some?
                       && exists e :: e in old(db.expenses) && e.id == id && e.ownerId == UserByName(old(db.users), username).value.id
    ensures r.Err? ==> unchanged(db)
    ensures UserByName(old(db.users), username).Some? && r.Err? ==> r.error == ResourceNotFound(NoSuchExpenseOrNotOwner)
    ensures r.Ok? ==>
      var updated := Expense(id, UserByName(old(db.users), username).value.id, req.amount, req.category, req.date, req.description);
      && r.value == MapToResponse(updated)
      && exists i :: 0 <= i < |old(db.expenses)| && old(db.expenses)[i].id == id && db.expenses == old(db.expenses)[i := updated]
    ensures db.users == old(db.users) && db.incomes == old(db.incomes) && db.limits == old(db.limits)
  {
    var found := FindUserOrNotFound(db.users, username);
    if found.Err? {
      return Err(found.error);
    }
    var user := found.value;
    var idx := OwnedExpenseIndex(db.expenses, user.id, id);
    if idx.None? {
      return Err(ResourceNotFound(NoSuchExpenseOrNotOwner));
    }
    var i := idx.value;
    var e := db.expenses[i];
    var updated := e.(amount := req.amount, category := req.category, date := req.date, description := req.description);
    db.SaveExpense(i, updated);
    r := Ok(MapToResponse(updated));
  }

  /** `deleteExpense`: removes the caller's expense `id`; every other expense remains. */
  method DeleteExpense(db: Database, username: string, id: nat) returns (r: Result<()>)
    requires db.Valid()
    modifies db
    ensures db.Valid()
    ensures UserByName(old(db.users), username).None? ==> r == Err(ResourceNotFound(NoSuchUser))
    ensures r.Ok? <==> UserByName(old(db.users), username).Some?
                       && exists e :: e in old(db.expenses) && e.id == id && e.ownerId == UserByName(old(db.users), username).value.id
    ensures r.Err? ==> unchanged(db)
    ensures UserByName(old(db.users), username).Some? && r.Err? ==> r.error == ResourceNotFound(NoSuchExpenseOrNotOwner)
    ensures r.Ok? ==> forall e :: e in db.expenses <==> e in old(db.expenses) && e.id != id
    ensures r.Ok? ==> |db.expenses| == |old(db.expenses)| - 1
    ensures db.users == old(db.users) && db.incomes == old(db.incomes) && db.limits == old(db.limits)
  {
    var found := FindUserOrNotFound(db.users, username);
    if found.Err? {
      return Err(found.error);
    }
    var idx := OwnedExpenseIndex(db.expenses, found.value.id, id);
    if idx.None? {
      return Err(ResourceNotFound(NoSuchExpenseOrNotOwner));
    }
    ghost var before := db.expenses;
    db.DeleteExpense(idx.value);
    RemovedRow(before, idx.value);
    r := Ok(());
  }

  /** Removing the row at `i` removes exactly the rows with its id, ids being unique. */
  lemma RemovedRow(es: seq<Expense>, i: nat)
    requires ExpenseIdsAscend(es) && i < |es|
    ensures forall e :: e in es[..i] + es[i + 1..] <==> e in es && e.id != es[i].id
  {
    var rest := es[..i] + es[i + 1..];
    forall k | 0 <= k < |rest| ensures rest[k] == es[if k < i then k else k + 1] {
    }
    forall e | e in rest ensures e in es && e.id != es[i].id {
      var k :| 0 <= k < |rest| && rest[k] == e;
      var k' := if k < i then k else k + 1;
      assert e == es[k'];
      if k' < i {
        assert es[k'].id < es[i].id;
      } else {
        assert es[i].id < es[k'].id;
      }
    }
    forall e | e in es && e.id != es[i].id ensures e in rest {
      var k :| 0 <= k < |es| && es[k] == e;
      if k < i {
        assert rest[k] == es[k];
      } else {
        assert k > i;
        assert rest[k - 1] == es[k];
      }
    }
  }

}
