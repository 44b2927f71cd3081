/** The wallet: the categories of one user, the log of postings and the
    running balance. */
module Wallets {
  import opened Common
  import opened Transactions
  import opened Categories
  import opened Ledgers

  class Wallet {
    var transactions: seq<Transaction>
    var categories: map<string, Category>
    var totalBalance: int

    /** Every category is filed under its own name, and the balance is the
        signed sum of the log. */
    ghost predicate Valid()
      reads this
    {
      && (forall n | n in categories :: categories[n].name == n)
      && totalBalance == SignedSum(transactions)
    }

    /** The value view of the categories. */
    ghost function Snapshot(): Ledger
      reads this, categories.Values
    {
      map n | n in categories :: categories[n].State()
    }

    /** The balance equals total income minus total expenses. */
    ghost predicate Balanced()
      reads this, categories.Values
    {
      Ledgers.Balanced(Snapshot(), totalBalance)
    }

    /** Every category holds what the log has posted under its name, and every
        logged transaction names a category. */
    ghost predicate Accounted()
      reads this, categories.Values
    {
      Ledgers.Accounted(Snapshot(), transactions)
    }

    /** An empty wallet: no postings, no categories, balance 0. */
    constructor ()
      ensures Valid() && Balanced() && Accounted()
      ensures transactions == [] && categories == map[] && totalBalance == 0
    {
      transactions := [];
      categories := map[];
      totalBalance := 0;
    }

    /** Posts `t` to the category named by it. An absent name fails before
        anything changes; otherwise the category grows by the amount whatever
        its kind, the balance moves by the transaction's declared kind, and the
        transaction is appended to the log. */
    method AddTransaction(t: Transaction) returns (out: Outcome<LedgerError>)
      requires Valid()
      modifies this, categories.Values
      ensures Valid()
      ensures categories == old(categories)
      ensures t.name !in categories ==>
                out == Fail(CategoryNotFound(t.name)) && unchanged(this) && unchanged(categories.Values)
      ensures t.name in categories ==>
                && out == Pass
                && transactions == old(transactions) + [t]
                && totalBalance == old(totalBalance) + Signed(t)
                && Snapshot() == Post(old(Snapshot()), t.name, t.amount)
    {
      if t.name !in categories {
        return Fail(CategoryNotFound(t.name));
      }
      var category := categories[t.name];
      category.AddAmount(t.amount);
      if t.isExpense {
        totalBalance := totalBalance - t.amount;
      } else {
        totalBalance := totalBalance + t.amount;
      }
      SignedSumAppend(transactions, t);
      transactions := transactions + [t];
      out := Pass;
    }

    /** Files `c` under its name, replacing any category of that name. */
    method AddCategory(c: Category)
      requires Valid()
      modifies this
      ensures Valid()
      ensures categories == old(categories)[c.name := c]
      ensures transactions == old(transactions) && totalBalance == old(totalBalance)
      ensures Snapshot() == old(Snapshot())[c.name := c.State()]
    {
      categories := categories[c.name := c];
    }

    /** The category of the given name, or CategoryNotFound when there is none. */
    function GetCategoryByName(name: string): (r: Result<Category, LedgerError>)
      reads this
      requires Valid()
      ensures r.Ok? <==> name in categories
      ensures r.Ok? ==> r.value == categories[name] && r.value.name == name
      ensures r.Err? ==> r.error == CategoryNotFound(name)
    {
      if name in categories then Ok(categories[name]) else Err(CategoryNotFound(name))
    }

    /** Sum of the amounts of the categories of one kind, one category at a time. */
    method SumOfKind(expense: bool) returns (total: int)
      ensures total == SumKind(Snapshot(), expense)
    {
      ghost var snap := Snapshot();
      total := 0;
      var todo := categories.Keys;
      while todo != {}
        invariant todo <= categories.Keys
        invariant total == SumKind(snap - todo, expense)
        decreases todo
      {
        var n :| n in todo;
        var category := categories[n];
        if category.kind.Expense? == expense {
          total := total + category.currentAmount;
        }
        SumKindUpdate(snap - todo, n, snap[n], expense);
        assert (snap - todo)[n := snap[n]] == snap - (todo - {n});
        todo := todo - {n};
      }
      assert snap - todo == snap;
    }

    /** Total income: the amounts of the income categories only. */
    method TotalIncome() returns (total: int)
      ensures total == SumKind(Snapshot(), false)
    {
      total := SumOfKind(false);
    }

    /** Total expenses: the amounts of the expense categories only. */
    method TotalExpenses() returns (total: int)
      ensures total == SumKind(Snapshot(), true)
    {
      total := SumOfKind(true);
    }

    /** Income of one category; an absent name is reported before a category
        of the wrong kind. */
    function IncomeByCategory(name: string): (r: Result<int, LedgerError>)
      reads this, categories.Values
      ensures r == IncomeOf(Snapshot(), name)
    {
      if name !in categories then Err(CategoryNotFound(name))
      else if !categories[name].kind.Income? then Err(InvalidCategoryType(name, false))
      else Ok(categories[name].currentAmount)
    }

    /** Expenses of one category; an absent name is reported before a
        category of the wrong kind. */
    function ExpenseByCategory(name: string): (r: Result<ExpenseReport, LedgerError>)
      reads this, categories.Values
      ensures r == ExpenseOf(Snapshot(), name)
    {
      if name !in categories then Err(CategoryNotFound(name))
      else if !categories[name].kind.Expense? then Err(InvalidCategoryType(name, true))
      else Ok(ExpenseLine(categories[name].State()))
    }

    /** The grouped income report, built one category at a time. */
    method IncomeByCategories() returns (lines: map<string, int>)
      ensures lines == IncomeLines(Snapshot())
    {
      ghost var snap := Snapshot();
      lines := map[];
      var todo := categories.Keys;
      while todo != {}
        invariant todo <= categories.Keys
        invariant lines == IncomeLines(snap - todo)
        decreases todo
      {
        var n :| n in todo;
        var category := categories[n];
        if category.kind.Income? {
          lines := lines[n := category.currentAmount];
        }
        todo := todo - {n};
      }
      assert snap - todo == snap;
    }

    /** The grouped expense report, built one category at a time. */
    method ExpensesByCategories() returns (lines: map<string, ExpenseReport>)
      ensures lines == ExpenseLines(Snapshot())
    {
      ghost var snap := Snapshot();
      lines := map[];
      var todo := categories.Keys;
      while todo != {}
        invariant todo <= categories.Keys
        invariant lines == ExpenseLines(snap - todo)
        decreases todo
      {
        var n :| n in todo;
        var category := categories[n];
        if category.kind.Expense? {
          lines := lines[n := ExpenseLine(category.State())];
        }
        todo := todo - {n};
      }
      assert snap - todo == snap;
    }
  }
}
