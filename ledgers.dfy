/** The wallet's reports, stated over the value view of its categories: a map
    from category name to what the category holds and its kind. */
module Ledgers {
  import opened Common
  import opened Transactions
  import opened Categories

  /** The two ledger failures: the name is absent, or it names a category of
      the other kind (`expectedExpense` is the kind the operation wanted). */
  datatype LedgerError =
    | CategoryNotFound(name: string)
    | InvalidCategoryType(name: string, expectedExpense: bool)

  /** Budget and remaining budget, shown only for a budget that was set. */
  datatype BudgetLine = BudgetLine(budget: int, remaining: int)

  /** What an expense report says about one category. */
  datatype ExpenseReport = ExpenseReport(spent: int, budget: Option<BudgetLine>)

  type Ledger = map<string, CategoryState>

  /** What a category adds to the total of the kind asked for: its amount
      when it is of that kind, nothing otherwise. */
  function Contribution(s: CategoryState, expense: bool): int
  {
    if s.kind.Expense? == expense then s.amount else 0
  }

  /** Sum of the amounts of all categories of one kind (expense or income),
      taken in no particular order. */
  ghost function SumKind(m: Ledger, expense: bool): int
    decreases |m|
  {
    if m == map[] then 0
    else
      var k :| k in m;
      Contribution(m[k], expense) + SumKind(m - {k}, expense)
  }

  /** The sum may be split at any category, whichever one the definition picked. */
  lemma {:induction false} SumKindRemove(m: Ledger, k: string, expense: bool)
    requires k in m
    ensures SumKind(m, expense) == Contribution(m[k], expense) + SumKind(m - {k}, expense)
    decreases |m|
  {
    var j :| j in m && SumKind(m, expense) == Contribution(m[j], expense) + SumKind(m - {j}, expense);
    if j != k {
      SumKindRemove(m - {j}, k, expense);
      SumKindRemove(m - {k}, j, expense);
      assert m - {j} - {k} == m - {k} - {j};
    }
  }

  /** Replacing or adding one category changes the sum by the difference of
      that category's contributions and nothing else. */
  lemma SumKindUpdate(m: Ledger, k: string, s: CategoryState, expense: bool)
    ensures SumKind(m[k := s], expense)
         == SumKind(m, expense) - (if k in m then Contribution(m[k], expense) else 0) + Contribution(s, expense)
  {
    SumKindRemove(m[k := s], k, expense);
    assert m[k := s] - {k} == m - {k};
    if k in m {
      SumKindRemove(m, k, expense);
    } else {
      assert m - {k} == m;
    }
  }

  /** The wallet balance equals total income minus total expenses. */
  ghost predicate Balanced(m: Ledger, balance: int)
  {
    balance == SumKind(m, false) - SumKind(m, true)
  }

  /** The ledger after `amount` is added to the existing category `name`. */
  function Post(m: Ledger, name: string, amount: int): (r: Ledger)
    requires name in m
    ensures r.Keys == m.Keys
    ensures r[name].amount == m[name].amount + amount && r[name].kind == m[name].kind
    ensures forall n | n in m && n != name :: r[n] == m[n]
  {
    m[name := m[name].(amount := m[name].amount + amount)]
  }

  /** A posting whose declared kind matches its category's kind keeps the
      balance equal to income minus expenses. */
  lemma {:induction false} MatchingPostKeepsBalance(m: Ledger, balance: int, name: string, amount: int, isExpense: bool)
    requires Balanced(m, balance)
    requires name in m && m[name].kind.Expense? == isExpense
    ensures Balanced(Post(m, name, amount), if isExpense then balance - amount else balance + amount)
  {
    SumKindUpdate(m, name, Post(m, name, amount)[name], false);
    SumKindUpdate(m, name, Post(m, name, amount)[name], true);
  }

  /** A posting whose declared kind differs from its category's kind breaks
      that equality for every non-zero amount: the balance moves one way while
      the category's total moves the other. */
  lemma {:induction false} MismatchedPostBreaksBalance(m: Ledger, balance: int, name: string, amount: int, isExpense: bool)
    requires Balanced(m, balance)
    requires name in m && m[name].kind.Expense? != isExpense
    requires amount != 0
    ensures !Balanced(Post(m, name, amount), if isExpense then balance - amount else balance + amount)
  {
    SumKindUpdate(m, name, Post(m, name, amount)[name], false);
    SumKindUpdate(m, name, Post(m, name, amount)[name], true);
  }

  /** Adding a new category with nothing posted to it, or changing the kind
      data of a category without changing its amount or its kind tag, keeps
      both totals and so the balance equality. */
  lemma {:induction false} ReplaceKeepsBalance(m: Ledger, balance: int, name: string, s: CategoryState)
    requires Balanced(m, balance)
    requires name !in m ==> s.amount == 0
    requires name in m ==> s.amount == m[name].amount && s.kind.Expense? == m[name].kind.Expense?
    ensures Balanced(m[name := s], balance)
  {
    SumKindUpdate(m, name, s, false);
    SumKindUpdate(m, name, s, true);
  }

  /** Every category holds exactly what the log has posted under its name,
      and every logged transaction names a category. */
  ghost predicate Accounted(m: Ledger, log: seq<Transaction>)
  {
    && (forall i | 0 <= i < |log| :: log[i].name in m)
    && (forall n | n in m :: m[n].amount == NamedSum(log, n))
  }

  /** Posting to an existing category and logging the transaction keeps every
      category equal to what the log has posted under its name. */
  lemma {:induction false} PostKeepsAccounted(m: Ledger, log: seq<Transaction>, t: Transaction)
    requires Accounted(m, log) && t.name in m
    ensures Accounted(Post(m, t.name, t.amount), log + [t])
  {
    var r, log' := Post(m, t.name, t.amount), log + [t];
    forall i | 0 <= i < |log'|
      ensures log'[i].name in r
    {
      if i < |log| {
        assert log'[i] == log[i];
      }
    }
    forall n | n in r
      ensures r[n].amount == NamedSum(log', n)
    {
      NamedSumAppend(log, t, n);
    }
  }

  /** Filing a new category that holds nothing, or changing a category
      without changing its amount, keeps the ledger accounted for. Filing over
      an existing name with a different amount would not. */
  lemma {:induction false} ReplaceKeepsAccounted(m: Ledger, log: seq<Transaction>, name: string, s: CategoryState)
    requires Accounted(m, log)
    requires name !in m ==> s.amount == 0
    requires name in m ==> s.amount == m[name].amount
    ensures Accounted(m[name := s], log)
  {
    if name !in m {
      NamedSumAbsent(log, name);
    }
  }

  /** The income report for one category: absence is reported before a
      wrong kind. */
  function IncomeOf(m: Ledger, name: string): (r: Result<int, LedgerError>)
    ensures r == Err(CategoryNotFound(name)) <==> name !in m
    ensures r == Err(InvalidCategoryType(name, false)) <==> name in m && m[name].kind.Expense?
    ensures r.Ok? <==> name in m && m[name].kind.Income?
    ensures r.Ok? ==> r.value == m[name].amount
  {
    if name !in m then Err(CategoryNotFound(name))
    else if !m[name].kind.Income? then Err(InvalidCategoryType(name, false))
    else Ok(m[name].amount)
  }

  /** The expense report line of one expense category: what was spent, and
      the budget with what remains of it only when a budget was set. */
  function ExpenseLine(s: CategoryState): (r: ExpenseReport)
    requires s.kind.Expense?
    ensures r.spent == s.amount
    ensures r.budget.Some? <==> s.kind.budget > 0
    ensures r.budget.Some? ==>
              r.budget.value.budget == s.kind.budget && r.budget.value.remaining == s.kind.budget - s.amount
  {
    ExpenseReport(s.amount,
      if s.kind.budget > 0 then Some(BudgetLine(s.kind.budget, s.kind.budget - s.amount)) else None)
  }

  /** The expense report for one category: absence is reported before a
      wrong kind. */
  function ExpenseOf(m: Ledger, name: string): (r: Result<ExpenseReport, LedgerError>)
    ensures r == Err(CategoryNotFound(name)) <==> name !in m
    ensures r == Err(InvalidCategoryType(name, true)) <==> name in m && m[name].kind.Income?
    ensures r.Ok? <==> name in m && m[name].kind.Expense?
    ensures r.Ok? ==> r.value == ExpenseLine(m[name])
  {
    if name !in m then Err(CategoryNotFound(name))
    else if !m[name].kind.Expense? then Err(InvalidCategoryType(name, true))
    else Ok(ExpenseLine(m[name]))
  }

  /** The grouped income report: one line per income category, each agreeing
      with the single-category report. */
  function IncomeLines(m: Ledger): (r: map<string, int>)
    ensures forall n :: n in r <==> IncomeOf(m, n).Ok?
    ensures forall n | n in r :: IncomeOf(m, n) == Ok(r[n])
  {
    map n | n in m && m[n].kind.Income? :: m[n].amount
  }

  /** The grouped expense report: one line per expense category, each agreeing
      with the single-category report. */
  function ExpenseLines(m: Ledger): (r: map<string, ExpenseReport>)
    ensures forall n :: n in r <==> ExpenseOf(m, n).Ok?
    ensures forall n | n in r :: ExpenseOf(m, n) == Ok(r[n])
  {
    map n | n in m && m[n].kind.Expense? :: ExpenseLine(m[n])
  }
}
