/** Categories: named buckets that accumulate the amounts posted to them. */
module Categories {

  /** The two kinds of category. Only an expense category has a budget; a
      budget of 0 means that none has been set. */
  datatype Kind = Income | Expense(budget: int)

  /** The value of a category at one moment: what it holds and its kind. */
  datatype CategoryState = CategoryState(amount: int, kind: Kind)

  /** A category of a wallet. The name is its key and never changes; the kind
      (income or expense) never changes either, only an expense budget does. */
  class Category {
    const name: string
    var currentAmount: int
    var kind: Kind

    /** An income category with nothing posted to it yet. */
    constructor IncomeCategory(name: string)
      ensures this.name == name && currentAmount == 0 && kind == Income
    {
      this.name := name;
      currentAmount := 0;
      kind := Income;
    }

    /** An expense category with the given budget and nothing spent yet. */
    constructor ExpenseCategory(name: string, budget: int)
      ensures this.name == name && currentAmount == 0 && kind == Expense(budget)
    {
      this.name := name;
      currentAmount := 0;
      kind := Expense(budget);
    }

    /** The value view of this category. */
    function State(): CategoryState
      reads this
    {
      CategoryState(currentAmount, kind)
    }

    /** How much of the budget is left; negative once spending exceeds it. */
    function RemainingBudget(): (r: int)
      reads this
      requires kind.Expense?
      ensures r < 0 <==> currentAmount > kind.budget
      ensures r + currentAmount == kind.budget
    {
      kind.budget - currentAmount
    }

    /** Adds `a` to what the category holds; no sign check is made here. */
    method AddAmount(a: int)
      modifies this
      ensures currentAmount == old(currentAmount) + a
      ensures kind == old(kind)
      ensures a >= 0 ==> currentAmount >= old(currentAmount)
      ensures kind.Expense? ==> RemainingBudget() == old(RemainingBudget()) - a
    {
      currentAmount := currentAmount + a;
    }

    /** Replaces the budget of an expense category, whatever has been spent. */
    method SetBudget(budget: int)
      requires kind.Expense?
      modifies this
      ensures kind == Expense(budget)
      ensures currentAmount == old(currentAmount)
      ensures RemainingBudget() == budget - currentAmount
    {
      kind := Expense(budget);
    }
  }
}
