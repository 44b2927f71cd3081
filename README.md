# Finances: a verified model of the wallet ledger and its posting policy

This project models the core of a small console personal-finance manager
written in Java.

Each **user** owns a **wallet**. A wallet holds three things:

- a map from names to **categories**: income categories, and expense
  categories that carry a budget;
- an append-only log of **transactions**;
- a running total balance.

Posting a transaction adds its amount to the category it names. An expense
lowers the balance and an income raises it. The **finance manager** sits on
top of the wallets. It keeps the registered users and the logged-in user, and
applies the rules of the console commands:

- a missing category is created with the transaction's kind before posting;
- a transaction whose kind differs from its category's is rejected;
- setting a budget on an income category is refused, and on a missing name it
  creates a new expense category;
- after an expense, an exceeded budget raises a notification, and so does a
  negative balance;
- each user has a one-slot pending notification. Reading it is destructive: it
  moves the notification into an append-only history.

The model is written in the source's own form. `Category`, `Wallet`, `User`
and `FinanceManager` are classes whose methods update their fields in place.
A transaction is an immutable datatype. Each wallet method is proved against
a value view of the wallet, `Wallet.Snapshot()`, which maps each category name
to its amount and kind. Module `Ledgers` defines the reports over that view:
the totals by kind, the single-category reports and the grouped reports.

Three wallet invariants are proved:

- `Wallet.Valid()`: every category is filed under its own name, and the
  balance is the signed sum of the log.
- `Wallet.Balanced()`: the balance equals total income minus total expenses.
  The wallet alone does not keep this. It holds because of the manager's rules:
  the kind-mismatch guard, and categories created with nothing posted to them.
  `Ledgers.MismatchedPostBreaksBalance` shows that without the guard it fails.
- `Wallet.Accounted()`: every category holds exactly the total of the logged
  transactions posted under its name, and every logged transaction names a
  category. The wallet alone does not keep this either, since `addCategory`
  overwrites. It holds because the manager creates a category only when the
  name is absent and with nothing in it, and never logs a rejected
  transaction. The posting and budget rules are proved to keep it.

`FinanceManager.Valid()` adds the following:

- users are filed under their names;
- the logged-in user is registered;
- every wallet is valid and balanced;
- no two users share a wallet or a category object.

Files:

- `common.dfy`: `Option`, `Result`, `Outcome`.
- `transactions.dfy`: transactions, the signed sum of a log and the logged total per name.
- `categories.dfy`: the category class and its two constructors.
- `ledgers.dfy`: the value view and the report functions, with the sum lemmas.
- `wallet.dfy`: the wallet class.
- `user.dfy`: the user class.
- `finance.dfy`: the posting and budget policies and the manager class.

## Model

| member | source | states |
|---|---|---|
| Transactions.SignedSumAppend | src/main/java/model/Wallet.java:46-52 | Appending a transaction to the log moves its signed sum by exactly the transaction's signed amount (minus for an expense, plus for an income), so a balance updated this way stays equal to the signed sum of the log |
| Categories.Category.IncomeCategory | src/main/java/model/Category.java:9-12 | A new income category has the given name, holds 0, and is of kind Income |
| Categories.Category.ExpenseCategory | src/main/java/model/ExpenseCategory.java:6-9 | A new expense category has the given name, holds 0, and stores the given budget |
| Categories.Category.AddAmount | src/main/java/model/Category.java:22-24 | The amount becomes old + a, whatever the kind, and the kind and the name stay the same; a non-negative a never lowers the amount; on an expense category the remaining budget drops by exactly a |
| Categories.Category.SetBudget | src/main/java/model/ExpenseCategory.java:11-13 | The budget is replaced unconditionally, the amount spent is kept, and the remaining budget becomes the new budget minus the amount spent |
| Categories.Category.RemainingBudget | src/main/java/model/ExpenseCategory.java:19-21 | Remaining plus spent equals the budget, and the remaining budget is negative exactly when spending exceeds the budget |
| Transactions.NamedSumAppend | src/main/java/model/Wallet.java:44-52 | Appending a transaction adds its amount to the logged total of its own name and leaves the logged totals of all other names unchanged |
| Transactions.NamedSumAbsent | src/main/java/model/Wallet.java:36-53 | A name that no logged transaction carries has logged total 0 |
| Ledgers.PostKeepsAccounted | src/main/java/model/Wallet.java:36-53 | Posting to an existing category and logging the transaction keeps every category equal to the logged total of its name, and every logged name filed |
| Ledgers.ReplaceKeepsAccounted | src/main/java/model/Wallet.java:55-57 | Filing a new category that holds nothing, or changing a category without changing its amount, keeps every category equal to the logged total of its name |
| Ledgers.SumKindUpdate | src/main/java/model/Wallet.java:71-89 | Replacing or adding one category changes the total of a kind by removing the old category's contribution and adding the new one's; nothing else moves the total |
| Ledgers.MatchingPostKeepsBalance | src/main/java/model/Wallet.java:36-53 | Posting to a category whose kind matches the transaction's keeps the balance equal to total income minus total expenses |
| Ledgers.MismatchedPostBreaksBalance | src/main/java/model/Wallet.java:44-50 | Posting a non-zero amount to a category of the other kind breaks that equality: the balance and the category's total move in opposite directions |
| Ledgers.ReplaceKeepsBalance | src/main/java/model/Wallet.java:55-57 | Filing a new category that holds nothing, or changing a category's budget without changing its amount or kind, keeps the balance equal to income minus expenses |
| Ledgers.Post | src/main/java/model/Wallet.java:44 | After posting to an existing category, the set of names is the same, the named category holds its old amount plus the posted amount with its kind unchanged, and every other category is unchanged |
| Ledgers.IncomeOf | src/main/java/model/Wallet.java:104-116 | An absent name fails with CategoryNotFound. An expense category fails with InvalidCategoryType. An income category yields its amount. Each case holds if and only if its condition holds, so absence is checked before kind |
| Ledgers.ExpenseLine | src/main/java/model/Wallet.java:149-159 | The report shows what was spent. Budget and remaining appear if and only if the budget is positive, and then they are the budget and budget minus spent |
| Ledgers.ExpenseOf | src/main/java/model/Wallet.java:138-160 | An absent name fails with CategoryNotFound. An income category fails with InvalidCategoryType. An expense category yields its report line. Each case holds if and only if its condition holds |
| Ledgers.IncomeLines | src/main/java/model/Wallet.java:91-102 | The grouped income report has a line exactly for each name whose single-category income report succeeds, and each line agrees with that report |
| Ledgers.ExpenseLines | src/main/java/model/Wallet.java:118-136 | The grouped expense report has a line exactly for each name whose single-category expense report succeeds, and each line agrees with that report |
| Wallets.Wallet.constructor | src/main/java/model/Wallet.java:14-18 | A new wallet has no transactions, no categories and balance 0, and is valid, balanced and accounted for |
| Wallets.Wallet.AddTransaction | src/main/java/model/Wallet.java:36-53 | An absent name fails with CategoryNotFound and changes nothing. Otherwise: the log gains the transaction at its end; the balance moves by its signed amount; the value view becomes the posting of the amount to that category, whatever its kind; the category map is the same; validity, including balance equal to the signed sum of the log, is kept |
| Wallets.Wallet.AddCategory | src/main/java/model/Wallet.java:55-57 | The category is filed under its name and replaces any previous one of that name. Other names, the log and the balance are unchanged |
| Wallets.Wallet.GetCategoryByName | src/main/java/model/Wallet.java:59-65 | Succeeds if and only if the name is present, and then returns the category filed under it, which carries that name; otherwise fails with CategoryNotFound for that name |
| Wallets.Wallet.SumOfKind | src/main/java/model/Wallet.java:71-89 | The loop over the categories returns the sum of the amounts of the categories of the kind asked for |
| Wallets.Wallet.TotalIncome | src/main/java/model/Wallet.java:71-79 | Total income is the sum of the amounts of the income categories only |
| Wallets.Wallet.TotalExpenses | src/main/java/model/Wallet.java:81-89 | Total expenses is the sum of the amounts of the expense categories only |
| Wallets.Wallet.IncomeByCategory | src/main/java/model/Wallet.java:104-116 | Agrees with the single-category income report on the wallet's value view |
| Wallets.Wallet.ExpenseByCategory | src/main/java/model/Wallet.java:138-160 | Agrees with the single-category expense report on the wallet's value view |
| Wallets.Wallet.IncomeByCategories | src/main/java/model/Wallet.java:91-102 | The loop over the categories builds exactly the grouped income report of the value view |
| Wallets.Wallet.ExpensesByCategories | src/main/java/model/Wallet.java:118-136 | The loop over the categories builds exactly the grouped expense report of the value view |
| Users.User.constructor | src/main/java/model/User.java:14-20 | A new user has the given credentials, a fresh empty wallet that is valid, balanced and accounted for, an empty history and nothing pending |
| Users.User.Authenticate | src/main/java/model/User.java:26-28 | True if and only if the given password equals the stored one |
| Users.User.AddNotification | src/main/java/model/User.java:34-36 | The pending slot holds the new notification, and any earlier pending one is lost. The history is unchanged |
| Users.User.GetLastNotification | src/main/java/model/User.java:42-49 | Returns what was pending and clears the slot. The history gains that notification at its end when one was pending, and is unchanged otherwise |
| Finance.KindFor | src/main/java/service/FinanceManager.java:394-395 | A category created for a transaction has the transaction's kind, and an expense category created this way has budget 0 |
| Finance.PostPolicy | src/main/java/service/FinanceManager.java:376-405 | A kind mismatch happens if and only if the name is present with the other kind, and then nothing changes. Otherwise the name is present afterwards, holding its old amount (0 when it was created) plus the amount. Its kind is the old kind, or the transaction's kind when created. Every other category is unchanged |
| Finance.PostPolicyKeepsBalance | src/main/java/service/FinanceManager.java:376-405 | Under the posting rules, the balance stays equal to total income minus total expenses, whether the transaction is rejected, posted or posted to a new category |
| Finance.PostPolicyKeepsAccounted | src/main/java/service/FinanceManager.java:376-405 | Under the posting rules every category keeps holding the logged total of its name: a rejected transaction is not logged, and a category created for a transaction starts at 0 because no logged transaction names it |
| Finance.BudgetPolicy | src/main/java/service/FinanceManager.java:241-253 | A missing name becomes an expense category with that budget and nothing spent. An income category refuses the budget and nothing changes. An expense category gets the new budget and keeps what it has spent |
| Finance.BudgetPolicyKeepsBalance | src/main/java/service/FinanceManager.java:241-253 | Setting a budget changes neither total, so the balance equality survives it |
| Finance.BudgetPolicyKeepsAccounted | src/main/java/service/FinanceManager.java:241-253 | Setting a budget changes no amount and creates categories empty, so every category still holds the logged total of its name |
| Finance.PostToWallet | src/main/java/service/FinanceManager.java:376-405 | The handler's posting rules change the wallet exactly as the posting policy says. On a mismatch the log and the balance stay the same; otherwise they gain the transaction and its signed amount. The wallet stays valid and balanced, stays accounted for when it was, and any new category is fresh |
| Finance.CreateAndPost | src/main/java/service/FinanceManager.java:393-400 | For an absent name, a fresh category of the transaction's kind is filed and then posted to. Afterwards it holds exactly the amount, the log gains the transaction and the balance its signed amount, and the wallet stays valid and balanced |
| Finance.NewCategoryFor | src/main/java/service/FinanceManager.java:394-395 | The created category is fresh, carries the transaction's name, holds 0 and is of the transaction's kind, with budget 0 when it is an expense category |
| Finance.SetBudgetOn | src/main/java/service/FinanceManager.java:241-253 | The budget rules change the wallet exactly as the budget policy says. The log and the balance are unchanged, and the wallet stays valid and balanced, and accounted for when it was |
| Finance.FinanceManager.constructor | src/main/java/service/FinanceManager.java:11-12 | The store starts with no users and nobody logged in, and is valid |
| Finance.FinanceManager.RegisterUser | src/main/java/service/FinanceManager.java:133-146 | Empty credentials are rejected, then a taken name. Both change nothing. Otherwise exactly one fresh user is filed under the name and logged in, with the given credentials, a fresh empty wallet and no notifications. The store stays valid |
| Finance.FinanceManager.LoginUser | src/main/java/service/FinanceManager.java:155-161 | The user map never changes. Login succeeds if and only if the name is registered and the password matches, and then that user is current; otherwise the current user is kept |
| Finance.FinanceManager.AddTransactionToWallet | src/main/java/service/FinanceManager.java:370-406 | With nobody logged in, nothing changes. Otherwise the current wallet changes as the posting policy says, only that wallet and its categories change, every category it then holds is an old one or a fresh one, the store stays valid, and the wallet stays accounted for when it was |
| Finance.FinanceManager.CheckBudgetExceedance | src/main/java/service/FinanceManager.java:185-197 | The pending notification is set to the budget warning for the category if and only if it is an expense category whose budget minus spent is below 0. A budget of 0 counts. Otherwise the user is unchanged. The history and the wallet are never touched |
| Finance.FinanceManager.CheckNegativeBalance | src/main/java/service/FinanceManager.java:199-203 | The negative-balance warning is set as pending if and only if the current balance is below 0. Otherwise the user is unchanged. The history is never touched |
| Finance.FinanceManager.PrintNotifications | src/main/java/service/FinanceManager.java:111-125 | Drain, check the balance, drain again. What is printed is the previously pending notification, if any, followed by the negative-balance warning exactly when the balance is negative. That is exactly what joins the history, and the slot ends empty |
| Finance.FinanceManager.AddExpense | src/main/java/service/FinanceManager.java:164-183 | With nobody logged in, or an empty name, nothing changes. Otherwise an expense is posted under the posting policy, and then the pending notification becomes the budget warning exactly when the resulting category is over budget. Every category the wallet then holds is an old one or a fresh one. The store stays valid, and the wallet accounted for when it was |
| Finance.FinanceManager.AddIncome | src/main/java/service/FinanceManager.java:205-223 | With nobody logged in, or an empty name, nothing changes. Otherwise an income is posted under the posting policy. Every category the wallet then holds is an old one or a fresh one. The store stays valid, and the wallet accounted for when it was |
| Finance.FinanceManager.SetBudget | src/main/java/service/FinanceManager.java:225-254 | With nobody logged in, or an empty name, nothing changes. Otherwise the current wallet changes as the budget policy says, every category it then holds is an old one or a fresh one, the store stays valid, and the wallet accounted for when it was |

## Left out

- Amounts are unbounded integers instead of Java `double`. No rule depends on rounding, and floating point is not modelled. This also drops the inputs `NaN` and `Infinity`: `Double.parseDouble` accepts both, and both pass the `amount < 0` test at src/main/java/service/FinanceManager.java:411-415, but the integer amount parameters cannot express them.
- The menu loop, the `Scanner` reads and the re-prompting of `getValidAmount` (FinanceManager.java:22-51, 408-421) are console I/O. The amount they deliver is a parameter with the precondition `amount >= 0`. Names and credentials are parameters that stand for the input after `.trim()` (FinanceManager.java:129, 131, 153, 171, 212, 232), so a blank entry reaches the model as the empty string.
- Console and file output are left out, and so is the `PrintStream` redirection (FinanceManager.java:93-109). Handlers return a `Status` naming the message they would print. `PrintNotifications` returns the printed lines.
- `saveData` and `loadData` are Java serialisation and file I/O (FinanceManager.java:53-71). The manager's constructor models the branch where no data file exists, so the store starts empty.
- The report strings and the formatting of numbers are left out. Reports are modelled by their content: amounts, and the budget with its remaining value.
- The grouped reports iterate over a `HashMap` in no promised order. They are modelled as maps from name to line, and the totals as sums in no particular order.
- The report commands 6-13 of the manager (FinanceManager.java:256-368) are left out. They only print the wallet reports modelled above, or split the input on ';' and print each single-category report.
- The inner `catch` after the second `addTransaction` (FinanceManager.java:402-404) cannot be reached: the category was filed just before. The model ignores that call's outcome, and `CreateAndPost` proves it succeeds.
- The getters of `Transaction`, `Category` and `ExpenseCategory` are plain field reads. They are modelled as datatype destructors and class fields.
- `IncomeCategory.java` is not part of this model. An income category is the `Income` kind of `Category`, with no state beyond a category's.
- Users.User.GetLastNotification: the claim that two drains in a row grow the history by at most one entry spans two calls. It is not a separate lemma; it follows from this method's contract (the second drain finds the slot empty), and `PrintNotifications` states it for the drain-check-drain cycle.
- Finance.FinanceManager.Valid: the store invariant carries validity and balance for every wallet but not `Wallet.Accounted()`. Keeping it there made the proof of the expense command, which crosses two calls, too costly for the verifier. Instead every command that changes a wallet promises to keep that wallet accounted for when it was, and every new wallet starts accounted for. So the property holds for every wallet reached through the commands, but it is not stated as one invariant over the whole store.
- A budget of 0 means "no budget" in the reports, yet it still counts as exceeded as soon as anything is spent. This is modelled as written.
