/** The policy layer over the ledger: the user store, the current session,
    and the rules the command handlers apply before and after calling the
    wallet (auto-creating categories, rejecting kind mismatches, setting
    budgets, raising notifications). Console input is replaced by parameters. */
module Finance {
  import opened Common
  import opened Transactions
  import opened Categories
  import opened Ledgers
  import opened Wallets
  import opened Users

  /** What a command handler reports back to the console. */
  datatype Status =
    | NotLoggedIn
    | EmptyName
    | Posted
    | CreatedAndPosted
    | KindMismatch(isExpense: bool)
    | BudgetReplaced
    | BudgetCategoryCreated
    | IncomeBudgetRejected
    | EmptyCredentials
    | UserExists
    | Registered
    | LoggedIn
    | BadCredentials

  const NegativeBalanceNotice: string := "Warning: Your total balance is negative."

  function BudgetNotice(name: string): string
  {
    "Expense exceeds budget for category: " + name
  }

  /** The kind of the category created for a transaction whose category is
      missing: an expense category with no budget, or an income category. */
  function KindFor(t: Transaction): (k: Kind)
    ensures k.Expense? == t.isExpense
    ensures k.Expense? ==> k.budget == 0
  {
    if t.isExpense then Expense(0) else Income
  }

  /** A status together with the value view of the wallet it leaves behind. */
  datatype Step = Step(status: Status, ledger: Ledger)

  /** The posting policy on the value view: a missing category is created with
      the transaction's kind and then posted to; a category of the other kind
      rejects the transaction and nothing changes; otherwise the amount is
      posted. */
  function PostPolicy(m: Ledger, t: Transaction): (r: Step)
    ensures r.status.KindMismatch? <==> t.name in m && m[t.name].kind.Expense? != t.isExpense
    ensures r.status.KindMismatch? ==> r.status == KindMismatch(t.isExpense) && r.ledger == m
    ensures !r.status.KindMismatch? ==>
              && r.status == (if t.name in m then Posted else CreatedAndPosted)
              && r.ledger.Keys == m.Keys + {t.name}
              && r.ledger[t.name].amount == (if t.name in m then m[t.name].amount else 0) + t.amount
              && r.ledger[t.name].kind == (if t.name in m then m[t.name].kind else KindFor(t))
              && r.ledger[t.name].kind.Expense? == t.isExpense
    ensures forall n | n in m && n != t.name :: r.ledger[n] == m[n]
  {
    if t.name !in m then
      Step(CreatedAndPosted, Post(m[t.name := CategoryState(0, KindFor(t))], t.name, t.amount))
    else if m[t.name].kind.Expense? != t.isExpense then
      Step(KindMismatch(t.isExpense), m)
    else
      Step(Posted, Post(m, t.name, t.amount))
  }

  /** Under the posting policy the balance stays equal to total income minus
      total expenses: a rejected transaction changes neither, an accepted one
      moves both by its signed amount. */
  lemma {:induction false} PostPolicyKeepsBalance(m: Ledger, balance: int, t: Transaction)
    requires Balanced(m, balance)
    ensures Balanced(PostPolicy(m, t).ledger,
                     if PostPolicy(m, t).status.KindMismatch? then balance else balance + Signed(t))
  {
    if t.name !in m {
      var created := m[t.name := CategoryState(0, KindFor(t))];
      ReplaceKeepsBalance(m, balance, t.name, CategoryState(0, KindFor(t)));
      MatchingPostKeepsBalance(created, balance, t.name, t.amount, t.isExpense);
    } else if m[t.name].kind.Expense? == t.isExpense {
      MatchingPostKeepsBalance(m, balance, t.name, t.amount, t.isExpense);
    }
  }

  /** Under the posting policy every category keeps holding what the log has
      posted under its name: a rejected transaction is not logged, and a
      created category starts at 0 because no logged transaction names it. */
  lemma {:induction false} PostPolicyKeepsAccounted(m: Ledger, log: seq<Transaction>, t: Transaction)
    requires Accounted(m, log)
    ensures Accounted(PostPolicy(m, t).ledger, if PostPolicy(m, t).status.KindMismatch? then log else log + [t])
  {
    if t.name !in m {
      var created := m[t.name := CategoryState(0, KindFor(t))];
      ReplaceKeepsAccounted(m, log, t.name, CategoryState(0, KindFor(t)));
      PostKeepsAccounted(created, log, t);
    } else if m[t.name].kind.Expense? == t.isExpense {
      PostKeepsAccounted(m, log, t);
    }
  }

  /** The budget policy on the value view: a missing name becomes an expense
      category with that budget and nothing spent; an income category rejects
      the budget and nothing changes; an expense category gets the new budget
      and keeps what it has spent. */
  function BudgetPolicy(m: Ledger, name: string, budget: int): (r: Step)
    ensures name !in m ==> r.status == BudgetCategoryCreated && r.ledger == m[name := CategoryState(0, Expense(budget))]
    ensures name in m && m[name].kind.Income? ==> r.status == IncomeBudgetRejected && r.ledger == m
    ensures name in m && m[name].kind.Expense? ==>
              r.status == BudgetReplaced && r.ledger == m[name := CategoryState(m[name].amount, Expense(budget))]
  {
    if name !in m then Step(BudgetCategoryCreated, m[name := CategoryState(0, Expense(budget))])
    else if m[name].kind.Income? then Step(IncomeBudgetRejected, m)
    else Step(BudgetReplaced, m[name := m[name].(kind := Expense(budget))])
  }

  /** Setting a budget never changes total income or total expenses, so the
      balance equality survives it. */
  lemma {:induction false} BudgetPolicyKeepsBalance(m: Ledger, balance: int, name: string, budget: int)
    requires Balanced(m, balance)
    ensures Balanced(BudgetPolicy(m, name, budget).ledger, balance)
  {
    if name !in m || m[name].kind.Expense? {
      ReplaceKeepsBalance(m, balance, name, BudgetPolicy(m, name, budget).ledger[name]);
    }
  }

  /** The budget policy changes no amount and creates categories empty, so the
      ledger stays accounted for by an unchanged log. */
  lemma {:induction false} BudgetPolicyKeepsAccounted(m: Ledger, log: seq<Transaction>, name: string, budget: int)
    requires Accounted(m, log)
    ensures Accounted(BudgetPolicy(m, name, budget).ledger, log)
  {
    if name !in m || m[name].kind.Expense? {
      ReplaceKeepsAccounted(m, log, name, BudgetPolicy(m, name, budget).ledger[name]);
    }
  }

  /** The category `name` is an expense category that has spent more than its
      budget. A budget of 0 counts here: any positive spending exceeds it. */
  predicate Exceeded(m: Ledger, name: string)
  {
    name in m && m[name].kind.Expense? && m[name].kind.budget - m[name].amount < 0
  }

  /** The posting rules of the command handlers, applied to one wallet:
      resolve the category by name; on a kind mismatch reject; when it is
      missing create one of the transaction's kind and post to it. */
  method PostToWallet(wallet: Wallet, t: Transaction) returns (status: Status)
    requires wallet.Valid() && wallet.Balanced()
    modifies wallet, wallet.categories.Values
    ensures wallet.Valid() && wallet.Balanced()
    ensures old(wallet.Accounted()) ==> wallet.Accounted()
    ensures forall c | c in wallet.categories.Values :: c in old(wallet.categories.Values) || fresh(c)
    ensures status == PostPolicy(old(wallet.Snapshot()), t).status
    ensures wallet.Snapshot() == PostPolicy(old(wallet.Snapshot()), t).ledger
    ensures wallet.transactions == old(wallet.transactions) + (if status.KindMismatch? then [] else [t])
    ensures wallet.totalBalance == old(wallet.totalBalance) + (if status.KindMismatch? then 0 else Signed(t))
  {
    ghost var before, balance := wallet.Snapshot(), wallet.totalBalance;
    ghost var log, accounted := wallet.transactions, wallet.Accounted();
    var found := wallet.GetCategoryByName(t.name);
    if found.Ok? && found.value.kind.Expense? != t.isExpense {
      status := KindMismatch(t.isExpense);
    } else if found.Ok? {
      var _ := wallet.AddTransaction(t);
      MatchingPostKeepsBalance(before, balance, t.name, t.amount, t.isExpense);
      status := Posted;
    } else {
      CreateAndPost(wallet, t);
      status := CreatedAndPosted;
    }
    if accounted {
      PostPolicyKeepsAccounted(before, log, t);
    }
  }

  /** The missing-category branch of the posting rules: file a fresh category
      of the transaction's kind under its name, then post to it. */
  method CreateAndPost(wallet: Wallet, t: Transaction)
    requires wallet.Valid() && wallet.Balanced() && t.name !in wallet.categories
    modifies wallet, wallet.categories.Values
    ensures wallet.Valid() && wallet.Balanced()
    ensures forall c | c in wallet.categories.Values :: c in old(wallet.categories.Values) || fresh(c)
    ensures wallet.Snapshot() == Post(old(wallet.Snapshot())[t.name := CategoryState(0, KindFor(t))], t.name, t.amount)
    ensures wallet.transactions == old(wallet.transactions) + [t]
    ensures wallet.totalBalance == old(wallet.totalBalance) + Signed(t)
  {
    ghost var before, balance := wallet.Snapshot(), wallet.totalBalance;
    var category := NewCategoryFor(t);
    wallet.AddCategory(category);
    ghost var created := wallet.Snapshot();
    ReplaceKeepsBalance(before, balance, t.name, created[t.name]);
    var _ := wallet.AddTransaction(t);
    MatchingPostKeepsBalance(created, balance, t.name, t.amount, t.isExpense);
  }

  /** The category created for a transaction whose category is missing. */
  method NewCategoryFor(t: Transaction) returns (category: Category)
    ensures fresh(category)
    ensures category.name == t.name && category.State() == CategoryState(0, KindFor(t))
  {
    if t.isExpense {
      category := new Category.ExpenseCategory(t.name, 0);
    } else {
      category := new Category.IncomeCategory(t.name);
    }
  }

  /** The budget rules of the command handlers, applied to one wallet. */
  method SetBudgetOn(wallet: Wallet, name: string, budget: int) returns (status: Status)
    requires wallet.Valid() && wallet.Balanced()
    modifies wallet, wallet.categories.Values
    ensures wallet.Valid() && wallet.Balanced()
    ensures old(wallet.Accounted()) ==> wallet.Accounted()
    ensures forall c | c in wallet.categories.Values :: c in old(wallet.categories.Values) || fresh(c)
    ensures var step := BudgetPolicy(old(wallet.Snapshot()), name, budget);
            && status == step.status
            && wallet.Snapshot() == step.ledger
            && wallet.transactions == old(wallet.transactions)
            && wallet.totalBalance == old(wallet.totalBalance)
  {
    ghost var before, log, accounted := wallet.Snapshot(), wallet.transactions, wallet.Accounted();
    BudgetPolicyKeepsBalance(before, wallet.totalBalance, name, budget);
    var found := wallet.GetCategoryByName(name);
    if found.Ok? && found.value.kind.Income? {
      status := IncomeBudgetRejected;
    } else if found.Ok? {
      found.value.SetBudget(budget);
      status := BudgetReplaced;
    } else {
      var category := new Category.ExpenseCategory(name, budget);
      wallet.AddCategory(category);
      status := BudgetCategoryCreated;
    }
    assert wallet.Snapshot() == BudgetPolicy(before, name, budget).ledger;
    if accounted {
      BudgetPolicyKeepsAccounted(before, log, name, budget);
    }
  }

  class FinanceManager {
    var users: map<string, User>
    var currentUser: User?

    ghost function UserWallets(): set<Wallet>
      reads this
    {
      set n | n in users :: users[n].wallet
    }

    ghost function CategoryObjects(): set<Category>
      reads this, UserWallets()
    {
      set n, c | n in users && c in users[n].wallet.categories.Values :: c
    }

    /** Users are filed under their names, the current user is one of them,
        every wallet is valid and balanced, and no two users share a wallet
        or a category object. */
    ghost predicate Valid()
      reads this, UserWallets(), CategoryObjects()
    {
      && (forall n | n in users :: users[n].username == n)
      && (currentUser != null ==> currentUser.username in users && users[currentUser.username] == currentUser)
      && (forall n | n in users ::
            users[n].wallet.Valid() && users[n].wallet.Balanced())
      && (forall n, n' | n in users && n' in users && n != n' ::
            users[n].wallet != users[n'].wallet
            && users[n].wallet.categories.Values !! users[n'].wallet.categories.Values)
    }

    /** The objects behind the current user's ledger: the wallet and its categories. */
    ghost function CurrentLedger(): set<object>
      reads this, if currentUser == null then {} else {currentUser.wallet}
    {
      if currentUser == null then {} else {currentUser.wallet as object} + currentUser.wallet.categories.Values
    }

    /** Changing only the current user's ledger, and only by adding fresh
        categories to it, keeps the store valid once that wallet is itself
        valid and balanced. */
    twostate lemma CurrentLedgerChangeKeepsValid()
      requires old(Valid()) && unchanged(this) && currentUser != null
      requires forall w | w in old(UserWallets()) && w != currentUser.wallet :: unchanged(w)
      requires forall c | c in old(CategoryObjects()) && c !in old(currentUser.wallet.categories.Values) :: unchanged(c)
      requires forall c | c in currentUser.wallet.categories.Values ::
                 c in old(currentUser.wallet.categories.Values) || !old(allocated(c))
      requires currentUser.wallet.Valid() && currentUser.wallet.Balanced()
      ensures Valid()
    {
      var current := currentUser.wallet;
      forall n | n in users && users[n].wallet != current
        ensures users[n].wallet.Valid() && users[n].wallet.Balanced()
      {
        var w := users[n].wallet;
        assert w in old(UserWallets());
        forall c | c in w.categories.Values
          ensures unchanged(c)
        {
          var k :| k in w.categories && w.categories[k] == c;
          assert c in old(CategoryObjects());
          assert users[n] != currentUser;
          assert c !in old(current.categories.Values);
        }
        assert w.Snapshot() == old(w.Snapshot());
      }
      forall n, n' | n in users && n' in users && n != n'
        ensures users[n].wallet != users[n'].wallet
        ensures users[n].wallet.categories.Values !! users[n'].wallet.categories.Values
      {
        var w, w' := users[n].wallet, users[n'].wallet;
        assert w in old(UserWallets()) && w' in old(UserWallets());
        if w == current {
          assert w' != current;
          forall c | c in w.categories.Values ensures c !in w'.categories.Values {
            if c in old(current.categories.Values) {
              assert old(current.categories.Values !! w'.categories.Values);
            }
          }
        } else if w' == current {
          forall c | c in w'.categories.Values ensures c !in w.categories.Values {
            if c in old(current.categories.Values) {
              assert old(w.categories.Values !! current.categories.Values);
            }
          }
        }
      }
    }

    /** Changing no store field, wallet or category keeps the store valid. */
    twostate lemma LedgersUnchangedKeepValid()
      requires old(Valid()) && unchanged(this)
      requires forall w | w in old(UserWallets()) :: unchanged(w)
      requires forall c | c in old(CategoryObjects()) :: unchanged(c)
      ensures Valid()
    {
    }

    /** Filing a freshly made user, whose wallet is fresh, valid, balanced and
        empty, and logging it in keeps the store valid. */
    twostate lemma NewUserKeepsValid(new user: User)
      requires old(Valid()) && user.username !in old(users)
      requires var wallet := user.wallet; !old(allocated(wallet))
      requires users == old(users)[user.username := user] && currentUser == user
      requires forall w | w in old(UserWallets()) :: unchanged(w)
      requires forall c | c in old(CategoryObjects()) :: unchanged(c)
      requires user.wallet.Valid() && user.wallet.Balanced()
      requires user.wallet.categories == map[]
      ensures Valid()
    {
      forall n | n in users
        ensures users[n].wallet.Valid() && users[n].wallet.Balanced()
      {
        if n != user.username {
          var w := users[n].wallet;
          assert w in old(UserWallets());
          forall c | c in w.categories.Values
            ensures unchanged(c)
          {
            var k :| k in w.categories && w.categories[k] == c;
            assert c in old(CategoryObjects());
          }
          assert w.Snapshot() == old(w.Snapshot());
        }
      }
      forall n, n' | n in users && n' in users && n != n'
        ensures users[n].wallet != users[n'].wallet
        ensures users[n].wallet.categories.Values !! users[n'].wallet.categories.Values
      {
        if n != user.username && n' != user.username {
          assert users[n].wallet in old(UserWallets()) && users[n'].wallet in old(UserWallets());
        }
      }
    }

    /** An empty store and nobody logged in. */
    constructor ()
      ensures Valid() && users == map[] && currentUser == null
    {
      users := map[];
      currentUser := null;
    }

    /** Registers and logs in a new user; empty credentials and a taken name
        are rejected and change nothing. */
    method RegisterUser(username: string, password: string) returns (status: Status)
      requires Valid()
      modifies this
      ensures Valid()
      ensures username == "" || password == "" ==> status == EmptyCredentials
      ensures username != "" && password != "" && username in old(users) ==> status == UserExists
      ensures username != "" && password != "" && username !in old(users) ==> status == Registered
      ensures status != Registered ==> unchanged(this)
      ensures status == Registered ==>
                && username != "" && password != "" && username !in old(users)
                && currentUser != null && fresh(currentUser) && fresh(currentUser.wallet)
                && users == old(users)[username := currentUser]
                && currentUser.username == username && currentUser.password == password
                && currentUser.wallet.categories == map[] && currentUser.wallet.transactions == []
                && currentUser.notifications == [] && currentUser.curNotification == None
    {
      if username == "" || password == "" {
        return EmptyCredentials;
      }
      if username in users {
        return UserExists;
      }
      var user := new User(username, password);
      users := users[username := user];
      currentUser := user;
      NewUserKeepsValid(user);
      status := Registered;
    }

    /** Logs in when the name is registered and the password matches;
        otherwise the session is left as it was. */
    method LoginUser(username: string, password: string) returns (status: Status)
      requires Valid()
      modifies this
      ensures Valid()
      ensures users == old(users)
      ensures status == LoggedIn <==> username in users && users[username].Authenticate(password)
      ensures status == LoggedIn ==> currentUser == users[username]
      ensures status != LoggedIn ==> status == BadCredentials && currentUser == old(currentUser)
    {
      if username in users && users[username].Authenticate(password) {
        currentUser := users[username];
        status := LoggedIn;
      } else {
        status := BadCredentials;
      }
    }

    /** Posts `t` under the posting policy to the current user's wallet. */
    method AddTransactionToWallet(t: Transaction) returns (status: Status)
      requires Valid()
      modifies CurrentLedger()
      ensures Valid()
      ensures users == old(users) && currentUser == old(currentUser)
      ensures currentUser != null && old(currentUser.wallet.Accounted()) ==> currentUser.wallet.Accounted()
      ensures currentUser != null ==>
                forall c | c in currentUser.wallet.categories.Values ::
                  c in old(currentUser.wallet.categories.Values) || fresh(c)
      ensures currentUser == null ==> status == NotLoggedIn
      ensures currentUser != null ==>
                var step := PostPolicy(old(currentUser.wallet.Snapshot()), t);
                && status == step.status
                && currentUser.wallet.Snapshot() == step.ledger
                && currentUser.wallet.transactions
                   == old(currentUser.wallet.transactions) + (if step.status.KindMismatch? then [] else [t])
                && currentUser.wallet.totalBalance
                   == old(currentUser.wallet.totalBalance) + (if step.status.KindMismatch? then 0 else Signed(t))
    {
      if currentUser == null {
        return NotLoggedIn;
      }
      status := PostToWallet(currentUser.wallet, t);
      CurrentLedgerChangeKeepsValid();
    }

    /** After an expense, warns the current user when the named category is an
        expense category that has spent more than its budget. */
    method CheckBudgetExceedance(t: Transaction)
      requires Valid() && currentUser != null
      modifies currentUser
      ensures Valid()
      ensures Exceeded(currentUser.wallet.Snapshot(), t.name) ==>
                && currentUser.curNotification == Some(BudgetNotice(t.name))
                && currentUser.notifications == old(currentUser.notifications)
      ensures !Exceeded(currentUser.wallet.Snapshot(), t.name) ==> unchanged(currentUser)
      ensures currentUser.wallet.Snapshot() == old(currentUser.wallet.Snapshot())
    {
      var found := currentUser.wallet.GetCategoryByName(t.name);
      if found.Ok? {
        var category := found.value;
        if category.kind.Expense? {
          var remainingBudget := category.kind.budget - category.currentAmount;
          if remainingBudget < 0 {
            currentUser.AddNotification(BudgetNotice(category.name));
          }
        }
      }
      LedgersUnchangedKeepValid();
    }

    /** Warns the current user, if any, when the balance is negative. */
    method CheckNegativeBalance()
      modifies if currentUser == null then {} else {currentUser}
      ensures currentUser != null && currentUser.wallet.totalBalance < 0 ==>
                && currentUser.curNotification == Some(NegativeBalanceNotice)
                && currentUser.notifications == old(currentUser.notifications)
      ensures currentUser != null && currentUser.wallet.totalBalance >= 0 ==> unchanged(currentUser)
    {
      if currentUser != null && currentUser.wallet.totalBalance < 0 {
        currentUser.AddNotification(NegativeBalanceNotice);
      }
    }

    /** The notification cycle run before each menu: drain the pending
        notification, check the balance, drain again. Returns what is printed,
        in order, which is exactly what joins the history. */
    method PrintNotifications() returns (printed: seq<string>)
      modifies if currentUser == null then {} else {currentUser}
      ensures currentUser == null ==> printed == []
      ensures currentUser != null ==>
                && printed == Elements(old(currentUser.curNotification))
                              + (if currentUser.wallet.totalBalance < 0 then [NegativeBalanceNotice] else [])
                && currentUser.curNotification == None
                && currentUser.notifications == old(currentUser.notifications) + printed
    {
      printed := [];
      if currentUser != null {
        var user := currentUser;
        var notification := user.GetLastNotification();
        printed := Elements(notification);
        CheckNegativeBalance();
        notification := user.GetLastNotification();
        printed := printed + Elements(notification);
      }
    }

    /** The expense command: posts an expense of `amount` to `name` under the
        posting policy, then checks the category's budget. */
    method AddExpense(name: string, amount: int) returns (status: Status)
      requires Valid() && amount >= 0
      modifies CurrentLedger(), if currentUser == null then {} else {currentUser}
      ensures Valid()
      ensures users == old(users) && currentUser == old(currentUser)
      ensures currentUser != null && old(currentUser.wallet.Accounted()) ==> currentUser.wallet.Accounted()
      ensures currentUser != null ==>
                forall c | c in currentUser.wallet.categories.Values ::
                  c in old(currentUser.wallet.categories.Values) || fresh(c)
      ensures currentUser == null ==> status == NotLoggedIn
      ensures currentUser != null && name == "" ==>
                status == EmptyName && unchanged(currentUser) && unchanged(old(CurrentLedger()))
      ensures currentUser != null && name != "" ==>
                var t := Transaction(name, amount, true);
                var step := PostPolicy(old(currentUser.wallet.Snapshot()), t);
                && status == step.status
                && currentUser.wallet.Snapshot() == step.ledger
                && currentUser.wallet.transactions
                   == old(currentUser.wallet.transactions) + (if step.status.KindMismatch? then [] else [t])
                && currentUser.wallet.totalBalance
                   == old(currentUser.wallet.totalBalance) + (if step.status.KindMismatch? then 0 else -amount)
                && currentUser.notifications == old(currentUser.notifications)
                && currentUser.curNotification
                   == if Exceeded(step.ledger, name) then Some(BudgetNotice(name)) else old(currentUser.curNotification)
    {
      if currentUser == null {
        return NotLoggedIn;
      }
      if name == "" {
        return EmptyName;
      }
      var t := Transaction(name, amount, true);
      ghost var step := PostPolicy(currentUser.wallet.Snapshot(), t);
      status := AddTransactionToWallet(t);
      CheckBudgetExceedance(t);
      assert currentUser.wallet.Snapshot() == step.ledger;
    }

    /** The income command: posts an income of `amount` to `name` under the
        posting policy. */
    method AddIncome(name: string, amount: int) returns (status: Status)
      requires Valid() && amount >= 0
      modifies CurrentLedger()
      ensures Valid()
      ensures users == old(users) && currentUser == old(currentUser)
      ensures currentUser != null && old(currentUser.wallet.Accounted()) ==> currentUser.wallet.Accounted()
      ensures currentUser != null ==>
                forall c | c in currentUser.wallet.categories.Values ::
                  c in old(currentUser.wallet.categories.Values) || fresh(c)
      ensures currentUser == null ==> status == NotLoggedIn
      ensures currentUser != null && name == "" ==> status == EmptyName && unchanged(old(CurrentLedger()))
      ensures currentUser != null && name != "" ==>
                var t := Transaction(name, amount, false);
                var step := PostPolicy(old(currentUser.wallet.Snapshot()), t);
                && status == step.status
                && currentUser.wallet.Snapshot() == step.ledger
                && currentUser.wallet.transactions
                   == old(currentUser.wallet.transactions) + (if step.status.KindMismatch? then [] else [t])
                && currentUser.wallet.totalBalance
                   == old(currentUser.wallet.totalBalance) + (if step.status.KindMismatch? then 0 else amount)
    {
      if currentUser == null {
        return NotLoggedIn;
      }
      if name == "" {
        return EmptyName;
      }
      var t := Transaction(name, amount, false);
      status := AddTransactionToWallet(t);
    }

    /** The budget command under the budget policy. */
    method SetBudget(name: string, budget: int) returns (status: Status)
      requires Valid() && budget >= 0
      modifies CurrentLedger()
      ensures Valid()
      ensures users == old(users) && currentUser == old(currentUser)
      ensures currentUser != null && old(currentUser.wallet.Accounted()) ==> currentUser.wallet.Accounted()
      ensures currentUser != null ==>
                forall c | c in currentUser.wallet.categories.Values ::
                  c in old(currentUser.wallet.categories.Values) || fresh(c)
      ensures currentUser == null ==> status == NotLoggedIn
      ensures currentUser != null && name == "" ==> status == EmptyName && unchanged(old(CurrentLedger()))
      ensures currentUser != null && name != "" ==>
                var step := BudgetPolicy(old(currentUser.wallet.Snapshot()), name, budget);
                && status == step.status
                && currentUser.wallet.Snapshot() == step.ledger
                && currentUser.wallet.transactions == old(currentUser.wallet.transactions)
                && currentUser.wallet.totalBalance == old(currentUser.wallet.totalBalance)
    {
      if currentUser == null {
        return NotLoggedIn;
      }
      if name == "" {
        return EmptyName;
      }
      status := SetBudgetOn(currentUser.wallet, name, budget);
      CurrentLedgerChangeKeepsValid();
    }
  }
}
