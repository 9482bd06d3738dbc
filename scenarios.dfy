/**
 * Sessions of the program written out as method bodies: one run adds a user
 * and an income and saves; a second run, a fresh process whose counters
 * start at 0 again, loads that file and adds an income.
 */
module Scenarios {
  import opened Wrappers
  import opened OrderedKeys
  import opened Lines
  import opened Transactions
  import opened Users
  import opened Manager

  /** The one user with one salary income that the first session saves. */
  function SavedDirectory(name: string, salary: int): map<int, UserRecord> {
    map[1 := UserRecord(1, name, map[1 := Transaction(1, INCOME, "Salary", salary)], salary, 0)]
  }

  /** The saved user's totals are exact. */
  lemma SavedUserConsistent(name: string, salary: int)
    ensures Consistent(SavedDirectory(name, salary)[1])
  {
    var m := SavedDirectory(name, salary)[1].transactions;
    KindTotalRemove(m, 1, INCOME);
    KindTotalRemove(m, 1, EXPENSE);
    assert m - {1} == map[];
  }

  /** The file that holds the saved directory loads back as that directory. */
  lemma SavedFileLoads(name: string, salary: int)
    requires '\n' !in name
    ensures LoadedUsers(Some(JoinLines(EncodeDirectory(SavedDirectory(name, salary)))), map[])
         == SavedDirectory(name, salary)
  {
    assert WellFormed(SavedDirectory(name, salary));
    DirectoryRoundTrip(SavedDirectory(name, salary));
  }

  /** The start of a first run: an empty directory, then `addUser(name)`, which gets identifier 1. */
  method FirstUser(name: string) returns (manager: FinanceManager, user: User)
    ensures fresh(manager) && fresh(user)
    ensures manager.users == map[1 := user]
    ensures user.Valid() && user.Snapshot() == UserRecord(1, name, map[], 0, 0)
  {
    var userIds := new Counter();
    manager := new FinanceManager(None);
    var file := manager.AddUser(name, userIds, None, true);
    assert manager.Records() == map[1 := UserRecord(1, name, map[], 0, 0)];
    user := manager.GetUser(1);
    assert manager.users.Keys == {1};
  }

  /**
   * A first run: `addUser(name)`, then `addIncome("Salary", salary)` on
   * user 1, both identifiers being the first of their counters, then a save.
   */
  method FirstSession(name: string, salary: int) returns (file: Option<string>)
    ensures file == Some(JoinLines(EncodeDirectory(SavedDirectory(name, salary))))
  {
    var transactionIds := new Counter();
    var manager, user := FirstUser(name);
    user.AddIncome("Salary", salary, transactionIds);
    assert user.Snapshot() == SavedDirectory(name, salary)[1];
    assert manager.Valid();
    assert manager.Records() == SavedDirectory(name, salary);
    file := manager.SaveData(None, true);
  }

  /**
   * The ledger of one run after `addIncome("Salary", 1000.00)`,
   * `addExpense("Rent", 400.00)` and deleting the income again.
   */
  method SummaryAfterDelete() returns (before: Report, after: Report)
    ensures before == Report(100000, 40000, 60000)
    ensures after == Report(0, 40000, -40000)
  {
    var transactionIds := new Counter();
    var userIds := new Counter();
    var user := new User("Alice", userIds);
    user.AddIncome("Salary", 100000, transactionIds);
    user.AddExpense("Rent", 40000, transactionIds);
    before := user.SummaryReport();
    user.DeleteTransaction(1);
    after := user.SummaryReport();
  }

  /**
   * A second run as the program does it: loading leaves the transaction
   * counter at 0, so the next income gets identifier 1 again, replaces the
   * loaded salary under that key and is still added to the total. The
   * income total then counts the salary, which no stored transaction holds
   * any more, and the totals are exact only if the salary was 0.
   */
  method IncomeAfterReloadAsWritten(file: Option<string>, name: string, salary: int, bonus: int) returns (user: User)
    requires LoadedUsers(file, map[]) == SavedDirectory(name, salary)
    ensures user.SummaryReport() == Report(salary + bonus, 0, salary + bonus)
    ensures user.transactions == map[1 := Transaction(1, INCOME, "Bonus", bonus)]
    ensures Consistent(user.Snapshot()) <==> salary == 0
  {
    var transactionIds := new Counter();
    var manager := new FinanceManager(file);
    user := manager.GetUser(1);
    ghost var loaded := user.Snapshot();
    assert loaded == SavedDirectory(name, salary)[1];
    SavedUserConsistent(name, salary);
    user.AddIncome("Bonus", bonus, transactionIds);
    WithIncomeOnStoredId(loaded, 1, "Bonus", bonus);
  }

  /**
   * A second run as the program does it: loading leaves the user counter
   * at 0, so `addUser` hands out identifier 1 again and the new user
   * replaces the loaded one.
   */
  method NewUserAfterReloadAsWritten(file: Option<string>, name: string, salary: int, other: string)
    returns (manager: FinanceManager)
    requires LoadedUsers(file, map[]) == SavedDirectory(name, salary)
    ensures manager.Records() == map[1 := UserRecord(1, other, map[], 0, 0)]
  {
    var userIds := new Counter();
    manager := new FinanceManager(file);
    var saved := manager.AddUser(other, userIds, file, false);
  }

  /**
   * The income of the second run with the counters moved up at load time:
   * it gets an identifier no stored income has, both incomes are kept and
   * the totals stay exact.
   */
  method IncomeAfterReloadResuming(file: Option<string>, name: string, salary: int, bonus: int)
    returns (user: User)
    requires LoadedUsers(file, map[]) == SavedDirectory(name, salary)
    ensures user.SummaryReport() == Report(salary + bonus, 0, salary + bonus)
    ensures |user.transactions| == 2
    ensures Consistent(user.Snapshot())
  {
    var transactionIds := new Counter();
    var userIds := new Counter();
    var manager := new FinanceManager(None);
    manager.LoadDataResumingIds(file, transactionIds, userIds);
    user := manager.GetUser(1);
    SavedUserConsistent(name, salary);
    user.AddIncome("Bonus", bonus, transactionIds);
  }

  /**
   * The new user of the second run with the counters moved up at load
   * time: it gets an identifier no stored user has and the loaded user
   * stays in place.
   */
  method NewUserAfterReloadResuming(file: Option<string>, name: string, salary: int, other: string)
    returns (manager: FinanceManager)
    requires LoadedUsers(file, map[]) == SavedDirectory(name, salary)
    ensures |manager.Records()| == 2
    ensures 1 in manager.Records() && manager.Records()[1] == SavedDirectory(name, salary)[1]
  {
    var transactionIds := new Counter();
    var userIds := new Counter();
    manager := new FinanceManager(None);
    manager.LoadDataResumingIds(file, transactionIds, userIds);
    var saved := manager.AddUser(other, userIds, file, false);
  }
}
