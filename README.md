# Personal finance manager: a verified model of the ledger core

The model covers the core of `fmanager.cpp`, a console finance manager for several users.

- **Counters.** Every `Transaction` takes its identifier from one process-wide static counter. Every `User` takes its identifier from a second, independent counter. Both counters start at 0 and pre-increment, so the first identifier handed out is 1.
- **Ledger.** A user keeps a `std::map` of transactions keyed by identifier and two running totals. `addIncome`, `addExpense` and `deleteTransaction` update the map and the totals in place. The summary reports `net = totalIncome - totalExpense`.
- **Directory.** A `FinanceManager` keeps the users in a `std::map` keyed by user identifier. It offers `addUser` and `getUser`, writes the whole directory to one data file in `saveData` and reads it back in `loadData`.
  - A transaction is four lines: identifier, type, category, amount.
  - A user is five lines (identifier, name, income total, expense total, number of transactions) followed by its transactions.
  - The file is the number of users followed by the users.
  - Maps are written in ascending key order.
  - Reading is driven by the counts and takes the persisted totals as they are.

The model is imperative where the program is:
- `Counter`, `User` and `FinanceManager` are classes whose methods update their fields.
- The writers and the counted readers are loops.

Each method is proved against a value-level specification:
- `UserRecord` is the state of one user as a value.
- `WithIncome`, `WithExpense` and `WithoutTransaction` are the ledger updates on values.
- `EncodeUser` and `EncodeDirectory` give the lines written.
- `DecodeUser`, `ReadUsers` and `LoadedUsers` give what is read back.

The lemmas state the properties the program relies on:
- The totals stay exact under a freshness condition on identifiers.
- Deletion has two cases.
- The file format round-trips.
- A later record with a duplicate identifier wins.
- What happens when a second process reloads the file.

Modelling choices:
- Amounts and totals are integers (cents). Number text is exact decimal.
- The data file is an `Option<string>`, where `None` stands for a missing file. Saving returns the new file contents. A `writable` flag stands for whether the file could be opened; when it is false, the write changes nothing.
- The static counters are `Counter` objects passed explicitly. Sharing one instance stands for sharing the process-wide static.

Identifiers are the keys of the two maps, so a reused identifier overwrites stored data; the intended behaviour is that reading a file moves the identifier counters up to at least the largest identifier read. `loadData` does not do that: it never calls `setLastTransactionID` and never touches the user counter. `FinanceManager.LoadData` models the code as written, and `LoadDataResumingIds` models the intended behaviour (see Findings).

Files:
- `wrappers.dfy`: `Option`.
- `numerals.dfy`: integer text.
- `lines.dfy`: writing and reading lines.
- `ordered_keys.dfy`: ascending map order.
- `transactions.dfy`: `Transaction`, `Counter` and the four-line format.
- `users.dfy`: `User` and its format.
- `manager.dfy`: `FinanceManager` and the file.
- `scenarios.dfy`: whole sessions.

## Model

| member | source | states |
|---|---|---|
| Transactions.Counter.constructor | fmanager.cpp:34 | a counter starts at 0 |
| Transactions.Counter.Next | fmanager.cpp:36-38 | pre-increment: the identifier handed out is the old value plus one, and the counter then holds it, so identifiers strictly increase across all users sharing the counter |
| Transactions.Counter.Set | fmanager.cpp:27 | `setLastTransactionID`: the counter takes the given value |
| Transactions.NewTransaction | fmanager.cpp:36-42 | a new transaction gets the next identifier of the shared counter and stores type, category and amount verbatim |
| Numerals.IntToText | fmanager.cpp:45 | a number is written as one non-empty line without a newline |
| Numerals.ParseIntRoundTrip | fmanager.cpp:53 | reading back the text of any integer gives that integer |
| Lines.SplitJoinLines | fmanager.cpp:55-56 | lines written with `endl` are read back by `getline` as the same lines, provided none holds a newline |
| Lines.NewlineInFieldSplitsIt | fmanager.cpp:55-56 | a field holding a newline is read back as two lines, so the round trips need newline-free texts |
| OrderedKeys.SortedKeys | fmanager.cpp:74 | the order a `std::map` is visited in: every key once, strictly ascending |
| Transactions.EncodeTransaction | fmanager.cpp:44-50 | a transaction is exactly four lines, free of newlines when its texts are |
| Transactions.DecodeTransaction | fmanager.cpp:52-60 | a read that succeeds consumes exactly four lines |
| Transactions.DecodeEncodeTransaction | fmanager.cpp:44-60 | the four lines written for any transaction read back as that transaction, identifier, type, category and amount |
| Users.User.Blank | fmanager.cpp:80 | the default user: identifier 0, empty name, no transactions, zero totals |
| Users.User.constructor | fmanager.cpp:96-102 | a new user gets the next user identifier, an empty transaction map and both totals zero |
| Users.User.AddIncome | fmanager.cpp:110-114 | stores an "Income" transaction under the counter's next identifier and adds the amount to the income total, changing nothing else; if every stored identifier is at most the counter, the totals stay exact |
| Users.User.AddExpense | fmanager.cpp:116-120 | the same with type "Expense" and the expense total |
| Users.WithIncomeKeepsTotals | fmanager.cpp:110-114 | under a fresh identifier, adding income adds exactly one entry and keeps both totals equal to the per-type sums |
| Users.WithExpenseKeepsTotals | fmanager.cpp:116-120 | the same for an expense |
| Users.WithIncomeOnStoredId | fmanager.cpp:110-114 | under an identifier already stored, the old entry is replaced but the amount is still added: the totals stay exact if and only if the replaced entry counted towards neither total |
| Users.User.DeleteTransaction | fmanager.cpp:134-145 | deletion as `WithoutTransaction` specifies it; it keeps exact totals exact, whatever the type string |
| Users.WithoutTransactionCases | fmanager.cpp:134-145 | an absent identifier changes nothing; a present one removes only that key and subtracts its amount from the total its type names, and from neither total for any other type string |
| Users.WithoutTransactionKeepsTotals | fmanager.cpp:134-145 | deleting any identifier keeps exact totals exact |
| Users.User.SummaryReport | fmanager.cpp:128-132 | the report holds both totals and net = income - expense, which for exact totals is the income sum minus the expense sum |
| Users.HistoryListsAll | fmanager.cpp:122-126 | the transaction history lists every stored transaction exactly once, in strictly ascending identifier order |
| Users.UserHeader | fmanager.cpp:148-152 | a user's header is five lines |
| Users.EncodeUser | fmanager.cpp:147-157 | a user is written as 5 + 4 * (number of transactions) lines |
| Users.User.WriteTo | fmanager.cpp:147-157 | the writer loop appends exactly the user's encoding, transactions in ascending identifier order |
| Users.ReadTransactions | fmanager.cpp:164-171 | the counted loop: a count of zero or less reads nothing; otherwise it keeps what was already stored and stores transactions under their own identifiers |
| Users.User.ReadFrom | fmanager.cpp:159-173 | the reader loop fills the object exactly as `DecodeUser` describes, the persisted totals taken as they are; on a line that does not parse the model reports failure (see Left out) |
| Users.ReadEncodedLedger | fmanager.cpp:167-171 | reading back written transactions stores each of them under its key and ends right after them |
| Users.ReadAllEncodedTransactions | fmanager.cpp:167-171 | reading back all written transactions of a map rebuilds that map |
| Users.DecodeUserHeader | fmanager.cpp:159-166 | the five header lines read back as identifier, name, both totals and the number of transactions |
| Users.DecodeEncodeUser | fmanager.cpp:147-173 | the lines written for a user read back as that user: identifier, name, both totals and every transaction |
| Users.User.MaxTransactionId | fmanager.cpp:27-28 | corrected behaviour (see Findings): the larger of the floor and the largest stored transaction identifier, the value `setLastTransactionID` would be given |
| Manager.ReadUsers | fmanager.cpp:247-251 | the counted loop of `loadData` keeps the users already stored and stores every record under its own identifier |
| Manager.LoadedUsers | fmanager.cpp:238-253 | a missing file adds no user; otherwise the counted records are read on top of what is stored; an empty file or unreadable count adds nothing, a choice of the model (see Left out) |
| Manager.EncodedUsersDecode | fmanager.cpp:231-234 | written users, wherever they sit among other lines, decode one after the other as those users in ascending order |
| Manager.ReadDecodedUsers | fmanager.cpp:247-251 | reading such records stores each user under its identifier |
| Manager.LoadSavedLines | fmanager.cpp:231-246 | the saved file splits back into its lines and its count line reads back as the number of users |
| Manager.DirectoryRoundTrip | fmanager.cpp:225-253 | saving a directory and loading the file into an empty directory gives back every user, persisted totals and transactions included, provided no text holds a newline |
| Manager.LaterDuplicateWins | fmanager.cpp:247-251 | two consecutive records with the same identifier anywhere in the counted run: the earlier leaves no trace, and the rest of the run reads as if only the later had been stored |
| Manager.FinanceManager.constructor | fmanager.cpp:189-191 | a new directory holds exactly what `loadData` reads from the file |
| Manager.FinanceManager.LoadData | fmanager.cpp:238-253 | the directory becomes `LoadedUsers` of the file over what it held; the counters are not touched |
| Manager.FinanceManager.ReadOneUser | fmanager.cpp:248-250 | reads one record into a blank user and stores it under its identifier; on a record that does not parse the model stores nothing (see Left out) |
| Manager.FinanceManager.Store | fmanager.cpp:250 | stores a user under its identifier, replacing any user stored there |
| Manager.FinanceManager.SaveData | fmanager.cpp:225-236 | the file becomes the user count, then every user in ascending identifier order; an unopenable file is left as it was |
| Manager.FinanceManager.AddUser | fmanager.cpp:200-205 | stores a new user under the next user identifier and saves; if no stored identifier is above the counter, that identifier was free and exactly one user is added |
| Manager.FinanceManager.GetUser | fmanager.cpp:207-213 | the stored user for a present identifier, null for an absent one, with no state change |
| Manager.FinanceManager.LargestIds | fmanager.cpp:27-28 | corrected behaviour (see Findings): counter values at least the given ones and at least every stored user and transaction identifier, what `setLastTransactionID` would be given |
| Manager.FinanceManager.ResumeIds | fmanager.cpp:27 | corrected behaviour (see Findings): sets both counters, as `setLastTransactionID` does, to at least every stored identifier, leaving the directory alone |
| Manager.FinanceManager.LoadDataResumingIds | fmanager.cpp:238-253 | `loadData` followed by moving both counters up to at least every stored identifier, so later identifiers are fresh |
| Scenarios.SavedUserConsistent | fmanager.cpp:110-114 | the saved user of the first session has exact totals |
| Scenarios.SavedFileLoads | fmanager.cpp:238-253 | the file of the first session loads back as its directory |
| Scenarios.FirstUser | fmanager.cpp:200-202 | the first `addUser` of a run stores the user under identifier 1 |
| Scenarios.FirstSession | fmanager.cpp:193-194 | a run that adds a user and a salary and then saves writes exactly the encoding of that one user with that one income |
| Scenarios.SummaryAfterDelete | fmanager.cpp:128-145 | income 1000.00 and expense 400.00 report net 600.00, and after deleting the income net -400.00 |
| Scenarios.IncomeAfterReloadAsWritten | fmanager.cpp:238-253 | after reloading, the next income takes identifier 1 again, replaces the salary and is added to the total anyway: the totals are exact only if the salary was 0 |
| Scenarios.NewUserAfterReloadAsWritten | fmanager.cpp:238-253 | after reloading, the next `addUser` takes identifier 1 again and replaces the loaded user |
| Scenarios.IncomeAfterReloadResuming | fmanager.cpp:238-253 | with the counters resumed, the next income gets a fresh identifier: two transactions, exact totals |
| Scenarios.NewUserAfterReloadResuming | fmanager.cpp:238-253 | with the counters resumed, the next `addUser` adds a second user and keeps the loaded one |

## Left out

- Interactive menu and `cin` handling: console input only.
- Console output: `viewTransactionHistory`, `listUsers` and the `ostream` rendering with `fixed`/`setprecision(2)` are output only. `Users.HistoryListsAll` keeps the listing order and `SummaryReport` keeps the three figures.
- Floating point: amounts and totals are integers (cents), and number text is exact. The precision lost by the default float output is therefore not modelled.
- Integer width: identifiers and counters are unbounded, so the wrap-around of `long` is not modelled.
- File handling: the file is an optional text. Open failures become `None` on reading and "no change" on writing. Truncation, closing and error messages are not modelled.
- Stream parsing: every number is one whole line of decimal digits with an optional minus sign. Any other line is a read failure (see the next line). Leading whitespace, trailing characters after a number and the stream's failed state are not modelled.
- Manager.FinanceManager.ReadOneUser: on a record that does not parse, `LoadData` stores nothing and stops reading. The program instead still stores the partly read user under whatever identifier it read (fmanager.cpp:250), and the partly read transaction likewise (fmanager.cpp:170); each remaining pass then stores a blank `User()` under key 0. An empty file, or a count larger than the records present, leaves `numUsers` or `numTransactions` uninitialised (fmanager.cpp:244-245, 164-165), so the loop bound is indeterminate; the model reads no users in the first case and stops at the missing record in the second. The same stop applies to `Users.User.ReadFrom` and `Manager.LoadedUsers`.
- Pointers, `new`/`delete` and destructors: users are objects held by reference in the directory map, and transactions are values in the user's map. Memory release is not modelled. The save in `~FinanceManager` appears only as the explicit `SaveData` at the end of `Scenarios.FirstSession`.
- Getters (`getUserID`, `getName`, `getType`, ...) and `getLastTransactionID` are plain field reads, used directly.
- Manager.FinanceManager.LargestIds: gives counter values that are only at least the largest stored identifiers, not exactly equal to them. This is why the resuming scenarios state counts and membership rather than exact identifiers.

## Findings

| source | as written | input that shows it | evidently intended | confidence | as-written member | corrected member |
|---|---|---|---|---|---|---|
| fmanager.cpp:238-253 | `loadData` restores the directory but never moves either identifier counter (`setLastTransactionID`, fmanager.cpp:27, is never called), so a new process hands out identifiers from 1 again | a file holding user 1 with income 1 of amount s ≠ 0, loaded, then `addIncome("Bonus", b)`: the bonus replaces the salary under key 1, yet the income total becomes s + b; `addUser` likewise replaces user 1 | reading a file moves both counters up to at least the largest identifier read, so later identifiers never collide | not executed | Scenarios.IncomeAfterReloadAsWritten | Scenarios.IncomeAfterReloadResuming |

What each half contains:
- As written: `Manager.FinanceManager.LoadData`, together with `Scenarios.IncomeAfterReloadAsWritten` and `Scenarios.NewUserAfterReloadAsWritten`.
- Corrected: `Manager.FinanceManager.LoadDataResumingIds`. `Scenarios.IncomeAfterReloadResuming` and `Scenarios.NewUserAfterReloadResuming` prove for it that the totals stay exact and that no user is replaced.

The `FinanceManager` constructor keeps the as-written `loadData`, the way the program calls it.
