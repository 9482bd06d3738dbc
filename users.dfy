/**
 * Users (class `User` of fmanager.cpp): one ledger of transactions keyed by
 * identifier with two running totals that `addIncome`, `addExpense` and
 * `deleteTransaction` update in place, and the file format of one user.
 */
module Users {
  import opened Wrappers
  import opened Numerals
  import opened Lines
  import opened OrderedKeys
  import opened Transactions

  /** The state of one `User` object, as a value. */
  datatype UserRecord = UserRecord(
    id: int,
    name: string,
    transactions: map<int, Transaction>,
    totalIncome: int,
    totalExpense: int)

  /** The three figures `generateSummaryReport` prints. */
  datatype Report = Report(income: int, expense: int, net: int)

  /** Every transaction is stored under its own identifier. */
  ghost predicate KeysMatchIds(m: map<int, Transaction>) {
    forall k :: k in m ==> m[k].id == k
  }

  /** No stored identifier is above `last`: the freshness condition for the next identifier `last + 1`. */
  ghost predicate IdsAtMost(m: map<int, Transaction>, last: int) {
    forall k :: k in m ==> k <= last
  }

  /** What a transaction adds to the total of the given type. */
  function Contribution(t: Transaction, kind: string): int {
    if t.kind == kind then t.amount else 0
  }

  /** The sum of the amounts of the stored transactions of the given type. */
  ghost function KindTotal(m: map<int, Transaction>, kind: string): int
    decreases m.Keys
  {
    if m.Keys == {} then 0
    else
      var k := MinKey(m.Keys);
      Contribution(m[k], kind) + KindTotal(m - {k}, kind)
  }

  /** The ledger invariant: both running totals equal the sums they stand for. */
  ghost predicate Consistent(r: UserRecord) {
    && r.totalIncome == KindTotal(r.transactions, INCOME)
    && r.totalExpense == KindTotal(r.transactions, EXPENSE)
  }

  /** Any one stored transaction can be taken out of a type's sum. */
  lemma {:induction false} KindTotalRemove(m: map<int, Transaction>, k: int, kind: string)
    requires k in m
    ensures KindTotal(m, kind) == Contribution(m[k], kind) + KindTotal(m - {k}, kind)
    decreases m.Keys
  {
    var j := MinKey(m.Keys);
    if j != k {
      KindTotalRemove(m - {j}, k, kind);
      assert (m - {j}) - {k} == (m - {k}) - {j};
      var s := (m - {k}).Keys;
      assert j in s;
      assert MinKey(s) in m.Keys;
      assert MinKey(s) == j;
    }
  }

  /** Storing `t` under its identifier replaces what was stored there, in every type's sum. */
  lemma KindTotalStore(m: map<int, Transaction>, t: Transaction, kind: string)
    ensures KindTotal(m[t.id := t], kind)
         == KindTotal(m, kind) - (if t.id in m then Contribution(m[t.id], kind) else 0) + Contribution(t, kind)
  {
    KindTotalRemove(m[t.id := t], t.id, kind);
    if t.id in m {
      KindTotalRemove(m, t.id, kind);
      assert m[t.id := t] - {t.id} == m - {t.id};
    } else {
      assert m[t.id := t] - {t.id} == m;
    }
  }

  /** `addIncome` on values: store an "Income" transaction under `id`, add `amount` to the income total. */
  function WithIncome(r: UserRecord, id: int, category: string, amount: int): UserRecord {
    r.(transactions := r.transactions[id := Transaction(id, INCOME, category, amount)],
       totalIncome := r.totalIncome + amount)
  }

  /** `addExpense` on values: store an "Expense" transaction under `id`, add `amount` to the expense total. */
  function WithExpense(r: UserRecord, id: int, category: string, amount: int): UserRecord {
    r.(transactions := r.transactions[id := Transaction(id, EXPENSE, category, amount)],
       totalExpense := r.totalExpense + amount)
  }

  /**
   * `deleteTransaction` on values: an absent identifier changes nothing; a
   * present one is removed and its amount leaves the total its type names,
   * and neither total changes for any other type string.
   */
  function WithoutTransaction(r: UserRecord, id: int): UserRecord {
    if id !in r.transactions then r
    else
      var t := r.transactions[id];
      var r' := r.(transactions := r.transactions - {id});
      if t.kind == INCOME then r'.(totalIncome := r.totalIncome - t.amount)
      else if t.kind == EXPENSE then r'.(totalExpense := r.totalExpense - t.amount)
      else r'
  }

  /** Adding income under a fresh identifier adds exactly one entry and keeps both totals exact. */
  lemma WithIncomeKeepsTotals(r: UserRecord, id: int, category: string, amount: int)
    requires Consistent(r) && KeysMatchIds(r.transactions) && IdsAtMost(r.transactions, id - 1)
    ensures id !in r.transactions
    ensures var r' := WithIncome(r, id, category, amount);
      && Consistent(r') && KeysMatchIds(r'.transactions) && IdsAtMost(r'.transactions, id)
      && |r'.transactions| == |r.transactions| + 1
  {
    var t := Transaction(id, INCOME, category, amount);
    KindTotalStore(r.transactions, t, INCOME);
    KindTotalStore(r.transactions, t, EXPENSE);
  }

  /** Adding an expense under a fresh identifier adds exactly one entry and keeps both totals exact. */
  lemma WithExpenseKeepsTotals(r: UserRecord, id: int, category: string, amount: int)
    requires Consistent(r) && KeysMatchIds(r.transactions) && IdsAtMost(r.transactions, id - 1)
    ensures id !in r.transactions
    ensures var r' := WithExpense(r, id, category, amount);
      && Consistent(r') && KeysMatchIds(r'.transactions) && IdsAtMost(r'.transactions, id)
      && |r'.transactions| == |r.transactions| + 1
  {
    var t := Transaction(id, EXPENSE, category, amount);
    KindTotalStore(r.transactions, t, INCOME);
    KindTotalStore(r.transactions, t, EXPENSE);
  }

  /**
   * Adding income under an identifier that is already stored (what happens
   * once the counter restarts below the stored identifiers) replaces the old
   * entry but still adds the amount: the totals stay exact only if the
   * replaced entry counted towards neither total.
   */
  lemma WithIncomeOnStoredId(r: UserRecord, id: int, category: string, amount: int)
    requires Consistent(r) && id in r.transactions
    ensures var old_ := r.transactions[id];
      Consistent(WithIncome(r, id, category, amount))
      <==> Contribution(old_, INCOME) == 0 && Contribution(old_, EXPENSE) == 0
  {
    var t := Transaction(id, INCOME, category, amount);
    KindTotalStore(r.transactions, t, INCOME);
    KindTotalStore(r.transactions, t, EXPENSE);
  }

  /** The two cases of `deleteTransaction`, stated field by field. */
  lemma WithoutTransactionCases(r: UserRecord, id: int)
    ensures id !in r.transactions ==> WithoutTransaction(r, id) == r
    ensures id in r.transactions ==>
      var t, r' := r.transactions[id], WithoutTransaction(r, id);
      && r'.id == r.id && r'.name == r.name
      && r'.transactions == r.transactions - {id}
      && r'.totalIncome == r.totalIncome - Contribution(t, INCOME)
      && r'.totalExpense == r.totalExpense - Contribution(t, EXPENSE)
  {
  }

  /** Deleting keeps both totals exact, whatever the deleted entry's type string. */
  lemma WithoutTransactionKeepsTotals(r: UserRecord, id: int)
    requires Consistent(r)
    ensures Consistent(WithoutTransaction(r, id))
  {
    if id in r.transactions {
      KindTotalRemove(r.transactions, id, INCOME);
      KindTotalRemove(r.transactions, id, EXPENSE);
    }
  }

  /** The transactions in the order `viewTransactionHistory` lists them. */
  ghost function History(m: map<int, Transaction>): seq<Transaction> {
    var ks := SortedKeys(m.Keys);
    seq(|ks|, i requires 0 <= i < |ks| => m[ks[i]])
  }

  /** The listing holds every stored transaction exactly once, in ascending identifier order. */
  lemma HistoryListsAll(m: map<int, Transaction>)
    requires KeysMatchIds(m)
    ensures |History(m)| == |m|
    ensures forall k :: k in m ==> m[k] in History(m)
    ensures forall i :: 0 <= i < |History(m)| ==> History(m)[i].id in m && m[History(m)[i].id] == History(m)[i]
    ensures forall i, j :: 0 <= i < j < |History(m)| ==> History(m)[i].id < History(m)[j].id
  {
    var ks := SortedKeys(m.Keys);
    var h := History(m);
    assert |h| == |ks|;
    forall i | 0 <= i < |h| ensures h[i] == m[ks[i]] && h[i].id == ks[i] {
    }
    forall k | k in m ensures m[k] in h {
      var i :| 0 <= i < |ks| && ks[i] == k;
      assert h[i] == m[k];
    }
    forall i, j | 0 <= i < j < |h| ensures h[i].id < h[j].id {
      assert ks[i] < ks[j];
    }
  }

  // ----- File format of one user -----

  /** No name, type or category holds a newline. */
  ghost predicate UserTextClean(r: UserRecord) {
    '\n' !in r.name && forall k :: k in r.transactions ==> TextClean(r.transactions[k])
  }

  /** The transactions stored under the keys `s`, written in ascending key order. */
  ghost function EncodeLedger(m: map<int, Transaction>, s: set<int>): (lines: seq<string>)
    requires s <= m.Keys
    ensures |lines| == 4 * |s|
    decreases s
  {
    if s == {} then []
    else
      var k := MinKey(s);
      EncodeTransaction(m[k]) + EncodeLedger(m, s - {k})
  }

  /** Transactions free of newlines are written as lines free of newlines. */
  lemma {:induction false} EncodeLedgerClean(m: map<int, Transaction>, s: set<int>)
    requires s <= m.Keys
    requires forall k :: k in s ==> TextClean(m[k])
    ensures NoNewlines(EncodeLedger(m, s))
    decreases s
  {
    if s != {} {
      var k := MinKey(s);
      EncodeLedgerClean(m, s - {k});
      NoNewlinesConcat(EncodeTransaction(m[k]), EncodeLedger(m, s - {k}));
    }
  }

  /** The five header lines of a user: identifier, name, both totals, number of transactions. */
  function UserHeader(r: UserRecord): (lines: seq<string>)
    ensures |lines| == 5
  {
    [IntToText(r.id), r.name, IntToText(r.totalIncome), IntToText(r.totalExpense), IntToText(|r.transactions|)]
  }

  /** `ofs << user`: the header, then every transaction in ascending identifier order. */
  ghost function EncodeUser(r: UserRecord): (lines: seq<string>)
    ensures |lines| == 5 + 4 * |r.transactions|
  {
    UserHeader(r) + EncodeLedger(r.transactions, r.transactions.Keys)
  }

  /** A user whose texts hold no newline is written as lines that hold none. */
  lemma EncodeUserClean(r: UserRecord)
    requires UserTextClean(r)
    ensures NoNewlines(EncodeUser(r))
  {
    EncodeLedgerClean(r.transactions, r.transactions.Keys);
    NoNewlinesConcat(UserHeader(r), EncodeLedger(r.transactions, r.transactions.Keys));
  }

  /**
   * The counted loop of `ifs >> user`: reads `n` transactions from line `pos`
   * on, storing each under its own persisted identifier (a later duplicate
   * replaces an earlier one). A count of zero or less reads nothing.
   */
  function ReadTransactions(lines: seq<string>, pos: nat, n: int, acc: map<int, Transaction>)
    : (r: Option<(map<int, Transaction>, nat)>)
    ensures n <= 0 ==> r == Some((acc, pos))
    ensures r.Some? && KeysMatchIds(acc) ==> KeysMatchIds(r.value.0)
    ensures r.Some? ==> acc.Keys <= r.value.0.Keys
    decreases if n > 0 then n else 0
  {
    if n <= 0 then Some((acc, pos))
    else
      match DecodeTransaction(lines, pos)
      case None => None
      case Some((t, next)) => ReadTransactions(lines, next, n - 1, acc[t.id := t])
  }

  /** The fields of the five header lines of a user record. */
  datatype Header = Header(id: int, name: string, totalIncome: int, totalExpense: int, count: int)

  /** The header lines from `pos` on: four of them must parse as numbers, the name is taken as it is. */
  function DecodeHeader(lines: seq<string>, pos: nat): Option<Header> {
    if pos + 5 > |lines| then None
    else
      var id, income, expense, count :=
        ParseInt(lines[pos]), ParseInt(lines[pos + 2]), ParseInt(lines[pos + 3]), ParseInt(lines[pos + 4]);
      if id.None? || income.None? || expense.None? || count.None? then None
      else Some(Header(id.value, lines[pos + 1], income.value, expense.value, count.value))
  }

  /**
   * `ifs >> user` from line `pos`, into a user whose map already holds `base`:
   * the header lines, then the counted transactions. The persisted totals are
   * taken as they are, not recomputed.
   */
  function DecodeUser(lines: seq<string>, pos: nat, base: map<int, Transaction>): Option<(UserRecord, nat)> {
    match DecodeHeader(lines, pos)
    case None => None
    case Some(h) =>
      match ReadTransactions(lines, pos + 5, h.count, base)
      case None => None
      case Some((m, next)) => Some((UserRecord(h.id, h.name, m, h.totalIncome, h.totalExpense), next))
  }

  /** Reading back written transactions stores each of them under its key, after the accumulated ones. */
  lemma {:induction false} ReadEncodedLedger(
    lines: seq<string>, pos: nat, m: map<int, Transaction>, s: set<int>, acc: map<int, Transaction>)
    requires KeysMatchIds(m) && s <= m.Keys
    requires pos + 4 * |s| <= |lines| && lines[pos..pos + 4 * |s|] == EncodeLedger(m, s)
    ensures ReadTransactions(lines, pos, |s|, acc).Some?
    ensures ReadTransactions(lines, pos, |s|, acc).value.0 == acc + Within(m, s)
    ensures ReadTransactions(lines, pos, |s|, acc).value.1 == pos + 4 * |s|
    decreases s
  {
    if s == {} {
      assert acc + Within(m, s) == acc;
    } else {
      var k := MinKey(s);
      var t := m[k];
      var rest := EncodeLedger(m, s - {k});
      SliceSplit(lines, pos, EncodeTransaction(t), rest, pos + 4);
      DecodeEncodeTransaction(lines, pos, t);
      ReadEncodedLedger(lines, pos + 4, m, s - {k}, acc[t.id := t]);
      WithinStep(acc, m, s, k);
    }
  }

  /** Reading back all written transactions of a map rebuilds the map and ends after them. */
  lemma ReadAllEncodedTransactions(lines: seq<string>, pos: nat, m: map<int, Transaction>)
    requires KeysMatchIds(m)
    requires pos + 4 * |m| <= |lines|
    requires lines[pos..pos + 4 * |m|] == EncodeLedger(m, m.Keys)
    ensures ReadTransactions(lines, pos, |m|, map[]).Some?
    ensures ReadTransactions(lines, pos, |m|, map[]).value.0 == m
    ensures ReadTransactions(lines, pos, |m|, map[]).value.1 == pos + 4 * |m|
  {
    ReadEncodedLedger(lines, pos, m, m.Keys, map[]);
    assert map[] + Within(m, m.Keys) == m;
  }

  /** The five header lines read back as the fields they were written from. */
  lemma DecodeUserHeader(lines: seq<string>, pos: nat, r: UserRecord)
    requires pos + 5 <= |lines| && lines[pos..pos + 5] == UserHeader(r)
    ensures DecodeHeader(lines, pos) == Some(Header(r.id, r.name, r.totalIncome, r.totalExpense, |r.transactions|))
  {
    assert lines[pos] == lines[pos..pos + 5][0] == IntToText(r.id);
    assert lines[pos + 1] == lines[pos..pos + 5][1] == r.name;
    assert lines[pos + 2] == lines[pos..pos + 5][2] == IntToText(r.totalIncome);
    assert lines[pos + 3] == lines[pos..pos + 5][3] == IntToText(r.totalExpense);
    assert lines[pos + 4] == lines[pos..pos + 5][4] == IntToText(|r.transactions|);
    ParseIntRoundTrip(r.id);
    ParseIntRoundTrip(r.totalIncome);
    ParseIntRoundTrip(r.totalExpense);
    ParseIntRoundTrip(|r.transactions|);
  }

  /** Reading back the lines written for a user gives that user, totals and all transactions. */
  lemma DecodeEncodeUser(lines: seq<string>, pos: nat, r: UserRecord)
    requires KeysMatchIds(r.transactions)
    requires pos + |EncodeUser(r)| <= |lines| && lines[pos..pos + |EncodeUser(r)|] == EncodeUser(r)
    ensures DecodeUser(lines, pos, map[]).Some?
    ensures DecodeUser(lines, pos, map[]).value.0 == r
    ensures DecodeUser(lines, pos, map[]).value.1 == pos + |EncodeUser(r)|
  {
    var m := r.transactions;
    SliceSplit(lines, pos, UserHeader(r), EncodeLedger(m, m.Keys), pos + 5);
    DecodeUserHeader(lines, pos, r);
    ReadAllEncodedTransactions(lines, pos + 5, m);
  }

  /** One `User` object. */
  class User {
    var id: int
    var name: string
    var transactions: map<int, Transaction>
    var totalIncome: int
    var totalExpense: int

    /** The map is keyed by the stored transactions' own identifiers. */
    ghost predicate Valid()
      reads this
    {
      KeysMatchIds(transactions)
    }

    function Snapshot(): UserRecord
      reads this
    {
      UserRecord(id, name, transactions, totalIncome, totalExpense)
    }

    /** `User()`: the blank user the loader reads into. */
    constructor Blank()
      ensures Valid() && Snapshot() == UserRecord(0, "", map[], 0, 0)
    {
      id, name, transactions, totalIncome, totalExpense := 0, "", map[], 0, 0;
    }

    /** `User(name)`: takes the next user identifier; no transactions, both totals zero. */
    constructor (name: string, ids: Counter)
      modifies ids
      ensures ids.last == old(ids.last) + 1
      ensures Valid() && Snapshot() == UserRecord(ids.last, name, map[], 0, 0)
    {
      var uid := ids.Next();
      this.id, this.name, transactions, totalIncome, totalExpense := uid, name, map[], 0, 0;
    }

    /**
     * `addIncome`: a new transaction from the shared counter `ids`, stored
     * under its identifier. A colliding identifier replaces the stored entry;
     * when every stored identifier is at most the counter, the totals stay exact.
     */
    method AddIncome(category: string, amount: int, ids: Counter)
      requires Valid()
      modifies this, ids
      ensures Valid()
      ensures ids.last == old(ids.last) + 1
      ensures Snapshot() == WithIncome(old(Snapshot()), ids.last, category, amount)
      ensures old(Consistent(Snapshot()) && IdsAtMost(transactions, ids.last)) ==>
        Consistent(Snapshot()) && IdsAtMost(transactions, ids.last)
    {
      ghost var before := Snapshot();
      var t := NewTransaction(INCOME, category, amount, ids);
      transactions := transactions[t.id := t];
      totalIncome := totalIncome + amount;
      if Consistent(before) && IdsAtMost(before.transactions, t.id - 1) {
        WithIncomeKeepsTotals(before, t.id, category, amount);
      }
    }

    /** `addExpense`: as `AddIncome`, with type "Expense" and the expense total. */
    method AddExpense(category: string, amount: int, ids: Counter)
      requires Valid()
      modifies this, ids
      ensures Valid()
      ensures ids.last == old(ids.last) + 1
      ensures Snapshot() == WithExpense(old(Snapshot()), ids.last, category, amount)
      ensures old(Consistent(Snapshot()) && IdsAtMost(transactions, ids.last)) ==>
        Consistent(Snapshot()) && IdsAtMost(transactions, ids.last)
    {
      ghost var before := Snapshot();
      var t := NewTransaction(EXPENSE, category, amount, ids);
      transactions := transactions[t.id := t];
      totalExpense := totalExpense + amount;
      if Consistent(before) && IdsAtMost(before.transactions, t.id - 1) {
        WithExpenseKeepsTotals(before, t.id, category, amount);
      }
    }

    /** `deleteTransaction`: see `WithoutTransaction`; it keeps the totals exact. */
    method DeleteTransaction(transactionId: int)
      requires Valid()
      modifies this
      ensures Valid()
      ensures Snapshot() == WithoutTransaction(old(Snapshot()), transactionId)
      ensures old(Consistent(Snapshot())) ==> Consistent(Snapshot())
    {
      ghost var before := Snapshot();
      if transactionId in transactions {
        var t := transactions[transactionId];
        if t.kind == INCOME {
          totalIncome := totalIncome - t.amount;
        } else if t.kind == EXPENSE {
          totalExpense := totalExpense - t.amount;
        }
        transactions := transactions - {transactionId};
      }
      if Consistent(before) {
        WithoutTransactionKeepsTotals(before, transactionId);
      }
    }

    /** `generateSummaryReport` without the printing: the net is income minus expense. */
    function SummaryReport(): (s: Report)
      reads this
      ensures s.income == totalIncome && s.expense == totalExpense && s.net == s.income - s.expense
      ensures Consistent(Snapshot()) ==>
        s.net == KindTotal(transactions, INCOME) - KindTotal(transactions, EXPENSE)
    {
      Report(totalIncome, totalExpense, totalIncome - totalExpense)
    }

    /** `ofs << user`: appends the user's lines, visiting the map in ascending key order. */
    method WriteTo(out: seq<string>) returns (out': seq<string>)
      ensures out' == out + EncodeUser(Snapshot())
    {
      out' := out + UserHeader(Snapshot());
      var remaining := transactions.Keys;
      while remaining != {}
        invariant remaining <= transactions.Keys
        invariant out + EncodeUser(Snapshot()) == out' + EncodeLedger(transactions, remaining)
        decreases remaining
      {
        MinExists(remaining);
        var k :| k in remaining && forall j :: j in remaining ==> k <= j;
        assert k == MinKey(remaining);
        out' := out' + EncodeTransaction(transactions[k]);
        remaining := remaining - {k};
      }
    }

    /**
     * `ifs >> user` from line `pos`: fills the fields, then runs the counted
     * loop that stores each transaction under its persisted identifier. On a
     * line that does not parse the result is `None` and the object is left
     * partly filled.
     */
    method ReadFrom(lines: seq<string>, pos: nat) returns (next: Option<nat>)
      requires Valid()
      modifies this
      ensures Valid()
      ensures next.Some? <==> DecodeUser(lines, pos, old(transactions)).Some?
      ensures next.Some? ==> DecodeUser(lines, pos, old(transactions)).value.0 == Snapshot()
      ensures next.Some? ==> DecodeUser(lines, pos, old(transactions)).value.1 == next.value
    {
      var header := DecodeHeader(lines, pos);
      if header.None? {
        return None;
      }
      var h := header.value;
      id, name, totalIncome, totalExpense := h.id, h.name, h.totalIncome, h.totalExpense;
      var n := h.count;
      var i: int, p: nat := 0, pos + 5;
      while i < n
        invariant Valid()
        invariant id == h.id && name == h.name && totalIncome == h.totalIncome && totalExpense == h.totalExpense
        invariant ReadTransactions(lines, pos + 5, n, old(transactions)) == ReadTransactions(lines, p, n - i, transactions)
        decreases n - i
      {
        var d := DecodeTransaction(lines, p);
        if d.None? {
          return None;
        }
        var t := d.value.0;
        transactions := transactions[t.id := t];
        p, i := d.value.1, i + 1;
      }
      next := Some(p);
    }

    /** The largest stored identifier, or `floor` if none is larger. */
    method MaxTransactionId(floor: int) returns (max: int)
      ensures max >= floor && IdsAtMost(transactions, max)
      ensures max == floor || max in transactions
    {
      max := floor;
      var remaining := transactions.Keys;
      while remaining != {}
        invariant remaining <= transactions.Keys
        invariant max >= floor && (max == floor || max in transactions)
        invariant forall k :: k in transactions && k !in remaining ==> k <= max
        decreases remaining
      {
        ElementExists(remaining);
        var k :| k in remaining;
        if k > max {
          max := k;
        }
        remaining := remaining - {k};
      }
    }
  }
}
