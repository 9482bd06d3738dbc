/**
 * Transactions (class `Transaction` of fmanager.cpp): a value with a
 * sequential identifier, a type string, a category and an amount, plus the
 * process-wide identifier counter and the four-line file format of one
 * transaction.
 */
module Transactions {
  import opened Wrappers
  import opened Numerals
  import opened Lines

  /** The two type strings the program ever stores. */
  const INCOME: string := "Income"
  const EXPENSE: string := "Expense"

  /** `kind` is the source's `type` field; `amount` counts cents. */
  datatype Transaction = Transaction(id: int, kind: string, category: string, amount: int)

  /**
   * A static identifier counter (`nextTransactionID`, and likewise
   * `User::nextUserID`): it starts at 0 and is incremented before each
   * assignment, so the first identifier handed out is 1. One shared instance
   * stands for the process-wide static.
   */
  class Counter {
    var last: int

    constructor ()
      ensures last == 0
    {
      last := 0;
    }

    /** The pre-increment of a constructor: the new identifier is the old value plus one. */
    method Next() returns (id: int)
      modifies this
      ensures id == old(last) + 1 && last == id
    {
      last := last + 1;
      id := last;
    }

    /** `setLastTransactionID`: the counter takes the given value. */
    method Set(value: int)
      modifies this
      ensures last == value
    {
      last := value;
    }
  }

  /** `Transaction(type, category, amount)`: takes the next identifier and stores the fields verbatim. */
  method NewTransaction(kind: string, category: string, amount: int, ids: Counter) returns (t: Transaction)
    modifies ids
    ensures ids.last == old(ids.last) + 1
    ensures t == Transaction(ids.last, kind, category, amount)
  {
    var id := ids.Next();
    t := Transaction(id, kind, category, amount);
  }

  /** No field holds a newline, so each field stays one line of the file. */
  ghost predicate TextClean(t: Transaction) {
    '\n' !in t.kind && '\n' !in t.category
  }

  /** `ofs << trans`: identifier, type, category and amount, one per line. */
  function EncodeTransaction(t: Transaction): (lines: seq<string>)
    ensures |lines| == 4
    ensures TextClean(t) ==> NoNewlines(lines)
  {
    [IntToText(t.id), t.kind, t.category, IntToText(t.amount)]
  }

  /**
   * `ifs >> trans`, reading from line `pos`: the two number lines must parse,
   * the two text lines are taken as they are. On success the result holds the
   * position of the next unread line.
   */
  function DecodeTransaction(lines: seq<string>, pos: nat): (r: Option<(Transaction, nat)>)
    ensures r.Some? ==> r.value.1 == pos + 4 <= |lines|
  {
    if pos + 4 > |lines| then None
    else
      var id, amount := ParseInt(lines[pos]), ParseInt(lines[pos + 3]);
      if id.None? || amount.None? then None
      else Some((Transaction(id.value, lines[pos + 1], lines[pos + 2], amount.value), pos + 4))
  }

  /** Reading back the four lines written for a transaction gives that transaction. */
  lemma DecodeEncodeTransaction(lines: seq<string>, pos: nat, t: Transaction)
    requires pos + 4 <= |lines| && lines[pos..pos + 4] == EncodeTransaction(t)
    ensures DecodeTransaction(lines, pos) == Some((t, pos + 4))
  {
    assert lines[pos] == lines[pos..pos + 4][0];
    assert lines[pos + 1] == lines[pos..pos + 4][1];
    assert lines[pos + 2] == lines[pos..pos + 4][2];
    assert lines[pos + 3] == lines[pos..pos + 4][3];
    ParseIntRoundTrip(t.id);
    ParseIntRoundTrip(t.amount);
  }
}
