/**
 * The user directory (class `FinanceManager` of fmanager.cpp): users keyed
 * by identifier, `addUser`, `getUser`, and the whole data file written by
 * `saveData` and read by `loadData`. The file is an optional text (`None`
 * when it does not exist); a write that cannot open the file changes nothing.
 */
module Manager {
  import opened Wrappers
  import opened Numerals
  import opened Lines
  import opened OrderedKeys
  import opened Transactions
  import opened Users

  // ----- File format of the directory -----

  /** Every user is stored under its own identifier. */
  ghost predicate UsersKeyed(d: map<int, UserRecord>) {
    forall k :: k in d ==> d[k].id == k
  }

  /** Every user is stored under its identifier and keeps its transactions under theirs. */
  ghost predicate Decodable(d: map<int, UserRecord>) {
    forall k :: k in d ==> d[k].id == k && KeysMatchIds(d[k].transactions)
  }

  /** What a written directory must satisfy to read back as itself: also, no text field holds a line break. */
  ghost predicate WellFormed(d: map<int, UserRecord>) {
    Decodable(d) && forall k :: k in d ==> UserTextClean(d[k])
  }

  /** The users stored under the keys `s`, written in ascending identifier order. */
  ghost function EncodeUsers(d: map<int, UserRecord>, s: set<int>): seq<string>
    requires s <= d.Keys
    decreases s
  {
    if s == {} then []
    else
      var k := MinKey(s);
      EncodeUser(d[k]) + EncodeUsers(d, s - {k})
  }

  /** `saveData`: the number of users, then every user. */
  ghost function EncodeDirectory(d: map<int, UserRecord>): seq<string> {
    [IntToText(|d|)] + EncodeUsers(d, d.Keys)
  }

  /** Users whose texts hold no newline are written as lines that hold none. */
  lemma {:induction false} EncodeUsersClean(d: map<int, UserRecord>, s: set<int>)
    requires s <= d.Keys && WellFormed(d)
    ensures NoNewlines(EncodeUsers(d, s))
    decreases s
  {
    if s != {} {
      var k := MinKey(s);
      EncodeUserClean(d[k]);
      EncodeUsersClean(d, s - {k});
      NoNewlinesConcat(EncodeUser(d[k]), EncodeUsers(d, s - {k}));
    }
  }

  /**
   * The counted loop of `loadData`: reads `n` users from line `pos` on, each
   * into a blank user, and stores each under its own persisted identifier (a
   * later duplicate replaces an earlier one). At the first record that does
   * not parse this model stops, keeping what was stored so far; the program
   * instead goes on storing the partly read user and then blank ones.
   */
  function ReadUsers(lines: seq<string>, pos: nat, n: int, acc: map<int, UserRecord>): (r: map<int, UserRecord>)
    ensures n <= 0 ==> r == acc
    ensures acc.Keys <= r.Keys
    ensures UsersKeyed(acc) ==> UsersKeyed(r)
    decreases if n > 0 then n else 0
  {
    if n <= 0 then acc
    else
      match DecodeUser(lines, pos, map[])
      case None => acc
      case Some((u, next)) => ReadUsers(lines, next, n - 1, acc[u.id := u])
  }

  /**
   * `loadData` into a directory that already holds `base`: a missing file adds
   * nothing; otherwise the counted records are read. An empty file or an
   * unreadable count line adds nothing here, a choice of this model: in the
   * program the count is then left uninitialised.
   */
  function LoadedUsers(file: Option<string>, base: map<int, UserRecord>): (r: map<int, UserRecord>)
    ensures file.None? ==> r == base
    ensures base.Keys <= r.Keys
    ensures UsersKeyed(base) ==> UsersKeyed(r)
  {
    if file.None? then base
    else
      var lines := SplitLines(file.value);
      if |lines| == 0 then base
      else
        match ParseInt(lines[0])
        case None => base
        case Some(n) => ReadUsers(lines, 1, n, base)
  }

  /** One step of the counted loop: a record that parses is stored and the rest is read after it. */
  lemma ReadUsersStep(lines: seq<string>, pos: nat, n: int, acc: map<int, UserRecord>, u: UserRecord, next: nat)
    requires n > 0 && DecodeUser(lines, pos, map[]).Some?
    requires DecodeUser(lines, pos, map[]).value.0 == u && DecodeUser(lines, pos, map[]).value.1 == next
    ensures ReadUsers(lines, pos, n, acc) == ReadUsers(lines, next, n - 1, acc[u.id := u])
  {
  }

  /** The written users are the smallest identifier's user, then the others. */
  lemma EncodeUsersFirst(d: map<int, UserRecord>, s: set<int>)
    requires s <= d.Keys && s != {}
    ensures EncodeUsers(d, s) == EncodeUser(d[MinKey(s)]) + EncodeUsers(d, s - {MinKey(s)})
  {
  }

  /**
   * From line `pos` on, the records decode one after the other as the users
   * of `d` under the keys `s`, in ascending identifier order.
   */
  ghost predicate DecodesAs(lines: seq<string>, pos: nat, d: map<int, UserRecord>, s: set<int>)
    requires s <= d.Keys
    decreases s
  {
    s == {} ||
    var k := MinKey(s);
    var r := DecodeUser(lines, pos, map[]);
    r.Some? && r.value.0 == d[k] && DecodesAs(lines, r.value.1, d, s - {k})
  }

  /** A written user that sits between other lines decodes as that user, and reading goes on right after it. */
  lemma DecodesBetween(lines: seq<string>, before: seq<string>, u: UserRecord, after: seq<string>)
    requires KeysMatchIds(u.transactions)
    requires lines == before + EncodeUser(u) + after
    ensures DecodeUser(lines, |before|, map[]).Some?
    ensures DecodeUser(lines, |before|, map[]).value.0 == u
    ensures DecodeUser(lines, |before|, map[]).value.1 == |before + EncodeUser(u)|
  {
    MiddleSlice(lines, before, EncodeUser(u), after);
    DecodeEncodeUser(lines, |before|, u);
  }

  /** Written users that sit between other lines start with the smallest identifier's user. */
  lemma EncodedUsersBetween(lines: seq<string>, before: seq<string>, d: map<int, UserRecord>, s: set<int>, after: seq<string>)
    requires s <= d.Keys && s != {}
    requires lines == before + EncodeUsers(d, s) + after
    ensures lines == before + EncodeUser(d[MinKey(s)]) + (EncodeUsers(d, s - {MinKey(s)}) + after)
    ensures lines == before + EncodeUser(d[MinKey(s)]) + EncodeUsers(d, s - {MinKey(s)}) + after
  {
    EncodeUsersFirst(d, s);
    SplitMiddle(lines, before, EncodeUsers(d, s), EncodeUser(d[MinKey(s)]), EncodeUsers(d, s - {MinKey(s)}), after);
  }

  /**
   * Where the written users sit between other lines, the first of them
   * decodes as the user with the smallest identifier, and the others are
   * written right after its lines.
   */
  lemma FirstDecodes(lines: seq<string>, before: seq<string>, d: map<int, UserRecord>, s: set<int>, after: seq<string>)
    requires Decodable(d) && s <= d.Keys && s != {}
    requires lines == before + EncodeUsers(d, s) + after
    ensures DecodeUser(lines, |before|, map[]).Some?
    ensures DecodeUser(lines, |before|, map[]).value.0 == d[MinKey(s)]
    ensures DecodeUser(lines, |before|, map[]).value.1 == |before + EncodeUser(d[MinKey(s)])|
    ensures lines == before + EncodeUser(d[MinKey(s)]) + EncodeUsers(d, s - {MinKey(s)}) + after
  {
    EncodedUsersBetween(lines, before, d, s, after);
    assert KeysMatchIds(d[MinKey(s)].transactions);
    DecodesBetween(lines, before, d[MinKey(s)], EncodeUsers(d, s - {MinKey(s)}) + after);
  }

  /** A record that decodes as the first user, followed by records that decode as the others. */
  lemma DecodesAsStep(lines: seq<string>, pos: nat, d: map<int, UserRecord>, s: set<int>, next: nat)
    requires s <= d.Keys && s != {}
    requires DecodeUser(lines, pos, map[]).Some?
    requires DecodeUser(lines, pos, map[]).value.0 == d[MinKey(s)]
    requires DecodeUser(lines, pos, map[]).value.1 == next
    requires DecodesAs(lines, next, d, s - {MinKey(s)})
    ensures DecodesAs(lines, pos, d, s)
  {
  }

  /** Written users, wherever they sit among other lines, decode one after the other as those users. */
  lemma {:induction false} EncodedUsersDecode(
    lines: seq<string>, before: seq<string>, d: map<int, UserRecord>, s: set<int>, after: seq<string>)
    requires Decodable(d) && s <= d.Keys
    requires lines == before + EncodeUsers(d, s) + after
    ensures DecodesAs(lines, |before|, d, s)
    decreases s
  {
    if s != {} {
      FirstDecodes(lines, before, d, s, after);
      EncodedUsersDecode(lines, before + EncodeUser(d[MinKey(s)]), d, s - {MinKey(s)}, after);
      DecodesAsStep(lines, |before|, d, s, |before + EncodeUser(d[MinKey(s)])|);
    }
  }

  /** Reading records that decode as users stores each of them under its identifier, after the accumulated ones. */
  lemma {:induction false} ReadDecodedUsers(
    lines: seq<string>, pos: nat, d: map<int, UserRecord>, s: set<int>, acc: map<int, UserRecord>)
    requires UsersKeyed(d) && s <= d.Keys
    requires DecodesAs(lines, pos, d, s)
    ensures ReadUsers(lines, pos, |s|, acc) == acc + Within(d, s)
    decreases s
  {
    if s == {} {
      assert acc + Within(d, s) == acc;
    } else {
      var k := MinKey(s);
      var u, others := d[k], s - {k};
      var next := DecodeUser(lines, pos, map[]).value.1;
      assert u.id == k && |others| == |s| - 1;
      ReadUsersStep(lines, pos, |s|, acc, u, next);
      ReadDecodedUsers(lines, next, d, others, acc[k := u]);
      WithinStep(acc, d, s, k);
    }
  }

  /** Storing every user of `d` into an empty directory gives `d`. */
  lemma UsersWithinAll(d: map<int, UserRecord>)
    ensures map[] + Within(d, d.Keys) == d
  {
  }

  /** The saved file splits back into its lines, and its count line reads back as the number of users. */
  lemma LoadSavedLines(d: map<int, UserRecord>)
    requires WellFormed(d)
    ensures LoadedUsers(Some(JoinLines(EncodeDirectory(d))), map[]) == ReadUsers(EncodeDirectory(d), 1, |d|, map[])
  {
    var lines := EncodeDirectory(d);
    EncodeUsersClean(d, d.Keys);
    NoNewlinesConcat([IntToText(|d|)], EncodeUsers(d, d.Keys));
    SplitJoinLines(lines);
    ParseIntRoundTrip(|d|);
  }

  /**
   * Saving a directory and then loading the file into an empty directory
   * gives back every user with its identifier, name, persisted totals and
   * transactions, provided no text field holds a newline.
   */
  lemma DirectoryRoundTrip(d: map<int, UserRecord>)
    requires WellFormed(d)
    ensures LoadedUsers(Some(JoinLines(EncodeDirectory(d))), map[]) == d
  {
    var lines := EncodeDirectory(d);
    LoadSavedLines(d);
    assert lines == [IntToText(|d|)] + EncodeUsers(d, d.Keys) + [];
    EncodedUsersDecode(lines, [IntToText(|d|)], d, d.Keys, []);
    ReadDecodedUsers(lines, 1, d, d.Keys, map[]);
    UsersWithinAll(d);
  }

  /**
   * Two consecutive records with the same identifier, anywhere in a counted
   * run of at least two: the earlier one leaves no trace, and the rest of the
   * run reads as if only the later one had been stored.
   */
  lemma LaterDuplicateWins(lines: seq<string>, pos: nat, n: int, acc: map<int, UserRecord>)
    requires n >= 2
    requires DecodeUser(lines, pos, map[]).Some?
    requires var mid := DecodeUser(lines, pos, map[]).value.1;
      DecodeUser(lines, mid, map[]).Some?
      && DecodeUser(lines, mid, map[]).value.0.id == DecodeUser(lines, pos, map[]).value.0.id
    ensures var mid := DecodeUser(lines, pos, map[]).value.1;
      var second := DecodeUser(lines, mid, map[]).value;
      ReadUsers(lines, pos, n, acc) == ReadUsers(lines, second.1, n - 2, acc[second.0.id := second.0])
  {
    var first := DecodeUser(lines, pos, map[]).value;
    var second := DecodeUser(lines, first.1, map[]).value;
    assert ReadUsers(lines, pos, n, acc) == ReadUsers(lines, first.1, n - 1, acc[first.0.id := first.0]);
    assert ReadUsers(lines, first.1, n - 1, acc[first.0.id := first.0])
        == ReadUsers(lines, second.1, n - 2, acc[first.0.id := first.0][second.0.id := second.0]);
    assert acc[first.0.id := first.0][second.0.id := second.0] == acc[second.0.id := second.0];
  }

  // ----- The directory object -----

  /** One `FinanceManager` object; the map holds the `User` objects themselves. */
  class FinanceManager {
    var users: map<int, User>

    /** Every user object is stored under its own identifier and keeps its map keyed by identifier. */
    ghost predicate Valid()
      reads this, users.Values
    {
      forall k :: k in users ==> users[k].id == k && users[k].Valid()
    }

    /** The state of every stored user, as values. */
    ghost function Records(): (d: map<int, UserRecord>)
      reads this, users.Values
      ensures d.Keys == users.Keys
    {
      map k | k in users :: users[k].Snapshot()
    }

    /** `FinanceManager()`: an empty directory, then `loadData`. */
    constructor (file: Option<string>)
      ensures Valid()
      ensures Records() == LoadedUsers(file, map[])
      ensures forall u :: u in users.Values ==> fresh(u)
    {
      users := map[];
      new;
      LoadData(file);
    }

    /**
     * `loadData`: reads the counted user records of the file into fresh
     * blank users and stores each under its persisted identifier. The
     * identifier counters are not touched.
     */
    method LoadData(file: Option<string>)
      requires Valid()
      modifies this
      ensures Valid()
      ensures Records() == LoadedUsers(file, old(Records()))
      ensures forall u :: u in users.Values ==> u in old(users.Values) || fresh(u)
    {
      if file.None? {
        return;
      }
      var lines := SplitLines(file.value);
      if |lines| == 0 {
        return;
      }
      var count := ParseInt(lines[0]);
      if count.None? {
        return;
      }
      var n := count.value;
      ghost var target := LoadedUsers(file, old(Records()));
      // `left` counts the records the counted loop has still to read; `stored` is what it has stored.
      var left: int, pos: nat := n, 1;
      ghost var stored := Records();
      while 0 < left
        invariant Valid()
        invariant Records() == stored
        invariant target == ReadUsers(lines, pos, left, stored)
        invariant forall u :: u in users.Values ==> u in old(users.Values) || fresh(u)
        decreases left
      {
        var next := ReadOneUser(lines, pos);
        if next.None? {
          return;
        }
        ghost var u := DecodeUser(lines, pos, map[]).value.0;
        ReadUsersStep(lines, pos, left, stored, u, next.value);
        pos, left, stored := next.value, left - 1, stored[u.id := u];
      }
    }

    /**
     * One pass of the loop of `loadData`: a blank user reads one record from
     * line `pos` and is stored under its identifier. On a record that does not
     * parse this model stores nothing and the caller stops reading.
     */
    method ReadOneUser(lines: seq<string>, pos: nat) returns (next: Option<nat>)
      requires Valid()
      modifies this
      ensures Valid()
      ensures next.Some? <==> DecodeUser(lines, pos, map[]).Some?
      ensures next.None? ==> Records() == old(Records())
      ensures forall u :: u in users.Values ==> u in old(users.Values) || fresh(u)
      ensures next.Some? ==> next.value == DecodeUser(lines, pos, map[]).value.1
      ensures next.Some? ==>
        Records() == old(Records())[DecodeUser(lines, pos, map[]).value.0.id := DecodeUser(lines, pos, map[]).value.0]
    {
      var user := new User.Blank();
      next := user.ReadFrom(lines, pos);
      if next.Some? {
        Store(user);
      }
    }

    /** `users[user->getUserID()] = user`: stores the object under its identifier, replacing any user stored there. */
    method Store(user: User)
      requires Valid() && user.Valid()
      modifies this
      ensures Valid()
      ensures users == old(users)[user.id := user]
      ensures Records() == old(Records())[user.id := user.Snapshot()]
    {
      users := users[user.id := user];
    }

    /**
     * `saveData`: the number of users, then each user in ascending identifier
     * order. A file that cannot be opened (`writable` false) is left as it was.
     */
    method SaveData(file: Option<string>, writable: bool) returns (file': Option<string>)
      requires Valid()
      ensures file' == if writable then Some(JoinLines(EncodeDirectory(Records()))) else file
    {
      if !writable {
        return file;
      }
      ghost var d := Records();
      var out := [IntToText(|users|)];
      assert |users| == |d| by {
        assert users.Keys == d.Keys;
      }
      var remaining := users.Keys;
      while remaining != {}
        invariant remaining <= users.Keys
        invariant EncodeDirectory(d) == out + EncodeUsers(d, remaining)
        decreases remaining
      {
        MinExists(remaining);
        var k :| k in remaining && forall j :: j in remaining ==> k <= j;
        assert k == MinKey(remaining);
        ghost var rest := EncodeUsers(d, remaining - {k});
        assert EncodeUsers(d, remaining) == EncodeUser(d[k]) + rest;
        assert d[k] == users[k].Snapshot();
        ghost var before := out;
        out := users[k].WriteTo(out);
        ConcatAssoc(before, EncodeUser(d[k]), rest);
        remaining := remaining - {k};
      }
      assert out == EncodeDirectory(d);
      file' := Some(JoinLines(out));
    }

    /**
     * `addUser`: a new user with the next user identifier is stored under
     * that identifier (replacing a stored user only if the counter has fallen
     * behind), and the directory is saved.
     */
    method AddUser(name: string, ids: Counter, file: Option<string>, writable: bool) returns (file': Option<string>)
      requires Valid()
      modifies this, ids
      ensures Valid()
      ensures ids.last == old(ids.last) + 1
      ensures Records() == old(Records())[ids.last := UserRecord(ids.last, name, map[], 0, 0)]
      ensures (forall k :: k in old(users) ==> k <= old(ids.last)) ==>
        ids.last !in old(users) && |Records()| == |old(Records())| + 1
      ensures forall u :: u in users.Values ==> u in old(users.Values) || fresh(u)
      ensures file' == if writable then Some(JoinLines(EncodeDirectory(Records()))) else file
    {
      ghost var before := Records();
      var user := new User(name, ids);
      assert Records() == before;
      Store(user);
      file' := SaveData(file, writable);
    }

    /** Every stored user identifier is at most `lastUser`, every stored transaction identifier at most `lastTransaction`. */
    ghost predicate IdsBelow(lastUser: int, lastTransaction: int)
      reads this, users.Values
    {
      forall k :: k in users ==> k <= lastUser && IdsAtMost(users[k].transactions, lastTransaction)
    }

    /** The largest stored user and transaction identifiers, or the floors if none is larger. */
    method LargestIds(userFloor: int, transactionFloor: int) returns (maxUser: int, maxTransaction: int)
      requires Valid()
      ensures maxUser >= userFloor && maxTransaction >= transactionFloor
      ensures IdsBelow(maxUser, maxTransaction)
    {
      maxUser, maxTransaction := userFloor, transactionFloor;
      var remaining := users.Keys;
      while remaining != {}
        invariant remaining <= users.Keys
        invariant maxUser >= userFloor && maxTransaction >= transactionFloor
        invariant forall k :: k in users && k !in remaining ==>
          k <= maxUser && IdsAtMost(users[k].transactions, maxTransaction)
        decreases remaining
      {
        ElementExists(remaining);
        var k :| k in remaining;
        if k > maxUser {
          maxUser := k;
        }
        maxTransaction := users[k].MaxTransactionId(maxTransaction);
        remaining := remaining - {k};
      }
    }

    /**
     * `loadData` followed by what it leaves out: both counters are moved up
     * to the largest identifier stored (`setLastTransactionID`, and likewise
     * for users), so that identifiers handed out afterwards are fresh.
     */
    method LoadDataResumingIds(file: Option<string>, transactionIds: Counter, userIds: Counter)
      requires Valid() && transactionIds != userIds
      modifies this, transactionIds, userIds
      ensures Valid()
      ensures Records() == LoadedUsers(file, old(Records()))
      ensures transactionIds.last >= old(transactionIds.last) && userIds.last >= old(userIds.last)
      ensures IdsBelow(userIds.last, transactionIds.last)
      ensures forall u :: u in users.Values ==> u in old(users.Values) || fresh(u)
    {
      LoadData(file);
      ghost var loaded := Records();
      ResumeIds(transactionIds, userIds);
      assert Records() == loaded;
    }

    /** Moves both counters up to the largest identifiers stored; the directory itself is untouched. */
    method ResumeIds(transactionIds: Counter, userIds: Counter)
      requires Valid() && transactionIds != userIds
      modifies transactionIds, userIds
      ensures transactionIds.last >= old(transactionIds.last) && userIds.last >= old(userIds.last)
      ensures IdsBelow(userIds.last, transactionIds.last)
    {
      var maxUser, maxTransaction := LargestIds(userIds.last, transactionIds.last);
      transactionIds.Set(maxTransaction);
      userIds.Set(maxUser);
    }

    /** `getUser`: the stored user for a present identifier, null for an absent one. */
    function GetUser(id: int): (u: User?)
      requires Valid()
      reads this, users.Values
      ensures u != null <==> id in Records()
      ensures u != null ==> u.id == id && u.Valid() && u.Snapshot() == Records()[id]
      ensures u != null ==> u == users[id]
    {
      if id in users then users[id] else null
    }
  }
}
