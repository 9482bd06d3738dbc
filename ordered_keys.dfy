/**
 * The program keeps its transactions and users in `std::map<long, ...>`,
 * which is iterated in ascending key order. This module gives that order as a
 * sequence of keys and the facts about maps rebuilt key by key.
 */
module OrderedKeys {

  lemma ElementExists(s: set<int>)
    requires s != {}
    ensures exists x :: x in s
  {
    if forall x :: x !in s {
      assert false;
    }
  }

  lemma {:induction false} MinExists(s: set<int>)
    requires s != {}
    ensures exists k :: k in s && forall j :: j in s ==> k <= j
    decreases s
  {
    ElementExists(s);
    var x :| x in s;
    if s != {x} {
      MinExists(s - {x});
      var m :| m in s - {x} && forall j :: j in s - {x} ==> m <= j;
      var least := if x < m then x else m;
      forall j | j in s ensures least <= j {
        if j != x {
          assert j in s - {x};
        }
      }
    }
  }

  /** The smallest key of a non-empty set of keys. */
  ghost function MinKey(s: set<int>): (k: int)
    requires s != {}
    ensures k in s && forall j :: j in s ==> k <= j
  {
    MinExists(s);
    var k :| k in s && forall j :: j in s ==> k <= j; k
  }

  ghost predicate StrictlyIncreasing(ks: seq<int>) {
    forall i, j :: 0 <= i < j < |ks| ==> ks[i] < ks[j]
  }

  /** The keys of `s` in the order a `std::map` visits them: ascending, each once. */
  ghost function SortedKeys(s: set<int>): (ks: seq<int>)
    ensures |ks| == |s|
    ensures forall k :: k in ks <==> k in s
    ensures StrictlyIncreasing(ks)
    decreases s
  {
    if s == {} then []
    else
      var k := MinKey(s);
      var rest := SortedKeys(s - {k});
      assert forall i :: 0 <= i < |rest| ==> k < rest[i] by {
        forall i | 0 <= i < |rest| ensures k < rest[i] {
          assert rest[i] in s - {k};
        }
      }
      [k] + rest
  }

  /** The part of `m` under the keys `s`. */
  function Within<V>(m: map<int, V>, s: set<int>): (r: map<int, V>)
    ensures r.Keys == m.Keys * s
    ensures forall k :: k in r ==> r[k] == m[k]
  {
    map k | k in m && k in s :: m[k]
  }

  /** Storing the smallest key's entry, then the others', is storing all of them. */
  lemma WithinStep<V>(acc: map<int, V>, m: map<int, V>, s: set<int>, k: int)
    requires k in s && s <= m.Keys
    ensures acc[k := m[k]] + Within(m, s - {k}) == acc + Within(m, s)
  {
  }
}
