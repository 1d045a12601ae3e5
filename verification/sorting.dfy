/** `ORDER BY` on a text column, as the build script's queries use it: ascending string
    order with NULL first, rows with equal keys left in their incoming order. */
module Sorting {
  import opened Js

  /** SQLite's ascending order on a nullable text column. */
  predicate NullsFirstLe(a: Field, b: Field) {
    a.None? || (b.Some? && !Less(b.value, a.value))
  }

  lemma NullsFirstTotal(a: Field, b: Field)
    ensures NullsFirstLe(a, b) || NullsFirstLe(b, a)
  {
    if a.Some? && b.Some? && Less(b.value, a.value) {
      LessAsymmetric(b.value, a.value);
    }
  }

  lemma NullsFirstTransitive(a: Field, b: Field, c: Field)
    requires NullsFirstLe(a, b) && NullsFirstLe(b, c)
    ensures NullsFirstLe(a, c)
  {
    if a.Some? && Less(c.value, a.value) {
      LessTotal(c.value, b.value);
      if Less(b.value, c.value) {
        LessTransitive(b.value, c.value, a.value);
      }
    }
  }

  predicate SortedBy<T>(s: seq<T>, key: T -> Field) {
    forall i, j :: 0 <= i < j < |s| ==> NullsFirstLe(key(s[i]), key(s[j]))
  }

  /** Puts `x` after every element whose key is not greater than its own. */
  function InsertBy<T>(x: T, s: seq<T>, key: T -> Field): (r: seq<T>)
    requires SortedBy(s, key)
    ensures SortedBy(r, key)
    ensures multiset(r) == multiset(s) + multiset{x}
    ensures |r| == |s| + 1
  {
    if |s| == 0 then [x]
    else if !NullsFirstLe(key(s[0]), key(x)) then
      assert SortedBy([x] + s, key) by {
        NullsFirstTotal(key(s[0]), key(x));
        forall j | 0 <= j < |s| ensures NullsFirstLe(key(x), key(s[j])) {
          if j > 0 { NullsFirstTransitive(key(x), key(s[0]), key(s[j])); }
        }
      }
      assert multiset([x] + s) == multiset(s) + multiset{x};
      [x] + s
    else
      var rest := InsertBy(x, s[1..], key);
      assert s == [s[0]] + s[1..];
      assert SortedBy([s[0]] + rest, key) by {
        forall j | 0 <= j < |rest| ensures NullsFirstLe(key(s[0]), key(rest[j])) {
          assert rest[j] in multiset(rest);
          assert rest[j] == x || rest[j] in multiset(s[1..]);
          if rest[j] != x {
            var k :| 0 <= k < |s[1..]| && s[1..][k] == rest[j];
            assert s[k + 1] == rest[j];
          }
        }
      }
      assert multiset([s[0]] + rest) == multiset{s[0]} + multiset(rest);
      [s[0]] + rest
  }

  /** Insertion sort: ordered by key, and a permutation of its input. */
  function SortBy<T>(s: seq<T>, key: T -> Field): (r: seq<T>)
    ensures SortedBy(r, key)
    ensures multiset(r) == multiset(s)
    ensures |r| == |s|
  {
    if |s| == 0 then []
    else
      assert s == s[..|s| - 1] + [s[|s| - 1]];
      InsertBy(s[|s| - 1], SortBy(s[..|s| - 1], key), key)
  }
}
