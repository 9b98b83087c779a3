/** The order in which the planner ranks scored tasks: higher score first,
    then less effort, then the lower-cased title. Python's `list.sort` is a
    stable sort; here it is an insertion sort, proved to give a sorted
    permutation that keeps equal-key entries in their input order. */
module Ranking {
  import opened Text
  import opened Scoring

  /** One scored task: a task, its score and its breakdown. */
  datatype Scored = Scored(task: Task, score: real, breakdown: Breakdown)

  /** The sort key `(-score, effort_min, title.lower())`. */
  datatype SortKey = SortKey(negScore: real, effort: int, title: string)

  function KeyOf(e: Scored): SortKey {
    SortKey(-e.score, e.task.effortMin, Lower(e.task.title))
  }

  // ---------------------------------------------------------------------------
  // The order on keys
  // ---------------------------------------------------------------------------

  /** Python's `<` on strings: code point by code point, a proper prefix first. */
  predicate StrLess(a: string, b: string)
    decreases |a|
  {
    if a == [] then b != []
    else if b == [] then false
    else if a[0] != b[0] then a[0] < b[0]
    else StrLess(a[1..], b[1..])
  }

  /** Python's `<` on the key tuples. */
  predicate KeyLess(a: SortKey, b: SortKey) {
    a.negScore < b.negScore ||
    (a.negScore == b.negScore &&
      (a.effort < b.effort || (a.effort == b.effort && StrLess(a.title, b.title))))
  }

  lemma {:induction false} StrLessIrreflexive(a: string)
    ensures !StrLess(a, a)
    decreases |a|
  {
    if a != [] {
      StrLessIrreflexive(a[1..]);
    }
  }

  lemma {:induction false} StrLessTransitive(a: string, b: string, c: string)
    requires StrLess(a, b) && StrLess(b, c)
    ensures StrLess(a, c)
    decreases |a|
  {
    if a != [] && b != [] && c != [] && a[0] == b[0] && b[0] == c[0] {
      StrLessTransitive(a[1..], b[1..], c[1..]);
    }
  }

  lemma {:induction false} StrLessTotal(a: string, b: string)
    requires a != b
    ensures StrLess(a, b) || StrLess(b, a)
    decreases |a|
  {
    if a != [] && b != [] && a[0] == b[0] {
      assert a == [a[0]] + a[1..] && b == [b[0]] + b[1..];
      StrLessTotal(a[1..], b[1..]);
    }
  }

  /** The key order is a strict total order. */
  lemma KeyLessIrreflexive(a: SortKey)
    ensures !KeyLess(a, a)
  {
    StrLessIrreflexive(a.title);
  }

  lemma KeyLessTransitive(a: SortKey, b: SortKey, c: SortKey)
    requires KeyLess(a, b) && KeyLess(b, c)
    ensures KeyLess(a, c)
  {
    if a.negScore == b.negScore == c.negScore && a.effort == b.effort == c.effort {
      StrLessTransitive(a.title, b.title, c.title);
    }
  }

  lemma KeyLessTotal(a: SortKey, b: SortKey)
    requires a != b
    ensures KeyLess(a, b) || KeyLess(b, a)
  {
    if a.negScore == b.negScore && a.effort == b.effort {
      StrLessTotal(a.title, b.title);
    }
  }

  /** `a` may stand before `b`: `b`'s key is not smaller. */
  predicate Ranks(a: Scored, b: Scored) {
    !KeyLess(KeyOf(b), KeyOf(a))
  }

  lemma RanksTransitive(a: Scored, b: Scored, c: Scored)
    requires Ranks(a, b) && Ranks(b, c)
    ensures Ranks(a, c)
  {
    if KeyLess(KeyOf(c), KeyOf(a)) {
      if KeyOf(a) == KeyOf(b) {
      } else if KeyOf(b) == KeyOf(c) {
      } else {
        KeyLessTotal(KeyOf(a), KeyOf(b));
        KeyLessTotal(KeyOf(b), KeyOf(c));
        KeyLessTransitive(KeyOf(a), KeyOf(b), KeyOf(c));
        KeyLessTransitive(KeyOf(c), KeyOf(a), KeyOf(b));
      }
    }
  }

  /** Every entry ranks no lower than every later one. */
  predicate Sorted(s: seq<Scored>) {
    forall i, j :: 0 <= i < j < |s| ==> Ranks(s[i], s[j])
  }

  /** In a sorted list an earlier entry has a score at least as high; on equal
      scores, no more effort; on equal effort too, a lower-cased title that is
      not greater. */
  lemma SortedFieldOrder(s: seq<Scored>, i: int, j: int)
    requires Sorted(s) && 0 <= i < j < |s|
    ensures s[i].score >= s[j].score
    ensures s[i].score == s[j].score ==> s[i].task.effortMin <= s[j].task.effortMin
    ensures s[i].score == s[j].score && s[i].task.effortMin == s[j].task.effortMin ==>
      !StrLess(Lower(s[j].task.title), Lower(s[i].task.title))
  {
    assert Ranks(s[i], s[j]);
  }

  /** The entries whose key is `k`, in their order in `s`. */
  function WithKey(s: seq<Scored>, k: SortKey): (r: seq<Scored>)
    ensures forall e :: e in r <==> e in s && KeyOf(e) == k
    decreases |s|
  {
    if s == [] then []
    else (if KeyOf(s[0]) == k then [s[0]] else []) + WithKey(s[1..], k)
  }

  // ---------------------------------------------------------------------------
  // The stable sort
  // ---------------------------------------------------------------------------

  /** Put `x` before the first entry whose key is not smaller than its own. */
  function Insert(x: Scored, s: seq<Scored>): (r: seq<Scored>)
    ensures multiset(r) == multiset(s) + multiset{x}
    decreases |s|
  {
    if s == [] || !KeyLess(KeyOf(s[0]), KeyOf(x)) then [x] + s
    else
      assert s == [s[0]] + s[1..];
      [s[0]] + Insert(x, s[1..])
  }

  /** The ranking of the scored tasks: a sorted permutation of the input. */
  function SortByPriority(s: seq<Scored>): (r: seq<Scored>)
    ensures multiset(r) == multiset(s) && |r| == |s|
    ensures Sorted(r)
    decreases |s|
  {
    if s == [] then []
    else
      var rest := SortByPriority(s[1..]);
      InsertSorted(s[0], rest);
      assert s == [s[0]] + s[1..];
      Insert(s[0], rest)
  }

  lemma {:induction false} InsertSorted(x: Scored, s: seq<Scored>)
    requires Sorted(s)
    ensures Sorted(Insert(x, s))
    decreases |s|
  {
    if s == [] || !KeyLess(KeyOf(s[0]), KeyOf(x)) {
      var r := [x] + s;
      forall i, j | 0 <= i < j < |r| ensures Ranks(r[i], r[j]) {
        if i == 0 {
          if j > 1 {
            assert Ranks(s[0], s[j - 1]);
            RanksTransitive(x, s[0], s[j - 1]);
          }
        }
      }
    } else {
      InsertSorted(x, s[1..]);
      var t := Insert(x, s[1..]);
      var r := [s[0]] + t;
      assert Ranks(s[0], x) by {
        KeyLessTransitiveAsym(KeyOf(s[0]), KeyOf(x));
      }
      forall i, j | 0 <= i < j < |r| ensures Ranks(r[i], r[j]) {
        if i == 0 {
          var y := r[j];
          assert y in multiset(t);
          assert y == x || y in multiset(s[1..]);
          if y != x {
            assert y in s[1..];
            var k :| 0 <= k < |s[1..]| && s[1..][k] == y;
            assert Ranks(s[0], s[k + 1]);
          }
        }
      }
    }
  }

  lemma KeyLessTransitiveAsym(a: SortKey, b: SortKey)
    requires KeyLess(a, b)
    ensures !KeyLess(b, a)
  {
    if KeyLess(b, a) {
      KeyLessTransitive(a, b, a);
      KeyLessIrreflexive(a);
    }
  }

  /** Insertion keeps the entries of every key in order, `x` first among its own. */
  lemma {:induction false} InsertWithKey(x: Scored, s: seq<Scored>, k: SortKey)
    ensures WithKey(Insert(x, s), k) == (if KeyOf(x) == k then [x] else []) + WithKey(s, k)
    decreases |s|
  {
    if s == [] || !KeyLess(KeyOf(s[0]), KeyOf(x)) {
      var r := [x] + s;
      assert r[0] == x && r[1..] == s;
    } else {
      InsertWithKey(x, s[1..], k);
      var t := Insert(x, s[1..]);
      var r := [s[0]] + t;
      assert r[0] == s[0] && r[1..] == t;
      assert WithKey(r, k) == (if KeyOf(s[0]) == k then [s[0]] else []) + WithKey(t, k);
      if KeyOf(x) == k {
        KeyLessIrreflexive(k);
        assert KeyOf(s[0]) != k;
      }
    }
  }

  /** Stability: the sort keeps the entries of every key in their input order. */
  lemma {:induction false} SortStable(s: seq<Scored>, k: SortKey)
    ensures WithKey(SortByPriority(s), k) == WithKey(s, k)
    decreases |s|
  {
    if s != [] {
      SortStable(s[1..], k);
      InsertWithKey(s[0], SortByPriority(s[1..]), k);
    }
  }

  lemma SortedTail(s: seq<Scored>)
    requires Sorted(s) && s != []
    ensures Sorted(s[1..])
  {
    forall i, j | 0 <= i < j < |s| - 1 ensures Ranks(s[1..][i], s[1..][j]) {
      assert s[1..][i] == s[i + 1] && s[1..][j] == s[j + 1];
    }
  }

  /** The head of a sorted list ranks no lower than any of its entries. */
  lemma SortedHeadRanks(s: seq<Scored>, e: Scored)
    requires Sorted(s) && e in s
    ensures Ranks(s[0], e)
  {
    var j :| 0 <= j < |s| && s[j] == e;
    if j != 0 {
      assert Ranks(s[0], s[j]);
    } else {
      KeyLessIrreflexive(KeyOf(e));
    }
  }

  lemma KeyTrichotomy(a: SortKey, b: SortKey)
    ensures a == b || KeyLess(a, b) || KeyLess(b, a)
  {
    if a != b {
      KeyLessTotal(a, b);
    }
  }

  /** Two sorted lists that hold the same entries of every key in the same
      order are equal. */
  lemma {:induction false} SortedStableUnique(a: seq<Scored>, b: seq<Scored>)
    requires Sorted(a) && Sorted(b)
    requires forall k :: WithKey(a, k) == WithKey(b, k)
    ensures a == b
    decreases |a|
  {
    assert a != [] ==> a[0] in WithKey(b, KeyOf(a[0]));
    assert b != [] ==> b[0] in WithKey(a, KeyOf(b[0]));
    if a != [] && b != [] {
      var ka, kb := KeyOf(a[0]), KeyOf(b[0]);
      SortedHeadRanks(b, a[0]);
      SortedHeadRanks(a, b[0]);
      KeyTrichotomy(ka, kb);
      assert ka == kb;
      assert WithKey(a, ka) == [a[0]] + WithKey(a[1..], ka);
      assert WithKey(b, ka) == [b[0]] + WithKey(b[1..], ka);
      assert a[0] == WithKey(a, ka)[0] == WithKey(b, ka)[0] == b[0];
      forall k ensures WithKey(a[1..], k) == WithKey(b[1..], k) {
        if k == ka {
          assert WithKey(a[1..], k) == WithKey(a, k)[1..];
          assert WithKey(b[1..], k) == WithKey(b, k)[1..];
        } else {
          assert WithKey(a, k) == WithKey(a[1..], k);
          assert WithKey(b, k) == WithKey(b[1..], k);
        }
      }
      SortedTail(a);
      SortedTail(b);
      SortedStableUnique(a[1..], b[1..]);
      assert a == [a[0]] + a[1..] && b == [b[0]] + b[1..];
    }
  }

  /** Any stable sort by this key, Python's `list.sort` among them, gives
      exactly this ranking: a sorted list that keeps the entries of every key
      in their input order is the one `SortByPriority` returns. */
  lemma StableSortIsUnique(s: seq<Scored>, r: seq<Scored>)
    requires Sorted(r)
    requires forall k :: WithKey(r, k) == WithKey(s, k)
    ensures r == SortByPriority(s)
  {
    forall k ensures WithKey(r, k) == WithKey(SortByPriority(s), k) {
      SortStable(s, k);
    }
    SortedStableUnique(r, SortByPriority(s));
  }
}
