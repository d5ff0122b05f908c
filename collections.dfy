// List and table building blocks shared by the stores, the repositories and
// the screens: Kotlin's filter / sumOf, SQL's WHERE / SUM / ORDER BY, and the
// row replacement that Room's REPLACE insert and @Update perform.
module Collections {
  import opened Wrappers
  import opened Text

  // ---- Filtering ----

  /** List.filter(p), and the rows a SQL WHERE p keeps. */
  function Filter<T(!new)>(s: seq<T>, p: T -> bool): (r: seq<T>)
    ensures |r| <= |s|
    ensures forall x :: x in r <==> x in s && p(x)
    ensures forall i :: 0 <= i < |r| ==> p(r[i])
    ensures (forall i :: 0 <= i < |s| ==> p(s[i])) ==> r == s
    ensures r == [] <==> forall i :: 0 <= i < |s| ==> !p(s[i])
  {
    if s == [] then []
    else if p(s[0]) then [s[0]] + Filter(s[1..], p)
    else Filter(s[1..], p)
  }

  /** r lists some of the elements of s, in the order they have in s. */
  predicate IsSubsequence<T(==)>(r: seq<T>, s: seq<T>)
    decreases |s|
  {
    r == [] || (s != [] && ((r[0] == s[0] && IsSubsequence(r[1..], s[1..])) || IsSubsequence(r, s[1..])))
  }

  /** Filtering keeps the surviving elements in their original relative order. */
  lemma {:induction false} FilterIsSubsequence<T(!new)>(s: seq<T>, p: T -> bool)
    ensures IsSubsequence(Filter(s, p), s)
    decreases |s|
  {
    if s != [] {
      FilterIsSubsequence(s[1..], p);
      if p(s[0]) {
        assert Filter(s, p)[1..] == Filter(s[1..], p);
      }
    }
  }

  /** Two filters in a row keep exactly what one filter by both conditions keeps. */
  lemma {:induction false} FilterTwice<T(!new)>(s: seq<T>, p: T -> bool, q: T -> bool, both: T -> bool)
    requires forall x :: both(x) == (p(x) && q(x))
    ensures Filter(Filter(s, p), q) == Filter(s, both)
    decreases |s|
  {
    if s != [] {
      FilterTwice(s[1..], p, q, both);
      if p(s[0]) {
        assert Filter(s, p) == [s[0]] + Filter(s[1..], p);
        assert Filter(s, p)[1..] == Filter(s[1..], p);
      }
    }
  }

  /** Filters that agree on every element of s give the same list. */
  lemma {:induction false} FilterCongruent<T(!new)>(s: seq<T>, p: T -> bool, q: T -> bool)
    requires forall i :: 0 <= i < |s| ==> p(s[i]) == q(s[i])
    ensures Filter(s, p) == Filter(s, q)
    decreases |s|
  {
    if s != [] {
      FilterCongruent(s[1..], p, q);
    }
  }

  /** Filtering a concatenation filters each part. */
  lemma {:induction false} FilterAppend<T(!new)>(a: seq<T>, b: seq<T>, p: T -> bool)
    ensures Filter(a + b, p) == Filter(a, p) + Filter(b, p)
    decreases |a|
  {
    if a == [] {
      assert a + b == b;
    } else {
      assert (a + b)[1..] == a[1..] + b;
      FilterAppend(a[1..], b, p);
    }
  }

  /**
   * Replacing rows that p rejects, by rows p still rejects, does not change
   * what a filter by p keeps.
   */
  lemma {:induction false} FilterPointwise<T(!new)>(rows: seq<T>, out: seq<T>, p: T -> bool)
    requires |out| == |rows|
    requires forall i :: 0 <= i < |rows| ==> p(out[i]) == p(rows[i])
    requires forall i :: 0 <= i < |rows| && p(rows[i]) ==> out[i] == rows[i]
    ensures Filter(out, p) == Filter(rows, p)
    decreases |rows|
  {
    if rows != [] {
      FilterPointwise(rows[1..], out[1..], p);
    }
  }

  /** Filtering keeps each element that passes exactly as often as it occurs, and no other. */
  lemma {:induction false} FilterMultiset<T(!new)>(s: seq<T>, p: T -> bool)
    ensures forall x :: multiset(Filter(s, p))[x] == if p(x) then multiset(s)[x] else 0
  {
    if s != [] {
      FilterMultiset(s[1..], p);
      assert s == [s[0]] + s[1..];
    }
  }

  /**
   * List.filter with a predicate that may throw: the whole filter fails with
   * the first failure in list order, and otherwise keeps the elements the
   * predicate accepts, in order.
   */
  function TryFilter<T(!new), E>(s: seq<T>, keep: T -> Result<bool, E>): (r: Result<seq<T>, E>)
    ensures r.Err? <==> exists i :: 0 <= i < |s| && keep(s[i]).Err?
    ensures r.Err? ==> exists i :: 0 <= i < |s| && keep(s[i]) == Err(r.error) && forall j :: 0 <= j < i ==> keep(s[j]).Ok?
    ensures r.Ok? ==> IsSubsequence(r.value, s)
    ensures r.Ok? ==> forall x :: x in r.value <==> x in s && keep(x).Ok? && keep(x).value
    decreases |s|
  {
    if s == [] then Ok([])
    else match keep(s[0])
      case Err(e) => Err(e)
      case Ok(b) =>
        var rest := TryFilter(s[1..], keep);
        assert forall i :: 0 < i < |s| ==> s[i] == s[1..][i - 1];
        assert rest.Err? ==> exists i :: 0 <= i < |s| && keep(s[i]).Err? by {
          if rest.Err? {
            var i :| 0 <= i < |s| - 1 && keep(s[1..][i]).Err?;
            assert keep(s[i + 1]).Err?;
          }
        }
        match rest
        case Err(e) =>
          assert exists i :: 0 <= i < |s| && keep(s[i]) == Err(e) && forall j :: 0 <= j < i ==> keep(s[j]).Ok? by {
            var i :| 0 <= i < |s| - 1 && keep(s[1..][i]) == Err(e) && forall j :: 0 <= j < i ==> keep(s[1..][j]).Ok?;
            assert keep(s[i + 1]) == Err(e);
            forall j | 0 <= j < i + 1 ensures keep(s[j]).Ok? {
              if j > 0 {
                assert s[j] == s[1..][j - 1];
              }
            }
          }
          Err(e)
        case Ok(kept) =>
          assert s == [s[0]] + s[1..];
          Ok(if b then [s[0]] + kept else kept)
  }

  /** A predicate that never fails filters as the plain filter does. */
  lemma {:induction false} TryFilterTotal<T(!new), E>(s: seq<T>, keep: T -> Result<bool, E>, p: T -> bool)
    requires forall x :: keep(x) == Ok(p(x))
    ensures TryFilter(s, keep) == Ok(Filter(s, p))
    decreases |s|
  {
    if s != [] {
      TryFilterTotal(s[1..], keep, p);
    }
  }

  /** Predicates that agree on every element filter alike. */
  lemma {:induction false} TryFilterCongruent<T(!new), E>(s: seq<T>, k1: T -> Result<bool, E>, k2: T -> Result<bool, E>)
    requires forall x :: k1(x) == k2(x)
    ensures TryFilter(s, k1) == TryFilter(s, k2)
    decreases |s|
  {
    if s != [] {
      TryFilterCongruent(s[1..], k1, k2);
    }
  }

  /** SQL COUNT(*) ... WHERE p. */
  function Count<T(!new)>(s: seq<T>, p: T -> bool): (n: nat)
    ensures n <= |s|
  {
    |Filter(s, p)|
  }

  /** Rows in another order give the same COUNT. */
  lemma CountPermutation<T(!new)>(a: seq<T>, b: seq<T>, p: T -> bool)
    requires multiset(a) == multiset(b)
    ensures Count(a, p) == Count(b, p)
  {
    FilterMultiset(a, p);
    FilterMultiset(b, p);
    assert multiset(Filter(a, p)) == multiset(Filter(b, p));
    assert |Filter(a, p)| == |multiset(Filter(a, p))|;
    assert |Filter(b, p)| == |multiset(Filter(b, p))|;
  }

  // ---- Sums ----

  /** The exact sum of amount over s, accumulated from the front as `sumOf` and the report loops do. */
  function Sum<T>(s: seq<T>, amount: T -> real): real
  {
    if s == [] then 0.0 else Sum(s[..|s| - 1], amount) + amount(s[|s| - 1])
  }

  /** Summing a concatenation adds the two sums. */
  lemma {:induction false} SumAppend<T>(a: seq<T>, b: seq<T>, amount: T -> real)
    ensures Sum(a + b, amount) == Sum(a, amount) + Sum(b, amount)
    decreases |b|
  {
    if b == [] {
      assert a + b == a;
    } else {
      assert (a + b)[..|a + b| - 1] == a + b[..|b| - 1];
      SumAppend(a, b[..|b| - 1], amount);
    }
  }

  /** SQL SUM(amount): NULL over no rows, the sum otherwise. */
  function SqlSum<T>(s: seq<T>, amount: T -> real): (r: Option<real>)
    ensures r.None? <==> s == []
  {
    if s == [] then None else Some(Sum(s, amount))
  }

  /** A sum does not depend on the order of the rows: SQL SUM and a list's sumOf agree. */
  lemma {:induction false} SumPermutation<T>(a: seq<T>, b: seq<T>, amount: T -> real)
    requires multiset(a) == multiset(b)
    ensures Sum(a, amount) == Sum(b, amount)
    decreases |a|
  {
    if a != [] {
      var x := a[|a| - 1];
      var front := a[..|a| - 1];
      assert a == front + [x];
      assert x in multiset(b);
      var k :| 0 <= k < |b| && b[k] == x;
      assert b == b[..k] + [x] + b[k + 1..];
      var rest := b[..k] + b[k + 1..];
      assert multiset(a) == multiset(front) + multiset{x};
      assert multiset(b) == multiset(rest) + multiset{x};
      assert multiset(front) == multiset(a) - multiset{x} == multiset(rest);
      SumPermutation(front, rest, amount);
      SumAppend(b[..k] + [x], b[k + 1..], amount);
      SumAppend(b[..k], [x], amount);
      SumAppend(b[..k], b[k + 1..], amount);
      assert Sum([x], amount) == amount(x) by {
        assert [x][..0] == [];
      }
    }
  }

  /** A total of non-negative amounts is non-negative. */
  lemma {:induction false} SumOfNonNegative<T>(s: seq<T>, amount: T -> real)
    requires forall i :: 0 <= i < |s| ==> amount(s[i]) >= 0.0
    ensures Sum(s, amount) >= 0.0
    decreases |s|
  {
    if s != [] {
      SumOfNonNegative(s[..|s| - 1], amount);
    }
  }

  // ---- Ordering ----

  /** key a comes no later than key b in ascending or descending ORDER BY. */
  predicate KeyInOrder(a: string, b: string, descending: bool)
  {
    if descending then StrLe(b, a) else StrLe(a, b)
  }

  /** s is ordered by key (ties in any order). */
  predicate SortedBy<T>(s: seq<T>, key: T -> string, descending: bool)
  {
    forall i, j :: 0 <= i < j < |s| ==> KeyInOrder(key(s[i]), key(s[j]), descending)
  }

  lemma KeyOrderTotal(a: string, b: string, descending: bool)
    ensures KeyInOrder(a, b, descending) || KeyInOrder(b, a, descending)
  {
    StrLtTotal(a, b);
  }

  lemma KeyOrderTransitive(a: string, b: string, c: string, descending: bool)
    requires KeyInOrder(a, b, descending) && KeyInOrder(b, c, descending)
    ensures KeyInOrder(a, c, descending)
  {
    if a != b && b != c {
      if descending {
        StrLtTransitive(c, b, a);
      } else {
        StrLtTransitive(a, b, c);
      }
    }
  }

  function InsertSorted<T>(x: T, s: seq<T>, key: T -> string, descending: bool): (r: seq<T>)
    requires SortedBy(s, key, descending)
    ensures SortedBy(r, key, descending)
    ensures multiset(r) == multiset(s) + multiset{x}
  {
    if s == [] then [x]
    else if KeyInOrder(key(x), key(s[0]), descending) then
      assert forall j :: 0 < j < |s| ==> KeyInOrder(key(x), key(s[j]), descending) by {
        forall j | 0 < j < |s| ensures KeyInOrder(key(x), key(s[j]), descending) {
          KeyOrderTransitive(key(x), key(s[0]), key(s[j]), descending);
        }
      }
      [x] + s
    else
      KeyOrderTotal(key(x), key(s[0]), descending);
      var tail := InsertSorted(x, s[1..], key, descending);
      assert s == [s[0]] + s[1..];
      assert forall y :: y in tail ==> y == x || y in s[1..] by {
        forall y | y in tail ensures y == x || y in s[1..] {
          assert y in multiset(tail);
        }
      }
      var r := [s[0]] + tail;
      assert forall j :: 0 < j < |r| ==> KeyInOrder(key(s[0]), key(r[j]), descending) by {
        forall j | 0 < j < |r| ensures KeyInOrder(key(s[0]), key(r[j]), descending) {
          assert r[j] in tail;
        }
      }
      r
  }

  /** ORDER BY key: the same rows, arranged by key. */
  function SortBy<T>(s: seq<T>, key: T -> string, descending: bool): (r: seq<T>)
    ensures SortedBy(r, key, descending)
    ensures multiset(r) == multiset(s)
  {
    if s == [] then []
    else
      assert s == [s[0]] + s[1..];
      InsertSorted(s[0], SortBy(s[1..], key, descending), key, descending)
  }

  /** Filtering an ordered list keeps it ordered. */
  lemma {:induction false} FilterKeepsSorted<T(!new)>(s: seq<T>, p: T -> bool, key: T -> string, descending: bool)
    requires SortedBy(s, key, descending)
    ensures SortedBy(Filter(s, p), key, descending)
    decreases |s|
  {
    if s != [] {
      var t := Filter(s[1..], p);
      FilterKeepsSorted(s[1..], p, key, descending);
      if p(s[0]) {
        forall j | 0 <= j < |t| ensures KeyInOrder(key(s[0]), key(t[j]), descending) {
          assert t[j] in s[1..];
          var k :| 0 <= k < |s[1..]| && s[1..][k] == t[j];
          assert s[k + 1] == t[j];
        }
        assert Filter(s, p) == [s[0]] + t;
      }
    }
  }

  /**
   * SELECT ... WHERE p ORDER BY key: exactly the rows satisfying p, each as
   * often as it is stored, arranged by key.
   */
  function Select<T(!new)>(rows: seq<T>, p: T -> bool, key: T -> string, descending: bool): (r: seq<T>)
    ensures SortedBy(r, key, descending)
    ensures multiset(r) == multiset(Filter(rows, p))
    ensures forall x :: multiset(r)[x] == if p(x) then multiset(rows)[x] else 0
    ensures forall x :: x in r <==> x in rows && p(x)
  {
    var r := SortBy(Filter(rows, p), key, descending);
    FilterMultiset(rows, p);
    assert forall x :: x in r <==> x in multiset(Filter(rows, p));
    r
  }

  /** SQL SUM over the rows a WHERE keeps equals the sum over the ordered SELECT of the same rows. */
  lemma SumOfSelect<T(!new)>(rows: seq<T>, p: T -> bool, key: T -> string, descending: bool, amount: T -> real)
    ensures SqlSum(Filter(rows, p), amount) == SqlSum(Select(rows, p, key, descending), amount)
  {
    var listed := Select(rows, p, key, descending);
    var filtered := Filter(rows, p);
    SumPermutation(filtered, listed, amount);
    assert |filtered| == |multiset(filtered)| == |multiset(listed)| == |listed|;
  }

  // ---- Rows with primary keys ----

  /** No two rows share a primary key. */
  predicate UniqueIds<T>(rows: seq<T>, id: T -> int)
  {
    forall i, j :: 0 <= i < j < |rows| ==> id(rows[i]) != id(rows[j])
  }

  /** A row whose key no other row has can go in front of unique rows. */
  lemma UniqueCons<T>(x: T, s: seq<T>, id: T -> int)
    requires UniqueIds(s, id)
    requires forall y :: y in s ==> id(y) != id(x)
    ensures UniqueIds([x] + s, id)
  {
    var r := [x] + s;
    forall i, j | 0 <= i < j < |r| ensures id(r[i]) != id(r[j]) {
      assert r[j] == s[j - 1];
      if i > 0 {
        assert r[i] == s[i - 1];
      }
    }
  }

  predicate HasId<T>(rows: seq<T>, k: int, id: T -> int)
  {
    exists i :: 0 <= i < |rows| && id(rows[i]) == k
  }

  /** The row stored under key k, as `SELECT * ... WHERE id = :k` returns it. */
  function FindById<T>(rows: seq<T>, k: int, id: T -> int): (r: Option<T>)
    ensures r.None? <==> !HasId(rows, k, id)
    ensures r.Some? ==> r.value in rows && id(r.value) == k
  {
    if rows == [] then None
    else if id(rows[0]) == k then Some(rows[0])
    else
      var r := FindById(rows[1..], k, id);
      assert HasId(rows[1..], k, id) <==> HasId(rows, k, id) by {
        if HasId(rows, k, id) {
          var i :| 0 <= i < |rows| && id(rows[i]) == k;
          assert id(rows[1..][i - 1]) == k;
        }
      }
      r
  }

  /** Every row whose key is id(r) replaced by r, in place; the others untouched. */
  function ReplaceById<T>(rows: seq<T>, r: T, id: T -> int): (out: seq<T>)
    ensures |out| == |rows|
    ensures forall i :: 0 <= i < |rows| ==> out[i] == if id(rows[i]) == id(r) then r else rows[i]
  {
    if rows == [] then []
    else [if id(rows[0]) == id(r) then r else rows[0]] + ReplaceById(rows[1..], r, id)
  }

  /**
   * INSERT OR REPLACE of a row with a given key: the stored row with that key
   * is overwritten where it stands; a new key is appended.
   */
  function Upsert<T>(rows: seq<T>, r: T, id: T -> int): seq<T>
  {
    if HasId(rows, id(r), id) then ReplaceById(rows, r, id) else rows + [r]
  }

  /** Replacing by key keeps the keys, so it keeps them unique. */
  lemma UpsertKeepsUnique<T>(rows: seq<T>, r: T, id: T -> int)
    requires UniqueIds(rows, id)
    ensures UniqueIds(Upsert(rows, r, id), id)
    ensures forall x :: x in Upsert(rows, r, id) <==> x == r || (x in rows && id(x) != id(r))
  {
    var out := Upsert(rows, r, id);
    if HasId(rows, id(r), id) {
      var k :| 0 <= k < |rows| && id(rows[k]) == id(r);
      assert out[k] == r;
      forall x | x in rows && id(x) != id(r) ensures x in out {
        var i :| 0 <= i < |rows| && rows[i] == x;
        assert out[i] == x;
      }
    } else {
      forall x | x in rows ensures id(x) != id(r) {
        var i :| 0 <= i < |rows| && rows[i] == x;
      }
    }
  }

  /** Room @Update: the row with r's key becomes r; nothing happens when no row has that key. */
  function UpdateById<T>(rows: seq<T>, r: T, id: T -> int): (out: seq<T>)
    ensures !HasId(rows, id(r), id) ==> out == rows
    ensures |out| == |rows|
    ensures out == ReplaceById(rows, r, id)
  {
    if HasId(rows, id(r), id) then ReplaceById(rows, r, id)
    else
      assert forall i :: 0 <= i < |rows| ==> id(rows[i]) != id(r);
      assert ReplaceById(rows, r, id) == rows;
      rows
  }

  /** A second @Update with the same row changes nothing more. */
  lemma UpdateIdempotent<T>(rows: seq<T>, r: T, id: T -> int)
    ensures UpdateById(UpdateById(rows, r, id), r, id) == UpdateById(rows, r, id)
  {
    var once := UpdateById(rows, r, id);
    if HasId(rows, id(r), id) {
      var k :| 0 <= k < |rows| && id(rows[k]) == id(r);
      assert id(once[k]) == id(r);
    }
  }

  /** An @Update with a row exactly as stored changes nothing. */
  lemma UpdateWithStoredRow<T>(rows: seq<T>, r: T, id: T -> int)
    requires UniqueIds(rows, id) && r in rows
    ensures UpdateById(rows, r, id) == rows
  {
    var k :| 0 <= k < |rows| && rows[k] == r;
    assert HasId(rows, id(r), id);
  }

  lemma ReplaceKeepsIds<T>(rows: seq<T>, r: T, id: T -> int)
    requires UniqueIds(rows, id)
    ensures UniqueIds(ReplaceById(rows, r, id), id)
    ensures forall i :: 0 <= i < |rows| ==> id(ReplaceById(rows, r, id)[i]) == id(rows[i])
  {
  }

  /** Room @Delete: the row with r's key goes; every other row stays, in order. */
  function DeleteById<T(!new)>(rows: seq<T>, k: int, id: T -> int): (out: seq<T>)
    ensures !HasId(out, k, id)
    ensures forall x :: x in out <==> x in rows && id(x) != k
    ensures IsSubsequence(out, rows)
  {
    var out := Filter(rows, x => id(x) != k);
    FilterIsSubsequence(rows, x => id(x) != k);
    out
  }

  lemma {:induction false} SubsequenceMembers<T>(r: seq<T>, s: seq<T>)
    requires IsSubsequence(r, s)
    ensures forall x :: x in r ==> x in s
    decreases |s|
  {
    if r != [] {
      if r[0] == s[0] && IsSubsequence(r[1..], s[1..]) {
        SubsequenceMembers(r[1..], s[1..]);
        assert r == [r[0]] + r[1..];
      } else {
        SubsequenceMembers(r, s[1..]);
      }
    }
  }

  /** A subsequence of rows with unique keys has unique keys. */
  lemma {:induction false} SubsequenceKeepsUniqueIds<T>(r: seq<T>, s: seq<T>, id: T -> int)
    requires IsSubsequence(r, s) && UniqueIds(s, id)
    ensures UniqueIds(r, id)
    decreases |s|
  {
    if r != [] {
      assert UniqueIds(s[1..], id) by {
        forall i, j | 0 <= i < j < |s| - 1 ensures id(s[1..][i]) != id(s[1..][j]) {
          assert s[1..][i] == s[i + 1] && s[1..][j] == s[j + 1];
        }
      }
      if r[0] == s[0] && IsSubsequence(r[1..], s[1..]) {
        SubsequenceKeepsUniqueIds(r[1..], s[1..], id);
        SubsequenceMembers(r[1..], s[1..]);
        forall i, j | 0 <= i < j < |r| ensures id(r[i]) != id(r[j]) {
          if i == 0 {
            assert r[j] == r[1..][j - 1] && r[j] in s[1..];
            var k :| 0 <= k < |s| - 1 && s[1..][k] == r[j];
            assert s[k + 1] == r[j];
          } else {
            assert r[i] == r[1..][i - 1] && r[j] == r[1..][j - 1];
          }
        }
      } else {
        SubsequenceKeepsUniqueIds(r, s[1..], id);
      }
    }
  }

  /** SQL UPDATE ... SET f WHERE p: the rows satisfying p become f of themselves, in place. */
  function MapWhere<T>(rows: seq<T>, p: T -> bool, f: T -> T): (out: seq<T>)
    ensures |out| == |rows|
    ensures forall i :: 0 <= i < |rows| ==> out[i] == if p(rows[i]) then f(rows[i]) else rows[i]
  {
    if rows == [] then []
    else [if p(rows[0]) then f(rows[0]) else rows[0]] + MapWhere(rows[1..], p, f)
  }

  /** An UPDATE whose SET fixes its own result, and keeps the WHERE's verdict, is idempotent. */
  lemma MapWhereIdempotent<T>(rows: seq<T>, p: T -> bool, f: T -> T)
    requires forall x :: p(f(x)) == p(x) && f(f(x)) == f(x)
    ensures MapWhere(MapWhere(rows, p, f), p, f) == MapWhere(rows, p, f)
  {
  }

  // ---- Tables with an autogenerated integer key ----

  /**
   * A table's rows and the next key AUTOINCREMENT hands out: keys are unique
   * and all below the next one.
   */
  predicate ValidKeys<T>(rows: seq<T>, nextId: int, id: T -> int)
  {
    nextId >= 1 && UniqueIds(rows, id) && forall i :: 0 <= i < |rows| ==> id(rows[i]) < nextId
  }

  /** The key an insert stores a row under: Room sends key 0 as "generate one". */
  function InsertKey<T>(r: T, nextId: int, id: T -> int): int
  {
    if id(r) == 0 then nextId else id(r)
  }

  /** AUTOINCREMENT never reuses a key: the next one stays above every key stored. */
  function NextKeyAfter(nextId: int, k: int): (n: int)
    ensures n > k && n >= nextId
  {
    if k >= nextId then k + 1 else nextId
  }

  /** INSERT OR REPLACE keeps the keys valid. */
  lemma UpsertKeepsValid<T>(rows: seq<T>, nextId: int, r: T, id: T -> int)
    requires ValidKeys(rows, nextId, id)
    ensures ValidKeys(Upsert(rows, r, id), NextKeyAfter(nextId, id(r)), id)
  {
    UpsertKeepsUnique(rows, r, id);
    var out := Upsert(rows, r, id);
    forall i | 0 <= i < |out| ensures id(out[i]) < NextKeyAfter(nextId, id(r)) {
      assert out[i] in out;
      if out[i] != r {
        var j :| 0 <= j < |rows| && rows[j] == out[i];
      }
    }
  }

  /** A row under a key never handed out is appended. */
  lemma UpsertFresh<T>(rows: seq<T>, nextId: int, r: T, id: T -> int)
    requires ValidKeys(rows, nextId, id) && id(r) == nextId
    ensures Upsert(rows, r, id) == rows + [r]
  {
  }

  lemma UpdateKeepsValid<T>(rows: seq<T>, nextId: int, r: T, id: T -> int)
    requires ValidKeys(rows, nextId, id)
    ensures ValidKeys(UpdateById(rows, r, id), nextId, id)
  {
    if HasId(rows, id(r), id) {
      ReplaceKeepsIds(rows, r, id);
    }
  }

  lemma DeleteKeepsValid<T(!new)>(rows: seq<T>, nextId: int, k: int, id: T -> int)
    requires ValidKeys(rows, nextId, id)
    ensures ValidKeys(DeleteById(rows, k, id), nextId, id)
  {
    var out := DeleteById(rows, k, id);
    SubsequenceKeepsUniqueIds(out, rows, id);
    forall i | 0 <= i < |out| ensures id(out[i]) < nextId {
      assert out[i] in rows;
    }
  }

  lemma MapWhereKeepsValid<T>(rows: seq<T>, nextId: int, p: T -> bool, f: T -> T, id: T -> int)
    requires ValidKeys(rows, nextId, id)
    requires forall x :: id(f(x)) == id(x)
    ensures ValidKeys(MapWhere(rows, p, f), nextId, id)
  {
  }
}
