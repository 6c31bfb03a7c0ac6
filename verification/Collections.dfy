/** Small facts about sequences and sets that the source gets from JavaScript's
    `find`, `Set` and `Map`. */
module Collections {

  datatype Option<+T> = None | Some(value: T)

  /** `Array.prototype.find`: the first item that is wanted. */
  function Find<T(==)>(items: seq<T>, wanted: T -> bool): (r: Option<T>)
    ensures r.None? <==> forall x | x in items :: !wanted(x)
    ensures r.Some? ==> r.value in items && wanted(r.value)
  {
    if items == [] then None
    else if wanted(items[0]) then Some(items[0])
    else Find(items[1..], wanted)
  }

  lemma {:induction false} FindIsFirst<T>(items: seq<T>, wanted: T -> bool, i: nat)
    requires i < |items| && wanted(items[i])
    requires forall j | 0 <= j < i :: !wanted(items[j])
    ensures Find(items, wanted) == Some(items[i])
  {
    if i > 0 {
      assert !wanted(items[0]);
      FindIsFirst(items[1..], wanted, i - 1);
    }
  }

  /** `Array.prototype.filter` */
  function Filter<T(==)>(items: seq<T>, wanted: T -> bool): (r: seq<T>)
    ensures forall x | x in items && wanted(x) :: x in r
    ensures forall x | x in r :: x in items && wanted(x)
  {
    if items == [] then []
    else (if wanted(items[0]) then [items[0]] else []) + Filter(items[1..], wanted)
  }

  /** A loop that stops at the first item that fails. */
  method All<T>(items: seq<T>, test: T -> bool) returns (all: bool)
    ensures all <==> forall x | x in items :: test(x)
  {
    for i := 0 to |items|
      invariant forall k | 0 <= k < i :: test(items[k])
    {
      if !test(items[i]) { return false; }
    }
    return true;
  }

  function ToSet<T(==)>(s: seq<T>): set<T> {
    set x | x in s
  }

  /** `new Set(s).size === s.length` */
  predicate Unique<T(==)>(s: seq<T>) {
    |ToSet(s)| == |s|
  }

  ghost predicate Distinct<T>(s: seq<T>) {
    forall i, j | 0 <= i < j < |s| :: s[i] != s[j]
  }

  ghost predicate DistinctKeys<T, K>(items: seq<T>, key: T -> K) {
    forall i, j | 0 <= i < j < |items| :: key(items[i]) != key(items[j])
  }

  lemma {:induction false} FilterKeepsDistinct<T, K>(items: seq<T>, test: T -> bool, key: T -> K)
    requires DistinctKeys(items, key)
    ensures DistinctKeys(Filter(items, test), key)
  {
    if items != [] {
      var tail := items[1..];
      forall i, j | 0 <= i < j < |tail| ensures key(tail[i]) != key(tail[j]) {
        assert tail[i] == items[i + 1] && tail[j] == items[j + 1];
      }
      FilterKeepsDistinct(tail, test, key);
      var rest := Filter(items[1..], test);
      forall k | 0 <= k < |rest| ensures key(rest[k]) != key(items[0]) {
        assert rest[k] in items[1..];
        var j :| 0 <= j < |items[1..]| && items[1..][j] == rest[k];
        assert items[j + 1] == rest[k];
      }
    }
  }

  lemma {:induction false} ToSetSize<T>(s: seq<T>)
    ensures |ToSet(s)| <= |s|
    ensures Unique(s) <==> Distinct(s)
  {
    if s == [] {
    } else {
      var front, last := s[..|s| - 1], s[|s| - 1];
      ToSetSize(front);
      assert s == front + [last];
      assert ToSet(s) == ToSet(front) + {last};
      if last in front {
        assert ToSet(s) == ToSet(front);
        var i :| 0 <= i < |front| && front[i] == last;
        assert s[i] == s[|s| - 1];
      } else {
        assert |ToSet(s)| == |ToSet(front)| + 1;
        if Distinct(front) {
          forall i, j | 0 <= i < j < |s| ensures s[i] != s[j] {
            if j == |s| - 1 { assert s[i] == front[i]; }
          }
        } else {
          var i, j :| 0 <= i < j < |front| && front[i] == front[j];
          assert s[i] == s[j];
        }
      }
    }
  }

  /** The counting argument behind every "the sizes agree" test of the source. */
  lemma SameSizeSameElements<T>(a: seq<T>, b: set<T>)
    requires Unique(a) && ToSet(a) <= b && |a| == |b|
    ensures ToSet(a) == b
  {
    if ToSet(a) != b {
      assert ToSet(a) < b;
      SubsetSize(ToSet(a), b);
    }
  }

  lemma SubsetSize<T>(a: set<T>, b: set<T>)
    requires a < b
    ensures |a| < |b|
  {
    var x :| x in b && x !in a;
    assert b == (b - a) + a;
    assert x in b - a;
  }
}
