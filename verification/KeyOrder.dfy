/** The order Python's `sorted` gives to strings (code point by code point) and the sort itself. */
module KeyOrder {

  predicate Le(a: string, b: string) {
    |a| == 0 || (|b| > 0 && (a[0] < b[0] || (a[0] == b[0] && Le(a[1..], b[1..]))))
  }

  lemma {:induction false} LeTotal(a: string, b: string)
    ensures Le(a, b) || Le(b, a)
  {
    if |a| > 0 && |b| > 0 && a[0] == b[0] { LeTotal(a[1..], b[1..]); }
  }

  lemma {:induction false} LeAntisymmetric(a: string, b: string)
    requires Le(a, b) && Le(b, a)
    ensures a == b
  {
    if |a| > 0 && |b| > 0 {
      LeAntisymmetric(a[1..], b[1..]);
      assert a == [a[0]] + a[1..] && b == [b[0]] + b[1..];
    }
  }

  lemma {:induction false} LeTransitive(a: string, b: string, c: string)
    requires Le(a, b) && Le(b, c)
    ensures Le(a, c)
  {
    if |a| > 0 && a[0] == b[0] == c[0] { LeTransitive(a[1..], b[1..], c[1..]); }
  }

  /** `a` is a beginning of `b`, or has the smaller character where they first differ. */
  lemma {:induction false} LeIsLexicographic(a: string, b: string)
    ensures Le(a, b) <==> a <= b || exists i :: 0 <= i < |a| && i < |b| && a[..i] == b[..i] && a[i] < b[i]
  {
    if |a| > 0 && |b| > 0 && a[0] == b[0] {
      LeIsLexicographic(a[1..], b[1..]);
      assert a == [a[0]] + a[1..] && b == [b[0]] + b[1..];
      if i :| 0 <= i < |a[1..]| && i < |b[1..]| && a[1..][..i] == b[1..][..i] && a[1..][i] < b[1..][i] {
        assert a[..i + 1] == [a[0]] + a[1..][..i] && b[..i + 1] == [b[0]] + b[1..][..i];
      }
      if i :| 0 <= i < |a| && i < |b| && a[..i] == b[..i] && a[i] < b[i] {
        assert i > 0;
        assert a[1..][..i - 1] == a[..i][1..] && b[1..][..i - 1] == b[..i][1..];
      }
    } else if |a| > 0 && |b| > 0 {
      assert a[..0] == b[..0];
      if i :| 0 < i < |a| && i < |b| && a[..i] == b[..i] { assert a[..i][0] == b[..i][0]; }
    }
  }

  predicate Sorted(ks: seq<string>) {
    forall i, j | 0 <= i < j < |ks| :: Le(ks[i], ks[j])
  }

  predicate Distinct<T(==)>(ks: seq<T>) {
    forall i, j | 0 <= i < j < |ks| :: ks[i] != ks[j]
  }

  function Members<T>(xs: seq<T>): set<T> {
    set x | x in xs
  }

  /** Counting the different members tells whether all are different. */
  lemma {:induction false} CountMembers<T>(xs: seq<T>)
    ensures |Members(xs)| <= |xs|
    ensures |Members(xs)| == |xs| <==> Distinct(xs)
  {
    if |xs| > 0 {
      var rest := xs[1..];
      CountMembers(rest);
      assert xs == [xs[0]] + rest;
      assert Members(xs) == {xs[0]} + Members(rest);
      if xs[0] in rest {
        assert Members(xs) == Members(rest);
        var k :| 0 <= k < |rest| && rest[k] == xs[0];
        assert xs[k + 1] == xs[0];
      } else {
        assert forall k | 0 < k < |xs| :: xs[k] in rest;
      }
    }
  }

  function Insert(k: string, ks: seq<string>): (r: seq<string>)
    requires Sorted(ks)
    ensures multiset(r) == multiset(ks) + multiset{k}
    ensures Sorted(r)
  {
    if |ks| == 0 then [k]
    else if Le(k, ks[0]) then InsertFront(k, ks); [k] + ks
    else
      var tail := Insert(k, ks[1..]);
      InsertLater(k, ks, tail);
      [ks[0]] + tail
  }

  lemma InsertFront(k: string, ks: seq<string>)
    requires Sorted(ks) && |ks| > 0 && Le(k, ks[0])
    ensures Sorted([k] + ks)
  {
    forall j | 0 <= j < |ks| ensures Le(k, ks[j]) {
      if j > 0 { LeTransitive(k, ks[0], ks[j]); }
    }
  }

  lemma InsertLater(k: string, ks: seq<string>, tail: seq<string>)
    requires Sorted(ks) && |ks| > 0 && !Le(k, ks[0])
    requires Sorted(tail) && multiset(tail) == multiset(ks[1..]) + multiset{k}
    ensures Sorted([ks[0]] + tail)
    ensures multiset([ks[0]] + tail) == multiset(ks) + multiset{k}
  {
    assert ks == [ks[0]] + ks[1..];
    LeTotal(k, ks[0]);
    forall j | 0 <= j < |tail| ensures Le(ks[0], tail[j]) {
      assert tail[j] in multiset(tail);
    }
  }

  /** `sorted(keys)`. */
  function Sort(ks: seq<string>): (r: seq<string>)
    ensures Sorted(r) && multiset(r) == multiset(ks)
  {
    if |ks| == 0 then []
    else
      assert ks == [ks[0]] + ks[1..];
      Insert(ks[0], Sort(ks[1..]))
  }

  lemma SortMembers(ks: seq<string>)
    ensures |Sort(ks)| == |ks|
    ensures forall k :: k in Sort(ks) <==> k in ks
  {
    assert |multiset(Sort(ks))| == |multiset(ks)|;
    forall k ensures k in Sort(ks) <==> k in ks {
      assert k in multiset(Sort(ks)) <==> k in multiset(ks);
    }
  }

  lemma DistinctMultiset<T>(a: seq<T>, b: seq<T>)
    requires multiset(a) == multiset(b) && Distinct(a)
    ensures Distinct(b)
  {
    if i, j :| 0 <= i < j < |b| && b[i] == b[j] {
      assert b == b[..i] + [b[i]] + b[i+1..j] + [b[j]] + b[j+1..];
      assert multiset(b)[b[i]] >= 2;
      DistinctCount(a, b[i]);
    }
  }

  lemma {:induction false} DistinctCount<T>(a: seq<T>, x: T)
    requires Distinct(a)
    ensures multiset(a)[x] <= 1
  {
    if |a| > 0 {
      assert a == [a[0]] + a[1..];
      DistinctCount(a[1..], x);
      if x == a[0] { assert x !in a[1..]; }
    }
  }

  /** A set of keys has one sorted listing. */
  lemma {:induction false} SortedUnique(a: seq<string>, b: seq<string>)
    requires Sorted(a) && Sorted(b) && Distinct(a) && Distinct(b)
    requires forall k :: k in a <==> k in b
    ensures a == b
  {
    assert |a| > 0 ==> a[0] in b;
    assert |b| > 0 ==> b[0] in a;
    if |a| > 0 && |b| > 0 {
      var i :| 0 <= i < |a| && a[i] == b[0];
      var j :| 0 <= j < |b| && b[j] == a[0];
      if i > 0 && j > 0 { LeAntisymmetric(a[0], b[0]); }
      forall k ensures k in a[1..] <==> k in b[1..] {
        assert k in a <==> k == a[0] || k in a[1..];
        assert k in b <==> k == b[0] || k in b[1..];
      }
      SortedUnique(a[1..], b[1..]);
      assert a == [a[0]] + a[1..] && b == [b[0]] + b[1..];
    }
  }

  /** Sorting forgets the order in which distinct keys were listed. */
  lemma SortForgetsOrder(a: seq<string>, b: seq<string>)
    requires Distinct(a) && Distinct(b)
    requires forall k :: k in a <==> k in b
    ensures Sort(a) == Sort(b)
  {
    SortMembers(a);
    SortMembers(b);
    DistinctMultiset(a, Sort(a));
    DistinctMultiset(b, Sort(b));
    SortedUnique(Sort(a), Sort(b));
  }
}
