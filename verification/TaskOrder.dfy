/** Sorting members by name does not depend on their order when names differ. */
module TaskOrder {
  import opened TaskXml

  lemma {:induction false} LessOrder(a: string, b: string)
    ensures Less(a, b) ==> !Less(b, a) && a != b
    ensures Less(a, b) || a == b || Less(b, a)
  {
    if a != "" && b != "" && a[0] == b[0] {
      LessOrder(a[1..], b[1..]);
      assert a == [a[0]] + a[1..] && b == [b[0]] + b[1..];
    }
  }

  lemma {:induction false} LessChain(a: string, b: string, c: string)
    requires Less(a, b) && Less(b, c)
    ensures Less(a, c)
  {
    if a != "" && a[0] == b[0] && b[0] == c[0] {
      LessChain(a[1..], b[1..], c[1..]);
    }
  }

  ghost predicate Sorted<T>(s: seq<(string, T)>) {
    forall i, j :: 0 <= i < j < |s| ==> !Less(s[j].0, s[i].0)
  }

  ghost predicate DistinctNames<T>(s: seq<(string, T)>) {
    forall i, j :: 0 <= i < j < |s| ==> s[i].0 != s[j].0
  }

  lemma {:induction false} InsertSorted<T>(x: (string, T), s: seq<(string, T)>)
    requires Sorted(s)
    ensures Sorted(Insert(x, s))
  {
    if s != [] && Less(s[0].0, x.0) {
      var rest := s[1..];
      InsertSorted(x, rest);
      InsertSame(x, rest);
      LessOrder(s[0].0, x.0);
      var more := Insert(x, rest);
      forall j | 0 <= j < |more| ensures !Less(more[j].0, s[0].0) {
        assert more[j] in multiset(more);
        assert more[j] == x || more[j] in rest;
        if more[j] in rest {
          var i :| 0 <= i < |rest| && rest[i] == more[j];
          assert !Less(s[i + 1].0, s[0].0);
        }
      }
      assert Insert(x, s) == [s[0]] + more;
    } else if s != [] {
      forall j | 0 <= j < |s| ensures !Less(s[j].0, x.0) {
        if Less(s[j].0, x.0) {
          NotBelow(s, x.0, j);
        }
      }
      assert Insert(x, s) == [x] + s;
    }
  }

  lemma NotBelow<T>(s: seq<(string, T)>, x: string, j: nat)
    requires Sorted(s) && j < |s| && !Less(s[0].0, x)
    ensures !Less(s[j].0, x)
  {
    LessOrder(s[0].0, s[j].0);
    LessOrder(s[0].0, x);
    LessOrder(s[j].0, x);
    if Less(s[0].0, s[j].0) && Less(s[j].0, x) {
      LessChain(s[0].0, s[j].0, x);
    }
  }

  lemma {:induction false} SortSorted<T>(s: seq<(string, T)>)
    ensures Sorted(Sort(s))
  {
    if s != [] {
      SortSorted(s[1..]);
      InsertSorted(s[0], Sort(s[1..]));
    }
  }

  lemma {:induction false} SortedUnique<T>(a: seq<(string, T)>, b: seq<(string, T)>)
    requires Sorted(a) && Sorted(b) && DistinctNames(a) && multiset(a) == multiset(b)
    ensures a == b
  {
    if a == [] {
      assert |b| == |multiset(b)| == |multiset(a)|;
    } else {
      assert a[0] in multiset(b);
      SameFirst(a, b);
      assert a == [a[0]] + a[1..] && b == [b[0]] + b[1..];
      assert multiset(a[1..]) == multiset(a) - multiset{a[0]};
      assert multiset(b[1..]) == multiset(b) - multiset{b[0]};
      SortedUnique(a[1..], b[1..]);
    }
  }

  lemma Ahead<T>(s: seq<(string, T)>, i: nat)
    requires Sorted(s) && i < |s|
    ensures i == 0 || !Less(s[i].0, s[0].0)
    ensures DistinctNames(s) ==> i == 0 || s[i].0 != s[0].0
  {
  }

  lemma SameFirst<T>(a: seq<(string, T)>, b: seq<(string, T)>)
    requires a != [] && b != [] && Sorted(a) && Sorted(b) && DistinctNames(a) && multiset(a) == multiset(b)
    ensures a[0] == b[0]
  {
    assert a[0] in multiset(b) && b[0] in multiset(a);
    var j :| 0 <= j < |b| && b[j] == a[0];
    var i :| 0 <= i < |a| && a[i] == b[0];
    LessOrder(a[0].0, b[0].0);
    Ahead(a, i);
    Ahead(b, j);
  }

  /** The order in which differently named members arrive does not matter. */
  lemma SortPermuted<T>(a: seq<(string, T)>, b: seq<(string, T)>)
    requires multiset(a) == multiset(b) && DistinctNames(a)
    ensures Sort(a) == Sort(b)
  {
    SortSame(a);
    SortSame(b);
    SortSorted(a);
    SortSorted(b);
    StillDistinct(a, Sort(a));
    SortedUnique(Sort(a), Sort(b));
  }

  lemma StillDistinct<T>(a: seq<(string, T)>, b: seq<(string, T)>)
    requires multiset(a) == multiset(b) && DistinctNames(a)
    ensures DistinctNames(b)
  {
    forall i, j | 0 <= i < j < |b| ensures b[i].0 != b[j].0 {
      assert b[i] in multiset(b) && b[j] in multiset(b);
      var x :| 0 <= x < |a| && a[x] == b[i];
      var y :| 0 <= y < |a| && a[y] == b[j];
      if x == y {
        assert b == b[..i] + [b[i]] + b[i + 1..j] + [b[j]] + b[j + 1..];
        assert multiset(b)[b[i]] >= 2;
        OnlyOne(a, x);
      }
    }
  }

  lemma OnlyOne<T>(a: seq<(string, T)>, x: nat)
    requires x < |a| && DistinctNames(a)
    ensures multiset(a)[a[x]] == 1
  {
    var rest := a[..x] + a[x + 1..];
    assert a == a[..x] + [a[x]] + a[x + 1..];
    assert a[x] !in rest;
    assert multiset(a) == multiset(rest) + multiset{a[x]};
  }
}
