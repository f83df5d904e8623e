/** The service order of waiting work: VIP before NORMAL, and first come first served within a type. */
module Priority {
  import opened Records

  /** The sort comparator: negative when `a` is served before `b`. */
  function Compare(a: Order, b: Order): (r: int)
    ensures a.kind == Vip && b.kind == Normal ==> r < 0
    ensures a.kind == Normal && b.kind == Vip ==> r > 0
    ensures a.kind == b.kind ==> (r < 0 <==> a.id < b.id) && (r == 0 <==> a.id == b.id)
  {
    if a.kind != b.kind then (if a.kind == Vip then -1 else 1)
    else a.id - b.id
  }

  predicate InOrder(a: Order, b: Order)
  {
    Compare(a, b) <= 0
  }

  predicate Sorted(s: seq<Order>)
  {
    forall i, j :: 0 <= i < j < |s| ==> InOrder(s[i], s[j])
  }

  predicate DistinctIds(s: seq<Order>)
  {
    forall i, j :: 0 <= i < j < |s| ==> s[i].id != s[j].id
  }

  /** Inserts `x` into a sorted list, in front of the first element it does not come after. */
  function Insert(x: Order, s: seq<Order>): seq<Order>
  {
    if s == [] || InOrder(x, s[0]) then [x] + s
    else [s[0]] + Insert(x, s[1..])
  }

  lemma {:induction false} InsertKeepsElements(x: Order, s: seq<Order>)
    ensures multiset(Insert(x, s)) == multiset(s) + multiset{x}
  {
    if s != [] && !InOrder(x, s[0]) {
      InsertKeepsElements(x, s[1..]);
      assert s == [s[0]] + s[1..];
    }
  }

  lemma {:induction false} InsertKeepsSorted(x: Order, s: seq<Order>)
    requires Sorted(s)
    ensures Sorted(Insert(x, s))
  {
    if s != [] && !InOrder(x, s[0]) {
      var t := Insert(x, s[1..]);
      InsertKeepsSorted(x, s[1..]);
      InsertKeepsElements(x, s[1..]);
      forall j | 0 <= j < |t| ensures InOrder(s[0], t[j]) {
        assert t[j] in multiset(t);
        assert t[j] in s[1..] || t[j] == x;
      }
      SortedCons(s[0], t);
    }
  }

  lemma SortedCons(h: Order, t: seq<Order>)
    requires Sorted(t) && forall j :: 0 <= j < |t| ==> InOrder(h, t[j])
    ensures Sorted([h] + t)
  {
    var r := [h] + t;
    forall i, j | 0 <= i < j < |r| ensures InOrder(r[i], r[j]) {
      assert r[j] == t[j - 1];
      if i > 0 {
        assert r[i] == t[i - 1];
      }
    }
  }

  lemma {:induction false} InsertKeepsDistinct(x: Order, s: seq<Order>)
    requires DistinctIds(s)
    requires forall e :: e in s ==> e.id != x.id
    ensures DistinctIds(Insert(x, s))
  {
    if s != [] && !InOrder(x, s[0]) {
      var t := Insert(x, s[1..]);
      InsertKeepsDistinct(x, s[1..]);
      InsertKeepsElements(x, s[1..]);
      forall j | 0 <= j < |t| ensures s[0].id != t[j].id {
        assert t[j] in multiset(t);
        assert t[j] in s[1..] || t[j] == x;
      }
      DistinctCons(s[0], t);
    }
  }

  lemma DistinctCons(h: Order, t: seq<Order>)
    requires DistinctIds(t) && forall j :: 0 <= j < |t| ==> h.id != t[j].id
    ensures DistinctIds([h] + t)
  {
    var r := [h] + t;
    forall i, j | 0 <= i < j < |r| ensures r[i].id != r[j].id {
      assert r[j] == t[j - 1];
      if i > 0 {
        assert r[i] == t[i - 1];
      }
    }
  }

  /** The pending orders in the order the matching pass serves them: a sorted permutation of its input. */
  function SortByPriority(s: seq<Order>): (r: seq<Order>)
    ensures |r| == |s|
    ensures Sorted(r)
    ensures multiset(r) == multiset(s)
    ensures DistinctIds(s) ==> DistinctIds(r)
  {
    if s == [] then []
    else
      var tail := SortByPriority(s[1..]);
      assert s == [s[0]] + s[1..];
      InsertKeepsElements(s[0], tail);
      InsertKeepsSorted(s[0], tail);
      assert |Insert(s[0], tail)| == |multiset(Insert(s[0], tail))| == |s|;
      if DistinctIds(s) then
        HeadIdIsFresh(s, tail);
        InsertKeepsDistinct(s[0], tail);
        Insert(s[0], tail)
      else
        Insert(s[0], tail)
  }

  /** With distinct ids, the head's id occurs nowhere in any rearrangement of the tail. */
  lemma HeadIdIsFresh(s: seq<Order>, tail: seq<Order>)
    requires s != [] && DistinctIds(s) && multiset(tail) == multiset(s[1..])
    ensures DistinctIds(s[1..])
    ensures forall e :: e in tail ==> e.id != s[0].id
  {
    forall e | e in tail ensures e.id != s[0].id {
      assert e in multiset(tail);
      assert e in s[1..];
    }
  }

  /** Every VIP order comes before every NORMAL one, and within one type ids ascend. */
  lemma SortedServesVipFirstThenById(s: seq<Order>)
    requires DistinctIds(s)
    ensures var r := SortByPriority(s);
      forall i, j :: 0 <= i < j < |r| ==>
        && (r[j].kind == Vip ==> r[i].kind == Vip)
        && (r[i].kind == r[j].kind ==> r[i].id < r[j].id)
  {
  }

  /**
   * Two sorted arrangements of the same orders with distinct ids are the same list:
   * the comparator leaves no ties, so the result does not depend on the sorting algorithm.
   */
  lemma {:induction false} SortedArrangementIsUnique(a: seq<Order>, b: seq<Order>)
    requires Sorted(a) && Sorted(b) && DistinctIds(a)
    requires multiset(a) == multiset(b)
    ensures a == b
  {
    if a == [] {
      assert |b| == |multiset(b)| == 0;
    } else {
      assert |b| == |multiset(b)| == |a|;
      HeadsAgree(a, b);
      TailsArePermutations(a, b);
      SortedArrangementIsUnique(a[1..], b[1..]);
    }
  }

  lemma TailsArePermutations(a: seq<Order>, b: seq<Order>)
    requires multiset(a) == multiset(b) && a != [] && b != [] && a[0] == b[0]
    ensures multiset(a[1..]) == multiset(b[1..])
  {
    assert a == [a[0]] + a[1..] && b == [b[0]] + b[1..];
    assert multiset(a) == multiset{a[0]} + multiset(a[1..]);
    assert multiset(b) == multiset{b[0]} + multiset(b[1..]);
    assert multiset(a[1..]) == multiset(a) - multiset{a[0]};
    assert multiset(b[1..]) == multiset(b) - multiset{b[0]};
  }

  lemma HeadsAgree(a: seq<Order>, b: seq<Order>)
    requires Sorted(a) && Sorted(b) && DistinctIds(a)
    requires multiset(a) == multiset(b) && a != [] && b != []
    ensures a[0] == b[0]
  {
    assert a[0] in multiset(b) && b[0] in multiset(a);
    var k :| 0 <= k < |a| && a[k] == b[0];
    var m :| 0 <= m < |b| && b[m] == a[0];
    assert InOrder(a[0], a[k]) by {
      if k > 0 { assert InOrder(a[0], a[k]); }
    }
    assert InOrder(b[0], b[m]) by {
      if m > 0 { assert InOrder(b[0], b[m]); }
    }
    assert a[0].id == a[k].id;
    assert k == 0;
  }

  /** Any sorted permutation of the pending orders is the one the model computes. */
  lemma SortIsCanonical(s: seq<Order>, r: seq<Order>)
    requires DistinctIds(s) && Sorted(r) && multiset(r) == multiset(s)
    ensures r == SortByPriority(s)
  {
    SortedArrangementIsUnique(SortByPriority(s), r);
  }
}
