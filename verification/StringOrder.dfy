/** `std::string` comparison, and `sort` and `merge` of `std::list<std::string>`. */
module StringOrder {

  /** `!( b < a )` */
  predicate Leq(a: string, b: string)
    decreases |a|
  {
    a == "" || (b != "" && (a[0] < b[0] || (a[0] == b[0] && Leq(a[1..], b[1..]))))
  }

  /** The strings first differ at k, where the first ends, or has the smaller character. */
  predicate DifferAt(a: string, b: string, k: nat) {
    && k <= |a| && k <= |b| && a[..k] == b[..k]
    && (k == |a| || (k < |b| && a[k] < b[k]))
  }

  /** Character by character, as `std::string::compare` does. */
  lemma {:induction false} LeqIff(a: string, b: string)
    ensures Leq(a, b) <==> exists k: nat :: DifferAt(a, b, k)
    decreases |a|
  {
    if a == "" {
      assert DifferAt(a, b, 0);
    } else if b == "" || a[0] > b[0] {
      forall k: nat
        ensures !DifferAt(a, b, k)
      {
        NotDiffer(a, b, k);
      }
    } else if a[0] < b[0] {
      assert DifferAt(a, b, 0);
    } else {
      LeqIff(a[1..], b[1..]);
      if Leq(a[1..], b[1..]) {
        var k: nat :| DifferAt(a[1..], b[1..], k);
        ShiftDiffer(a, b, k);
      }
      forall k: nat | DifferAt(a, b, k)
        ensures DifferAt(a[1..], b[1..], k - 1)
      {
        ShiftDiffer(a, b, k - 1);
      }
    }
  }

  lemma NotDiffer(a: string, b: string, k: nat)
    requires a != "" && (b == "" || a[0] > b[0])
    ensures !DifferAt(a, b, k)
  {
    if 0 < k <= |a| && k <= |b| {
      assert a[..k][0] == a[0] && b[..k][0] == b[0];
    }
  }

  lemma ShiftDiffer(a: string, b: string, k: int)
    requires k >= -1 && a != "" && b != "" && a[0] == b[0]
    ensures k >= 0 ==> (DifferAt(a, b, k + 1) <==> DifferAt(a[1..], b[1..], k))
    ensures !DifferAt(a, b, 0)
  {
    if 0 <= k && k + 1 <= |a| && k + 1 <= |b| {
      assert a[..k + 1] == [a[0]] + a[1..][..k] && b[..k + 1] == [b[0]] + b[1..][..k];
    }
  }

  lemma {:induction false} LeqTotal(a: string, b: string)
    ensures Leq(a, b) || Leq(b, a)
    ensures Leq(a, b) && Leq(b, a) ==> a == b
    decreases |a|
  {
    if a != "" && b != "" {
      LeqTotal(a[1..], b[1..]);
    }
  }

  lemma {:induction false} LeqTransitive(a: string, b: string, c: string)
    requires Leq(a, b) && Leq(b, c)
    ensures Leq(a, c)
    decreases |a|
  {
    if a != "" && a[0] == b[0] == c[0] {
      LeqTransitive(a[1..], b[1..], c[1..]);
    }
  }

  predicate Sorted(s: seq<string>)
    decreases |s|
  {
    |s| <= 1 || (Leq(s[0], s[1]) && Sorted(s[1..]))
  }

  function Insert(x: string, s: seq<string>): seq<string>
    decreases |s|
  {
    if s == [] || Leq(x, s[0]) then [x] + s else [s[0]] + Insert(x, s[1..])
  }

  /** `sort` */
  function Sort(s: seq<string>): seq<string>
    decreases |s|
  {
    if s == [] then [] else Insert(s[0], Sort(s[1..]))
  }

  /** `a.merge( b )`: an element of b goes in front only if it is less. */
  function Merge(a: seq<string>, b: seq<string>): seq<string>
    decreases |a| + |b|
  {
    if a == [] then b
    else if b == [] then a
    else if Leq(a[0], b[0]) then [a[0]] + Merge(a[1..], b)
    else [b[0]] + Merge(a, b[1..])
  }

  lemma {:induction false} InsertSorted(x: string, s: seq<string>)
    requires Sorted(s)
    ensures Sorted(Insert(x, s))
    ensures multiset(Insert(x, s)) == multiset(s) + multiset{x}
    decreases |s|
  {
    if s == [] || Leq(x, s[0]) {
      ConsSorted(x, s);
    } else {
      var t := Insert(x, s[1..]);
      InsertSorted(x, s[1..]);
      InsertHead(x, s[1..]);
      LeqTotal(x, s[0]);
      TailSorted(s);
      TailMultiset(s);
      assert Insert(x, s) == [s[0]] + t;
      hide Leq, Sorted, Insert;
      ConsSorted(s[0], t);
    }
  }

  lemma ConsSorted(x: string, s: seq<string>)
    requires Sorted(s) && (s == [] || Leq(x, s[0]))
    ensures Sorted([x] + s) && multiset([x] + s) == multiset(s) + multiset{x}
  {
    hide Leq;
    assert ([x] + s)[1..] == s;
  }

  lemma TailSorted(s: seq<string>)
    requires Sorted(s) && s != []
    ensures Sorted(s[1..]) && (s[1..] == [] || Leq(s[0], s[1..][0]))
  {
    hide Leq;
  }

  lemma InsertHead(x: string, s: seq<string>)
    ensures Insert(x, s) != [] && (Insert(x, s)[0] == x || (s != [] && Insert(x, s)[0] == s[0]))
  {
    hide Leq;
  }

  lemma {:induction false} SortSorts(s: seq<string>)
    ensures Sorted(Sort(s)) && multiset(Sort(s)) == multiset(s)
    decreases |s|
  {
    if s != [] {
      SortSorts(s[1..]);
      InsertSorted(s[0], Sort(s[1..]));
      hide Sorted, Insert;
      TailMultiset(s);
    }
  }

  lemma {:induction false} MergeKeeps(a: seq<string>, b: seq<string>)
    ensures multiset(Merge(a, b)) == multiset(a) + multiset(b)
    decreases |a| + |b|
  {
    if a != [] && b != [] {
      assert a == [a[0]] + a[1..] && b == [b[0]] + b[1..];
      if Leq(a[0], b[0]) {
        MergeKeeps(a[1..], b);
      } else {
        MergeKeeps(a, b[1..]);
      }
    }
  }

  lemma {:induction false} HeadLeast(s: seq<string>, i: nat)
    requires Sorted(s) && i < |s|
    ensures Leq(s[0], s[i])
    decreases |s|
  {
    LeqTotal(s[0], s[0]);
    if i > 0 {
      HeadLeast(s[1..], i - 1);
      LeqTransitive(s[0], s[1], s[i]);
    }
  }

  /** The position of an element that is there. */
  lemma Where<T>(s: seq<T>, x: T) returns (i: nat)
    requires multiset(s)[x] > 0
    ensures i < |s| && s[i] == x
  {
    assert x in s;
    i :| i < |s| && s[i] == x;
  }

  lemma TailMultiset<T>(s: seq<T>)
    requires s != []
    ensures multiset(s) == multiset{s[0]} + multiset(s[1..]) && multiset(s[1..]) == multiset(s) - multiset{s[0]}
  {
    assert s == [s[0]] + s[1..];
  }

  lemma SameHead(a: seq<string>, b: seq<string>)
    requires Sorted(a) && Sorted(b) && multiset(a) == multiset(b) && a != [] && b != []
    ensures a[0] == b[0]
  {
    TailMultiset(a);
    TailMultiset(b);
    var i := Where(b, a[0]);
    var j := Where(a, b[0]);
    hide Leq, Sorted;
    HeadLeast(b, i);
    HeadLeast(a, j);
    LeqTotal(a[0], b[0]);
  }

  lemma SameLength<T>(a: seq<T>, b: seq<T>)
    requires multiset(a) == multiset(b)
    ensures |a| == |b|
  {
    assert |a| == |multiset(a)| && |b| == |multiset(b)|;
  }

  /** There is one way to sort. */
  lemma {:induction false} SortedUnique(a: seq<string>, b: seq<string>)
    requires Sorted(a) && Sorted(b) && multiset(a) == multiset(b)
    ensures a == b
    decreases |a|
  {
    SameLength(a, b);
    if a != [] {
      SameHead(a, b);
      TailMultiset(a);
      TailMultiset(b);
      hide Leq;
      SortedUnique(a[1..], b[1..]);
    }
  }

  /** What is sorted does not depend on the order. */
  lemma SortPermutation(a: seq<string>, b: seq<string>)
    requires multiset(a) == multiset(b)
    ensures Sort(a) == Sort(b)
  {
    SortSorts(a);
    SortSorts(b);
    SortedUnique(Sort(a), Sort(b));
  }

  /** Merging sorted lists leaves a sorted one. */
  lemma {:induction false} MergeSorted(a: seq<string>, b: seq<string>)
    requires Sorted(a) && Sorted(b)
    ensures Sorted(Merge(a, b))
    ensures Merge(a, b) != [] ==> (a != [] && Merge(a, b)[0] == a[0]) || (b != [] && Merge(a, b)[0] == b[0])
    decreases |a| + |b|
  {
    if a != [] && b != [] {
      TailSorted(a);
      TailSorted(b);
      LeqTotal(a[0], b[0]);
      hide Leq, Sorted;
      if Leq(a[0], b[0]) {
        MergeSorted(a[1..], b);
        ConsSorted(a[0], Merge(a[1..], b));
      } else {
        MergeSorted(a, b[1..]);
        ConsSorted(b[0], Merge(a, b[1..]));
      }
    }
  }
}
