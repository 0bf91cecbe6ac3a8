/** Texts of UTF-16 code units in code-unit order, and sorting by a total order. */
module SortedText {
  type Unit = x: int | 0 <= x < 0x1_0000
  type Text = seq<Unit>

  const COLON: Unit := 58

  // ---- code-unit order -----------------------------------------------------------------

  /** The order of `<=` on strings: by the first code unit that differs, a prefix first. */
  predicate LessEq(a: Text, b: Text) {
    a == [] || (b != [] && (a[0] < b[0] || (a[0] == b[0] && LessEq(a[1..], b[1..]))))
  }

  lemma {:induction false} LessEqTotal(a: Text, b: Text)
    ensures LessEq(a, b) || LessEq(b, a)
    ensures LessEq(a, b) && LessEq(b, a) ==> a == b
  {
    if a != [] && b != [] && a[0] == b[0] {
      LessEqTotal(a[1..], b[1..]);
      assert a == [a[0]] + a[1..] && b == [b[0]] + b[1..];
    }
  }

  lemma {:induction false} LessEqTransitive(a: Text, b: Text, c: Text)
    requires LessEq(a, b) && LessEq(b, c)
    ensures LessEq(a, c)
  {
    if a != [] && b != [] && c != [] && a[0] == b[0] == c[0] {
      LessEqTransitive(a[1..], b[1..], c[1..]);
    }
  }

  // ---- sorting ------------------------------------------------------------------------------

  ghost predicate TotalPreorder<T(!new)>(le: (T, T) -> bool) {
    && (forall a, b :: le(a, b) || le(b, a))
    && (forall a, b, c :: le(a, b) && le(b, c) ==> le(a, c))
  }

  ghost predicate Sorted<T>(le: (T, T) -> bool, s: seq<T>) {
    forall i, j :: 0 <= i < j < |s| ==> le(s[i], s[j])
  }

  /** Elements of the list that rank the same are the same. */
  ghost predicate Separates<T>(le: (T, T) -> bool, s: seq<T>) {
    forall a, b :: a in s && b in s && le(a, b) && le(b, a) ==> a == b
  }

  function InsertInto<T>(le: (T, T) -> bool, x: T, s: seq<T>): seq<T> {
    if s == [] || le(x, s[0]) then [x] + s else [s[0]] + InsertInto(le, x, s[1..])
  }

  function Sort<T>(le: (T, T) -> bool, s: seq<T>): seq<T> {
    if s == [] then [] else InsertInto(le, s[0], Sort(le, s[1..]))
  }

  lemma {:induction false} InsertKeepsElements<T(!new)>(le: (T, T) -> bool, x: T, s: seq<T>)
    ensures multiset(InsertInto(le, x, s)) == multiset(s) + multiset{x}
  {
    var inserted := InsertInto(le, x, s);
    if s == [] || le(x, s[0]) {
      assert inserted == [x] + s;
    } else {
      InsertKeepsElements(le, x, s[1..]);
      assert inserted == [s[0]] + InsertInto(le, x, s[1..]);
      assert s == [s[0]] + s[1..];
    }
  }

  lemma {:induction false} InsertSorts<T(!new)>(le: (T, T) -> bool, x: T, s: seq<T>)
    requires TotalPreorder(le) && Sorted(le, s)
    ensures Sorted(le, InsertInto(le, x, s))
  {
    if s != [] && le(x, s[0]) {
      forall j | 0 <= j < |s|
        ensures le(x, s[j])
      {
        assert le(s[0], s[j]) || j == 0;
      }
    } else if s != [] {
      hide TotalPreorder;
      InsertSorts(le, x, s[1..]);
      InsertKeepsElements(le, x, s[1..]);
      AtMostAll(le, s[0], x, s[1..]);
    }
  }

  lemma AtMostAll<T(!new)>(le: (T, T) -> bool, first: T, x: T, s: seq<T>)
    requires TotalPreorder(le) && !le(x, first) && forall j :: 0 <= j < |s| ==> le(first, s[j])
    ensures forall j :: 0 <= j < |InsertInto(le, x, s)| ==> le(first, InsertInto(le, x, s)[j])
  {
    InsertKeepsElements(le, x, s);
    var inserted := InsertInto(le, x, s);
    assert le(first, x);
    forall j | 0 <= j < |inserted|
      ensures le(first, inserted[j])
    {
      hide TotalPreorder, InsertInto;
      assert inserted[j] in multiset(inserted);
      assert inserted[j] == x || inserted[j] in multiset(s);
    }
  }

  lemma {:induction false} SortSorts<T(!new)>(le: (T, T) -> bool, s: seq<T>)
    requires TotalPreorder(le)
    ensures Sorted(le, Sort(le, s)) && multiset(Sort(le, s)) == multiset(s)
  {
    if s != [] {
      hide TotalPreorder, InsertInto, Sorted;
      SortSorts(le, s[1..]);
      InsertSorts(le, s[0], Sort(le, s[1..]));
      InsertKeepsElements(le, s[0], Sort(le, s[1..]));
      assert s == [s[0]] + s[1..];
    }
  }

  lemma SortKeepsElements<T(!new)>(le: (T, T) -> bool, s: seq<T>)
    requires TotalPreorder(le)
    ensures forall x :: x in Sort(le, s) <==> x in s
  {
    hide TotalPreorder, Sort;
    SortSorts(le, s);
    assert forall x :: x in Sort(le, s) <==> x in multiset(Sort(le, s));
    assert forall x :: x in s <==> x in multiset(s);
  }

  lemma SameHead<T(!new)>(le: (T, T) -> bool, a: seq<T>, b: seq<T>)
    requires TotalPreorder(le) && Sorted(le, a) && Sorted(le, b) && Separates(le, a)
    requires multiset(a) == multiset(b) && a != [] && b != []
    ensures a[0] == b[0]
  {
    assert a[0] in multiset(b) && b[0] in multiset(a);
    var i :| 0 <= i < |b| && b[i] == a[0];
    var j :| 0 <= j < |a| && a[j] == b[0];
    assert le(a[0], a[0]) && le(b[0], b[0]);
    hide TotalPreorder;
    assert le(a[0], b[0]) && le(b[0], a[0]);
  }

  /** A multiset has one sorted listing when the order tells its elements apart. */
  lemma {:induction false} SortedIsUnique<T(!new)>(le: (T, T) -> bool, a: seq<T>, b: seq<T>)
    requires TotalPreorder(le) && Sorted(le, a) && Sorted(le, b) && Separates(le, a)
    requires multiset(a) == multiset(b)
    ensures a == b
  {
    hide TotalPreorder;
    if a == [] || b == [] {
      assert |multiset(a)| == |multiset(b)|;
    } else {
      SameHead(le, a, b);
      SameTails(a, b);
      SortedIsUnique(le, a[1..], b[1..]);
      assert a == [a[0]] + a[1..] && b == [b[0]] + b[1..];
    }
  }

  lemma SameTails<T>(a: seq<T>, b: seq<T>)
    requires a != [] && b != [] && a[0] == b[0] && multiset(a) == multiset(b)
    ensures multiset(a[1..]) == multiset(b[1..])
  {
    assert a == [a[0]] + a[1..] && b == [b[0]] + b[1..];
    assert multiset(a[1..]) == multiset(a) - multiset{a[0]};
    assert multiset(b[1..]) == multiset(b) - multiset{b[0]};
  }

  /** Sorting forgets the order it was given. */
  lemma SortForgetsOrder<T(!new)>(le: (T, T) -> bool, s: seq<T>, t: seq<T>)
    requires TotalPreorder(le) && Separates(le, s) && multiset(s) == multiset(t)
    ensures Sort(le, s) == Sort(le, t)
  {
    var a, b := Sort(le, s), Sort(le, t);
    SortSorts(le, s);
    SortSorts(le, t);
    forall x, y | x in a && y in a && le(x, y) && le(y, x)
      ensures x == y
    {
      hide TotalPreorder, Sort, Sorted;
      assert x in multiset(a) && y in multiset(a);
      assert x in multiset(s) && y in multiset(s);
    }
    hide TotalPreorder, Sort, Sorted;
    SortedIsUnique(le, a, b);
  }

  ghost predicate Distinct<T>(s: seq<T>) {
    forall i, j :: 0 <= i < j < |s| ==> s[i] != s[j]
  }

  lemma {:induction false} DistinctMultiset<T>(s: seq<T>)
    requires Distinct(s)
    ensures forall x :: multiset(s)[x] == if x in s then 1 else 0
  {
    if s != [] {
      DistinctMultiset(s[1..]);
      assert s == [s[0]] + s[1..];
    }
  }

  /** Lists without repetition that hold the same elements are permutations of each other. */
  lemma SameElementsSameMultiset<T>(s: seq<T>, t: seq<T>)
    requires Distinct(s) && Distinct(t) && forall x :: x in s <==> x in t
    ensures multiset(s) == multiset(t)
  {
    DistinctMultiset(s);
    DistinctMultiset(t);
  }

  /** A Set built from the list, listed in the order of first occurrence. */
  function Unique<T(==)>(s: seq<T>): seq<T> {
    if s == [] then []
    else
      var before := Unique(s[..|s| - 1]);
      if s[|s| - 1] in before then before else before + [s[|s| - 1]]
  }

  lemma {:induction false} UniqueKeepsElements<T(!new)>(s: seq<T>)
    ensures Distinct(Unique(s)) && forall x :: x in Unique(s) <==> x in s
  {
    if s != [] {
      var init, last := s[..|s| - 1], s[|s| - 1];
      UniqueKeepsElements(init);
      assert s == init + [last];
    }
  }

  function Without<T>(s: seq<T>, k: nat): seq<T>
    requires k < |s|
  {
    s[..k] + s[k + 1..]
  }

  lemma WithoutMultiset<T>(s: seq<T>, k: nat)
    requires k < |s|
    ensures multiset(s) == multiset(Without(s, k)) + multiset{s[k]}
    ensures multiset(Without(s, k)) == multiset(s) - multiset{s[k]}
    ensures |Without(s, k)| == |s| - 1
  {
    assert s == s[..k] + ([s[k]] + s[k + 1..]);
    assert multiset(s) == multiset(s[..k]) + multiset([s[k]] + s[k + 1..]);
  }

  /** Renaming each element of two permutations of a list the same way gives two permutations again. */
  lemma {:induction false} PermutedImages<A, B>(s: seq<A>, t: seq<A>, images: seq<B>, others: seq<B>)
    requires |images| == |s| && |others| == |t| && multiset(s) == multiset(t)
    requires forall i, j :: 0 <= i < |s| && 0 <= j < |t| && s[i] == t[j] ==> images[i] == others[j]
    ensures multiset(images) == multiset(others)
    decreases |s|
  {
    hide Without;
    if s == [] {
      assert |multiset(s)| == |multiset(t)|;
    } else {
      assert s[0] in multiset(t);
      var k :| 0 <= k < |t| && t[k] == s[0];
      WithoutMultiset(s, 0);
      WithoutMultiset(t, k);
      WithoutMultiset(images, 0);
      WithoutMultiset(others, k);
      RemainingImages(s, t, images, others, k);
      PermutedImages(Without(s, 0), Without(t, k), Without(images, 0), Without(others, k));
    }
  }

  lemma RemainingImages<A, B>(s: seq<A>, t: seq<A>, images: seq<B>, others: seq<B>, k: nat)
    requires |images| == |s| && |others| == |t| && s != [] && k < |t|
    requires forall i, j :: 0 <= i < |s| && 0 <= j < |t| && s[i] == t[j] ==> images[i] == others[j]
    ensures var s1, t1, images1, others1 := Without(s, 0), Without(t, k), Without(images, 0), Without(others, k);
            forall i, j :: 0 <= i < |s1| && 0 <= j < |t1| && s1[i] == t1[j] ==> images1[i] == others1[j]
  {
    forall i, j | 0 <= i < |s| - 1 && 0 <= j < |t| - 1 && Without(s, 0)[i] == Without(t, k)[j]
      ensures Without(images, 0)[i] == Without(others, k)[j]
    {
      var j1 := if j < k then j else j + 1;
      assert s[i + 1] == t[j1];
    }
  }

  /** A permutation of a list without repetition has none either. */
  lemma DistinctByMultiset<T(!new)>(s: seq<T>, t: seq<T>)
    requires Distinct(s) && multiset(s) == multiset(t)
    ensures Distinct(t)
  {
    DistinctMultiset(s);
    forall i, j | 0 <= i < j < |t|
      ensures t[i] != t[j]
    {
      WithoutMultiset(t, i);
      assert Without(t, i)[j - 1] == t[j];
      assert t[j] in multiset(Without(t, i));
    }
  }
}
