/** Orders the program sorts by: Go's string order and the contracts of the
    standard library's sort.Slice and sort.SliceStable. The one promises an ordered arrangement of what
    it is given; the other keeps elements that compare alike in the order they come in as well, which
    leaves it one answer. */
module Order {

  // ---- string order -------------------------------------------------------

  predicate LexLess(a: string, b: string) {
    if b == "" then false
    else if a == "" then true
    else if a[0] != b[0] then a[0] < b[0]
    else LexLess(a[1..], b[1..])
  }

  lemma {:induction false} LexIrreflexive(a: string)
    ensures !LexLess(a, a)
  {
    if a != "" { LexIrreflexive(a[1..]); }
  }

  lemma {:induction false} LexTotal(a: string, b: string)
    ensures a == b || LexLess(a, b) || LexLess(b, a)
  {
    if a != "" && b != "" && a[0] == b[0] {
      LexTotal(a[1..], b[1..]);
      assert a == [a[0]] + a[1..] && b == [b[0]] + b[1..];
    }
  }

  lemma {:induction false} LexTransitive(a: string, b: string, c: string)
    requires LexLess(a, b) && LexLess(b, c)
    ensures LexLess(a, c)
  {
    if a != "" && a[0] == b[0] == c[0] { LexTransitive(a[1..], b[1..], c[1..]); }
  }

  /** Two strings stand as their first difference does; a proper prefix comes first. */
  lemma {:induction false} LexLessIff(a: string, b: string)
    ensures LexLess(a, b) <==> exists n: nat ::
      && n < |b| && n <= |a| && a[..n] == b[..n] && (n == |a| || a[n] < b[n])
  {
    if a != "" && b != "" && a[0] == b[0] {
      LexLessIff(a[1..], b[1..]);
      if LexLess(a, b) {
        var m: nat :| m < |b[1..]| && m <= |a[1..]| && a[1..][..m] == b[1..][..m] &&
          (m == |a[1..]| || a[1..][m] < b[1..][m]);
        assert a[..m+1] == [a[0]] + a[1..][..m] && b[..m+1] == [b[0]] + b[1..][..m];
      }
      if n: nat :| n < |b| && n <= |a| && a[..n] == b[..n] && (n == |a| || a[n] < b[n]) {
        assert n > 0;
        assert a[1..][..n-1] == a[..n][1..] && b[1..][..n-1] == b[..n][1..];
      }
    } else if b != "" {
      assert a[..0] == b[..0];
    }
  }

  lemma LexStrictWeak()
    ensures StrictWeak(LexLess)
  {
    forall x { LexIrreflexive(x); }
    forall x, y, z | LexLess(x, y) && LexLess(y, z) { LexTransitive(x, y, z); }
    forall x, y, z | LexLess(x, z) && !LexLess(x, y)
      ensures LexLess(y, z)
    {
      LexTotal(x, y);
      if y != x { LexTransitive(y, x, z); }
    }
  }

  lemma ConcatAssoc<T>(a: seq<T>, b: seq<T>, c: seq<T>)
    ensures (a + b) + c == a + (b + c)
  {
  }

  // ---- sorting ------------------------------------------------------------

  /** What sort.Slice asks of its less argument. */
  ghost predicate StrictWeak<T(!new)>(less: (T, T) -> bool) {
    && (forall x :: !less(x, x))
    && (forall x, y, z :: less(x, y) && less(y, z) ==> less(x, z))
    && (forall x, y, z {:trigger less(x, z), less(x, y)} :: less(x, z) ==> less(x, y) || less(y, z))
  }

  ghost predicate Sorted<T>(s: seq<T>, less: (T, T) -> bool) {
    forall i, j | 0 <= i < j < |s| :: !less(s[j], s[i])
  }

  predicate Same<T>(x: T, y: T, less: (T, T) -> bool) {
    !less(x, y) && !less(y, x)
  }

  /** The elements of s that rank with x, in the order s has them. */
  function Class<T>(s: seq<T>, x: T, less: (T, T) -> bool): seq<T> {
    if s == [] then []
    else if Same(s[0], x, less) then [s[0]] + Class(s[1..], x, less)
    else Class(s[1..], x, less)
  }

  /** r keeps the order s has among elements of equal rank. */
  ghost predicate Stable<T(!new)>(r: seq<T>, s: seq<T>, less: (T, T) -> bool) {
    forall x :: Class(r, x, less) == Class(s, x, less)
  }

  function Insert<T>(x: T, s: seq<T>, less: (T, T) -> bool): (r: seq<T>)
    ensures multiset(r) == multiset{x} + multiset(s)
  {
    if s == [] || !less(s[0], x) then [x] + s
    else
      assert s == [s[0]] + s[1..];
      [s[0]] + Insert(x, s[1..], less)
  }

  function StableSort<T>(s: seq<T>, less: (T, T) -> bool): (r: seq<T>)
    ensures multiset(r) == multiset(s)
  {
    if s == [] then []
    else
      assert s == [s[0]] + s[1..];
      Insert(s[0], StableSort(s[1..], less), less)
  }

  lemma {:induction false} InsertSorted<T(!new)>(x: T, s: seq<T>, less: (T, T) -> bool)
    requires StrictWeak(less) && Sorted(s, less)
    ensures Sorted(Insert(x, s, less), less)
  {
    var r := Insert(x, s, less);
    if s == [] {
    } else if !less(s[0], x) {
      forall j | 1 <= j < |r|
        ensures !less(r[j], x)
      {
        assert r[j] == s[j-1];
        assert j > 1 ==> !less(s[j-1], s[0]);
      }
    } else {
      InsertSorted(x, s[1..], less);
      var t := Insert(x, s[1..], less);
      forall j | 1 <= j < |r|
        ensures !less(r[j], s[0])
      {
        assert r[j] == t[j-1] && t[j-1] in multiset(t);
        assert r[j] == x || r[j] in s[1..];
      }
    }
  }

  lemma {:induction false} InsertClass<T(!new)>(x: T, s: seq<T>, y: T, less: (T, T) -> bool)
    requires StrictWeak(less)
    ensures Class(Insert(x, s, less), y, less) == Class([x] + s, y, less)
  {
    if s == [] || !less(s[0], x) {
    } else {
      InsertClass(x, s[1..], y, less);
      var r := Insert(x, s, less);
      assert r[1..] == Insert(x, s[1..], less);
      assert ([x] + s[1..])[1..] == s[1..] && ([x] + s)[1..] == s;
      // x and s[0] rank apart, so at most one of them is in y's class
      assert !(Same(x, y, less) && Same(s[0], y, less));
    }
  }

  /** The result of sort.SliceStable: ordered, and stable. */
  lemma {:induction false} StableSortSorts<T(!new)>(s: seq<T>, less: (T, T) -> bool)
    requires StrictWeak(less)
    ensures Sorted(StableSort(s, less), less)
    ensures Stable(StableSort(s, less), s, less)
  {
    if s != [] {
      StableSortSorts(s[1..], less);
      InsertSorted(s[0], StableSort(s[1..], less), less);
      forall y ensures Class(StableSort(s, less), y, less) == Class(s, y, less) {
        InsertClass(s[0], StableSort(s[1..], less), y, less);
        var t := [s[0]] + StableSort(s[1..], less);
        assert t[1..] == StableSort(s[1..], less);
      }
    }
  }

  lemma {:induction false} ClassMember<T(!new)>(s: seq<T>, x: T, less: (T, T) -> bool)
    requires StrictWeak(less)
    ensures forall y | y in Class(s, x, less) :: y in s && Same(y, x, less)
    ensures x in s ==> x in Class(s, x, less)
  {
    if s != [] { ClassMember(s[1..], x, less); }
  }

  /** Being ordered and stable leaves one result: sort.SliceStable is a function. */
  lemma {:induction false} StableSortUnique<T(!new)>(a: seq<T>, b: seq<T>, less: (T, T) -> bool)
    requires StrictWeak(less)
    requires Sorted(a, less) && Sorted(b, less) && Stable(a, b, less)
    ensures a == b
  {
    if a == [] {
      // b's head would be in its own class, and a has no class
    } else {
      ClassMember(a, a[0], less);
      ClassMember(b, a[0], less);
      assert a[0] in b;
      assert b != [];
      ClassMember(b, b[0], less);
      ClassMember(a, b[0], less);
      assert b[0] in a;
      assert !less(a[0], b[0]) && !less(b[0], a[0]) by {
        var i :| 0 <= i < |b| && b[i] == a[0];
        var j :| 0 <= j < |a| && a[j] == b[0];
      }
      assert Class(a, a[0], less)[0] == a[0];
      assert Class(b, a[0], less)[0] == b[0];
      assert a[0] == b[0];
      assert Stable(a[1..], b[1..], less) by {
        forall x ensures Class(a[1..], x, less) == Class(b[1..], x, less) {
          assert Class(a, x, less) == Class(b, x, less);
          if Same(a[0], x, less) {
            assert Class(a, x, less)[1..] == Class(a[1..], x, less);
            assert Class(b, x, less)[1..] == Class(b[1..], x, less);
          }
        }
      }
      StableSortUnique(a[1..], b[1..], less);
      assert a == [a[0]] + a[1..] && b == [b[0]] + b[1..];
    }
  }

  /** Elements of equal rank are equal: the keys of s are distinct, or repeats are copies. */
  ghost predicate RankDetermines<T>(s: seq<T>, less: (T, T) -> bool) {
    forall x, y | x in s && y in s && Same(x, y, less) :: x == y
  }

  lemma SortedHeads<T(!new)>(a: seq<T>, b: seq<T>, less: (T, T) -> bool)
    requires a != [] && b != [] && a[0] in b && b[0] in a
    requires forall x :: !less(x, x)
    requires Sorted(a, less) && Sorted(b, less)
    ensures Same(a[0], b[0], less)
  {
    var i :| 0 <= i < |b| && b[i] == a[0];
    var j :| 0 <= j < |a| && a[j] == b[0];
  }

  lemma MultisetTail<T>(a: seq<T>)
    requires a != []
    ensures multiset(a[1..]) == multiset(a) - multiset{a[0]}
    ensures forall x :: x in multiset(a) <==> x in a
  {
    assert a == [a[0]] + a[1..];
  }

  lemma SameHead<T(!new)>(a: seq<T>, b: seq<T>, less: (T, T) -> bool)
    requires forall x :: !less(x, x)
    requires Sorted(a, less) && Sorted(b, less) && multiset(a) == multiset(b)
    requires RankDetermines(a, less) && a != []
    ensures b != [] && a[0] == b[0] && multiset(a[1..]) == multiset(b[1..])
    ensures RankDetermines(a[1..], less)
  {
    assert a[0] in multiset(a) && a[0] in multiset(b);
    MultisetTail(a);
    MultisetTail(b);
    assert b[0] in multiset(b) && b[0] in a;
    SortedHeads(a, b, less);
    assert forall x | x in a[1..] :: x in a;
  }

  /** sort.Slice promises no stability; when rank determines the element it does not matter. */
  lemma {:induction false} SortUnique<T(!new)>(a: seq<T>, b: seq<T>, less: (T, T) -> bool)
    requires forall x :: !less(x, x)
    requires Sorted(a, less) && Sorted(b, less) && multiset(a) == multiset(b)
    requires RankDetermines(a, less)
    ensures a == b
  {
    if a == [] {
      assert |multiset(b)| == |b| == 0;
    } else {
      SameHead(a, b, less);
      SortUnique(a[1..], b[1..], less);
      assert a == [a[0]] + a[1..] && b == [b[0]] + b[1..];
    }
  }

  function Without<T>(s: seq<T>, i: nat): (r: seq<T>)
    requires i < |s|
    ensures multiset(s) == multiset{s[i]} + multiset(r)
  {
    assert s == s[..i] + ([s[i]] + s[i+1..]);
    s[..i] + s[i+1..]
  }

  lemma PullTwo<T(!new)>(s: seq<T>, x: T, y: T) returns (rest: seq<T>)
    requires x in s && y in s && x != y
    ensures multiset(s) == multiset([x, y] + rest) == multiset([y, x] + rest)
  {
    var i :| 0 <= i < |s| && s[i] == x;
    var t := Without(s, i);
    assert y in multiset(s) && y in multiset(t);
    var j :| 0 <= j < |t| && t[j] == y;
    rest := Without(t, j);
  }

  /** How many elements Insert passes. */
  function Passed<T>(x: T, s: seq<T>, less: (T, T) -> bool): (n: nat)
    ensures n <= |s|
  {
    if s == [] || !less(s[0], x) then 0 else 1 + Passed(x, s[1..], less)
  }

  lemma {:induction false} PassedSame<T(!new)>(x: T, y: T, s: seq<T>, less: (T, T) -> bool)
    requires StrictWeak(less) && Same(x, y, less)
    ensures Passed(x, s, less) == Passed(y, s, less)
  {
    if s != [] {
      assert less(s[0], x) <==> less(s[0], y);
      PassedSame(x, y, s[1..], less);
    }
  }

  /** Two elements of one rank, inserted one before the other. */
  lemma {:induction false} InsertTwo<T(!new)>(x: T, y: T, s: seq<T>, less: (T, T) -> bool)
    requires StrictWeak(less) && Same(x, y, less)
    ensures var n := Passed(x, s, less); Insert(x, Insert(y, s, less), less) == s[..n] + ([x, y] + s[n..])
  {
    if s == [] || !less(s[0], x) {
      assert Insert(y, s, less) == [y] + s;
    } else {
      var n := Passed(x, s[1..], less);
      InsertTwo(x, y, s[1..], less);
      assert Insert(y, s, less) == [s[0]] + Insert(y, s[1..], less);
      assert s[..n+1] == [s[0]] + s[1..][..n] && s[n+1..] == s[1..][n..];
    }
  }

  /** Two elements of equal rank can come out of a sort either way round, everything else alike. */
  lemma SwapSorted<T(!new)>(s: seq<T>, x: T, y: T, less: (T, T) -> bool) returns (pre: seq<T>, post: seq<T>)
    requires StrictWeak(less) && x in s && y in s && x != y && Same(x, y, less)
    ensures multiset(pre + [x, y] + post) == multiset(pre + [y, x] + post) == multiset(s)
    ensures Sorted(pre + [x, y] + post, less) && Sorted(pre + [y, x] + post, less)
  {
    var rest := PullTwo(s, x, y);
    var t := StableSort(rest, less);
    var n := Passed(x, t, less);
    pre, post := t[..n], t[n..];
    assert pre + [x, y] + post == pre + ([x, y] + post) && pre + [y, x] + post == pre + ([y, x] + post);
    SortsTo(x, y, rest, less);
    SortsTo(y, x, rest, less);
    PassedSame(x, y, t, less);
    StableSortSorts([x, y] + rest, less);
    StableSortSorts([y, x] + rest, less);
  }

  lemma SortsTo<T(!new)>(x: T, y: T, rest: seq<T>, less: (T, T) -> bool)
    requires StrictWeak(less) && Same(x, y, less)
    ensures var t, n := StableSort(rest, less), Passed(x, StableSort(rest, less), less);
      StableSort([x, y] + rest, less) == t[..n] + ([x, y] + t[n..])
  {
    assert ([x, y] + rest)[1..] == [y] + rest && ([y] + rest)[1..] == rest;
    InsertTwo(x, y, StableSort(rest, less), less);
  }

  /** Two different elements of equal rank make sort.Slice ambiguous. */
  lemma SortAmbiguous<T(!new)>(s: seq<T>, less: (T, T) -> bool) returns (a: seq<T>, b: seq<T>)
    requires StrictWeak(less) && !RankDetermines(s, less)
    ensures multiset(a) == multiset(b) == multiset(s)
    ensures Sorted(a, less) && Sorted(b, less) && a != b
  {
    var x, y :| x in s && y in s && Same(x, y, less) && x != y;
    var pre, post := SwapSorted(s, x, y, less);
    a, b := pre + [x, y] + post, pre + [y, x] + post;
    assert a[|pre|] == x && b[|pre|] == y;
  }

  /** The contract of sort.Slice, and no more. */
  method SortSlice<T(!new)>(s: seq<T>, less: (T, T) -> bool) returns (r: seq<T>)
    requires StrictWeak(less)
    ensures multiset(r) == multiset(s)
    ensures Sorted(r, less)
  {
    StableSortSorts(s, less);
    r := StableSort(s, less);
  }
}
