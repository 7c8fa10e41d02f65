/** Total orders and what sorting gives: one sorted sequence per multiset.

  The repository sorts with Go's `sort` package in many places so that a result
  does not depend on map iteration order. These are the facts that make it so. */
module Sorting {

  ghost predicate TotalPreorder<T(!new)>(le: (T, T) -> bool) {
    && (forall x, y :: le(x, y) || le(y, x))
    && (forall x, y, z :: le(x, y) && le(y, z) ==> le(x, z))
  }

  predicate Sorted<T>(le: (T, T) -> bool, s: seq<T>) {
    forall i, j :: 0 <= i < j < |s| ==> le(s[i], s[j])
  }

  /** Elements that `le` cannot tell apart are equal, among the members of `s`. */
  ghost predicate Separates<T>(le: (T, T) -> bool, s: seq<T>) {
    forall i, j :: 0 <= i < |s| && 0 <= j < |s| && le(s[i], s[j]) && le(s[j], s[i]) ==> s[i] == s[j]
  }

  function Insert<T(!new)>(le: (T, T) -> bool, x: T, s: seq<T>): (r: seq<T>)
    requires TotalPreorder(le) && Sorted(le, s)
    ensures Sorted(le, r) && multiset(r) == multiset(s) + multiset{x}
  {
    if s == [] then [x]
    else if le(x, s[0]) then
      InsertFront(le, x, s);
      [x] + s
    else
      InsertLater(le, x, s, Insert(le, x, TailSorted(le, s)));
      [s[0]] + Insert(le, x, TailSorted(le, s))
  }

  function TailSorted<T(!new)>(le: (T, T) -> bool, s: seq<T>): (r: seq<T>)
    requires s != [] && Sorted(le, s)
    ensures Sorted(le, r) && r == s[1..]
  {
    var t := s[1..];
    assert forall i, j :: 0 <= i < j < |t| ==> le(t[i], t[j]);
    t
  }

  lemma InsertFront<T(!new)>(le: (T, T) -> bool, x: T, s: seq<T>)
    requires TotalPreorder(le) && Sorted(le, s) && s != [] && le(x, s[0])
    ensures Sorted(le, [x] + s)
  {
    forall i | 0 <= i < |s| ensures le(x, s[i]) {
      if i > 0 { assert le(s[0], s[i]); }
    }
  }

  lemma HeadIsLeast<T(!new)>(le: (T, T) -> bool, x: T, s: seq<T>, y: T)
    requires TotalPreorder(le) && Sorted(le, s) && s != [] && !le(x, s[0])
    requires y in multiset(s[1..]) + multiset{x}
    ensures le(s[0], y)
  {
    if y == x {
      assert le(x, s[0]) || le(s[0], x);
    } else {
      assert y in multiset(s[1..]);
      var j :| 0 <= j < |s| - 1 && s[1..][j] == y;
      assert s[j + 1] == y;
    }
  }

  lemma InsertLater<T(!new)>(le: (T, T) -> bool, x: T, s: seq<T>, t: seq<T>)
    requires TotalPreorder(le) && Sorted(le, s) && s != [] && !le(x, s[0])
    requires Sorted(le, t) && multiset(t) == multiset(s[1..]) + multiset{x}
    ensures Sorted(le, [s[0]] + t) && multiset([s[0]] + t) == multiset(s) + multiset{x}
  {
    assert s == [s[0]] + s[1..];
    assert multiset([s[0]] + t) == multiset(s) + multiset{x};
    forall i | 0 <= i < |t| ensures le(s[0], t[i]) {
      assert t[i] in multiset(t);
      HeadIsLeast(le, x, s, t[i]);
    }
  }

  /** Go's sort.Strings, sort.Float64s and sort.Slice: some sorted permutation. */
  function Sort<T(!new)>(le: (T, T) -> bool, s: seq<T>): (r: seq<T>)
    requires TotalPreorder(le)
    ensures Sorted(le, r) && multiset(r) == multiset(s) && |r| == |s|
  {
    if s == [] then []
    else
      assert s == [s[0]] + s[1..];
      var r := Insert(le, s[0], Sort(le, s[1..]));
      assert |multiset(r)| == |multiset(s)|;
      r
  }

  /** The sorted listing of a multiset. */
  ghost function SortedOf<T(!new)>(le: (T, T) -> bool, bag: multiset<T>): (r: seq<T>)
    requires TotalPreorder(le)
    ensures Sorted(le, r) && multiset(r) == bag && |r| == |bag|
    decreases |bag|
  {
    if bag == multiset{} then []
    else
      var x :| x in bag;
      var r := Insert(le, x, SortedOf(le, bag - multiset{x}));
      assert |multiset(r)| == |bag|;
      r
  }

  lemma TailBag<T>(a: seq<T>)
    requires a != []
    ensures multiset(a[1..]) == multiset(a) - multiset{a[0]}
  {
    assert a == [a[0]] + a[1..];
  }

  lemma SameSize<T>(a: seq<T>, b: seq<T>)
    requires multiset(a) == multiset(b)
    ensures |a| == |b|
  {
    assert |a| == |multiset(a)| == |multiset(b)| == |b|;
  }

  lemma HeadAndTail<T>(a: seq<T>, b: seq<T>)
    requires a != [] && b != [] && a[0] == b[0] && a[1..] == b[1..]
    ensures a == b
  {
    assert a == [a[0]] + a[1..] && b == [b[0]] + b[1..];
  }

  /** Two sorted sequences with the same members, counted, are the same sequence,
      provided `le` separates them. */
  lemma {:induction false} SortedUnique<T(!new)>(le: (T, T) -> bool, a: seq<T>, b: seq<T>)
    requires TotalPreorder(le)
    requires Sorted(le, a) && Sorted(le, b) && multiset(a) == multiset(b)
    requires Separates(le, a)
    ensures a == b
    decreases |a|
  {
    SameSize(a, b);
    hide *;
    if a != [] {
      HeadsEqual(le, a, b);
      TailBag(a);
      TailBag(b);
      TailsSeparate(le, a);
      SortedUnique(le, TailSorted(le, a), TailSorted(le, b));
      HeadAndTail(a, b);
    }
  }

  lemma TailsSeparate<T(!new)>(le: (T, T) -> bool, a: seq<T>)
    requires a != [] && Separates(le, a)
    ensures Separates(le, a[1..])
  {
    forall i, j | 0 <= i < |a| - 1 && 0 <= j < |a| - 1 && le(a[1..][i], a[1..][j]) && le(a[1..][j], a[1..][i])
      ensures a[1..][i] == a[1..][j]
    {
      assert a[1..][i] == a[i + 1] && a[1..][j] == a[j + 1];
    }
  }

  lemma HeadsEqual<T(!new)>(le: (T, T) -> bool, a: seq<T>, b: seq<T>)
    requires TotalPreorder(le) && a != [] && b != []
    requires Sorted(le, a) && Sorted(le, b) && multiset(a) == multiset(b)
    requires Separates(le, a)
    ensures a[0] == b[0]
  {
    assert a[0] in multiset(b) && b[0] in multiset(a);
    var k :| 0 <= k < |b| && b[k] == a[0];
    var j :| 0 <= j < |a| && a[j] == b[0];
    assert le(a[0], a[0]);
    assert le(a[0], a[j]) && le(b[0], b[k]);
  }

  lemma SortIsSortedOf<T(!new)>(le: (T, T) -> bool, s: seq<T>)
    requires TotalPreorder(le) && Separates(le, s)
    ensures Sort(le, s) == SortedOf(le, multiset(s))
  {
    hide TotalPreorder, Sorted, Sort, SortedOf;
    var r := Sort(le, s);
    SeparatesPermuted(le, s, r);
    SortedUnique(le, r, SortedOf(le, multiset(s)));
  }

  lemma SeparatesPermuted<T(!new)>(le: (T, T) -> bool, s: seq<T>, r: seq<T>)
    requires Separates(le, s) && multiset(r) == multiset(s)
    ensures Separates(le, r)
  {
    forall i, j | 0 <= i < |r| && 0 <= j < |r| && le(r[i], r[j]) && le(r[j], r[i])
      ensures r[i] == r[j]
    {
      assert r[i] in multiset(s) && r[j] in multiset(s);
      var i' :| 0 <= i' < |s| && s[i'] == r[i];
      var j' :| 0 <= j' < |s| && s[j'] == r[j];
    }
  }

  // ----- Reals

  predicate RealLe(x: real, y: real) { x <= y }

  lemma RealLeTotal()
    ensures TotalPreorder(RealLe)
  {
  }

  /** Go's sort.Float64s. */
  function SortReals(s: seq<real>): (r: seq<real>)
    ensures |r| == |s| && multiset(r) == multiset(s)
    ensures forall i, j :: 0 <= i <= j < |r| ==> r[i] <= r[j]
  {
    RealLeTotal();
    var r := Sort(RealLe, s);
    assert forall i, j :: 0 <= i < j < |r| ==> RealLe(r[i], r[j]);
    r
  }

  ghost function SortedReals(bag: multiset<real>): seq<real> {
    RealLeTotal();
    SortedOf(RealLe, bag)
  }

  /** Sorted samples depend on the samples alone, not on the order they came in. */
  lemma SortRealsCanonical(s: seq<real>)
    ensures SortReals(s) == SortedReals(multiset(s))
  {
    RealLeTotal();
    SortIsSortedOf(RealLe, s);
  }

  // ----- Counting

  function CountIf<T>(s: seq<T>, p: T -> bool): (n: nat)
    ensures n <= |s|
  {
    if s == [] then 0 else CountIf(s[..|s| - 1], p) + if p(s[|s| - 1]) then 1 else 0
  }

  lemma {:induction false} CountIfConcat<T>(a: seq<T>, b: seq<T>, p: T -> bool)
    ensures CountIf(a + b, p) == CountIf(a, p) + CountIf(b, p)
  {
    if b == [] {
      assert a + b == a;
    } else {
      assert (a + b)[..|a + b| - 1] == a + b[..|b| - 1];
      CountIfConcat(a, b[..|b| - 1], p);
    }
  }

  lemma {:induction false} CountIfNone<T>(s: seq<T>, p: T -> bool)
    requires forall i :: 0 <= i < |s| ==> !p(s[i])
    ensures CountIf(s, p) == 0
  {
    if s != [] { CountIfNone(s[..|s| - 1], p); }
  }

  lemma CountIfOne<T>(x: T, p: T -> bool)
    ensures CountIf([x], p) == if p(x) then 1 else 0
  {
    var s := [x];
    assert s[..|s| - 1] == [];
  }

  lemma CountIfMiddle<T>(left: seq<T>, x: T, right: seq<T>, p: T -> bool)
    ensures CountIf(left + [x] + right, p) == CountIf(left + right, p) + if p(x) then 1 else 0
  {
    hide CountIf;
    CountIfOne(x, p);
    CountIfConcat(left, [x], p);
    CountIfConcat(left + [x], right, p);
    CountIfConcat(left, right, p);
  }

  lemma Cut<T>(b: seq<T>, x: T) returns (left: seq<T>, right: seq<T>)
    requires x in multiset(b)
    ensures b == left + [x] + right
    ensures multiset(left + right) == multiset(b) - multiset{x}
  {
    var k :| 0 <= k < |b| && b[k] == x;
    left, right := b[..k], b[k + 1..];
    assert b == left + [x] + right;
  }

  /** Counting does not depend on order. */
  lemma {:induction false} CountIfPermuted<T>(a: seq<T>, b: seq<T>, p: T -> bool)
    requires multiset(a) == multiset(b)
    ensures CountIf(a, p) == CountIf(b, p)
    decreases |a|
  {
    if a == [] {
      assert |multiset(b)| == |b|;
    } else {
      hide CountIf;
      var init, x := a[..|a| - 1], a[|a| - 1];
      assert a == init + [x];
      CountIfConcat(init, [x], p);
      CountIfOne(x, p);
      var left, right := Cut(b, x);
      CountIfMiddle(left, x, right, p);
      assert multiset(init) == multiset(left + right);
      CountIfPermuted(init, left + right, p);
    }
  }
}
