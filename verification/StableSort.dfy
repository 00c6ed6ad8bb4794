// Stable sorting by a comparison, as sort.SliceStable of the Go library promises it, and the order of
// node ids.
module StableSort {
  import opened Common

  /** A strict weak order: what a comparison must be for the result of a sort to mean anything. */
  ghost predicate WeakOrder<T(!new)>(less: (T, T) -> bool) {
    && (forall x, y :: less(x, y) ==> !less(y, x))
    && (forall x, y, z :: less(x, z) ==> less(x, y) || less(y, z))
  }

  /** Before the first element that x is less than, so after all its ties. */
  function Insert<T>(x: T, s: seq<T>, less: (T, T) -> bool): seq<T> {
    if s == [] then [x] else if less(x, s[0]) then [x] + s else [s[0]] + Insert(x, s[1..], less)
  }

  function InsertAll<T>(xs: seq<T>, s: seq<T>, less: (T, T) -> bool): seq<T> {
    if xs == [] then s else InsertAll(xs[1..], Insert(xs[0], s, less), less)
  }

  function Sort<T>(xs: seq<T>, less: (T, T) -> bool): seq<T> { InsertAll(xs, [], less) }

  lemma {:induction false} InsertAllConcat<T>(xs: seq<T>, ys: seq<T>, s: seq<T>, less: (T, T) -> bool)
    ensures InsertAll(xs + ys, s, less) == InsertAll(ys, InsertAll(xs, s, less), less)
  {
    if xs == [] {
      assert xs + ys == ys;
    } else {
      assert (xs + ys)[1..] == xs[1..] + ys;
      InsertAllConcat(xs[1..], ys, Insert(xs[0], s, less), less);
    }
  }

  lemma {:induction false} InsertKeeps<T>(x: T, s: seq<T>, less: (T, T) -> bool)
    ensures multiset(Insert(x, s, less)) == multiset(s) + multiset{x}
    ensures |Insert(x, s, less)| == |s| + 1
  {
    if s != [] && !less(x, s[0]) {
      InsertKeeps(x, s[1..], less);
      assert s == [s[0]] + s[1..];
    }
  }

  lemma {:induction false} InsertAllKeeps<T>(xs: seq<T>, s: seq<T>, less: (T, T) -> bool)
    ensures multiset(InsertAll(xs, s, less)) == multiset(xs) + multiset(s)
    ensures |InsertAll(xs, s, less)| == |xs| + |s|
  {
    if xs == [] {
    } else {
      InsertKeeps(xs[0], s, less);
      InsertAllKeeps(xs[1..], Insert(xs[0], s, less), less);
      assert xs == [xs[0]] + xs[1..];
    }
  }

  /** Sorting only rearranges. */
  lemma SortKeeps<T>(xs: seq<T>, less: (T, T) -> bool)
    ensures multiset(Sort(xs, less)) == multiset(xs) && |Sort(xs, less)| == |xs|
  {
    InsertAllKeeps(xs, [], less);
  }

  lemma MemberOf<T>(s: seq<T>, t: seq<T>)
    requires multiset(s) == multiset(t)
    ensures forall x :: x in s <==> x in t
  {
    forall x ensures x in s <==> x in t { assert x in multiset(s) <==> x in multiset(t); }
  }

  lemma SortTwo<T>(a: T, b: T, less: (T, T) -> bool)
    requires !less(b, a)
    ensures Sort([a, b], less) == [a, b]
  {
    assert [a, b][1..] == [b] && [a][1..] == [] && [b][1..] == [];
    assert Insert(a, [], less) == [a];
    assert Insert(b, [a], less) == [a] + Insert(b, [a][1..], less) == [a, b];
    assert InsertAll([a, b], [], less) == InsertAll([a, b][1..], [a], less);
    assert InsertAll([b], [a], less) == InsertAll([b][1..], [a, b], less);
  }

  // ---------------------------------------------------------------- sorted, with ties in their old order

  /** Sorted by the comparison, and ties still sorted by the older one. */
  ghost predicate Ordered<T(!new)>(s: seq<T>, less: (T, T) -> bool, older: (T, T) -> bool) {
    forall i, j :: 0 <= i < j < |s| ==> InOrder(s[i], s[j], less, older)
  }

  predicate InOrder<T>(x: T, y: T, less: (T, T) -> bool, older: (T, T) -> bool) {
    !less(y, x) && (less(x, y) || !older(y, x))
  }

  lemma LessThrough<T(!new)>(x: T, y: T, z: T, less: (T, T) -> bool)
    requires WeakOrder(less) && less(x, y) && !less(z, y)
    ensures less(x, z) && !less(z, x)
  {
    assert less(x, z) || less(z, y);
  }

  lemma {:induction false} InsertOrdered<T(!new)>(x: T, s: seq<T>, less: (T, T) -> bool, older: (T, T) -> bool)
    requires WeakOrder(less) && Ordered(s, less, older) && forall y :: y in s ==> !older(x, y)
    ensures Ordered(Insert(x, s, less), less, older)
  {
    if s == [] {
    } else if less(x, s[0]) {
      var r := [x] + s;
      forall j | 0 <= j < |s| ensures InOrder(x, s[j], less, older) {
        if j > 0 { assert InOrder(s[0], s[j], less, older); }
        LessThrough(x, s[0], s[j], less);
      }
      forall i, j | 0 <= i < j < |r| ensures InOrder(r[i], r[j], less, older) {
        if i > 0 { assert InOrder(s[i - 1], s[j - 1], less, older); }
      }
    } else {
      var rest := Insert(x, s[1..], less);
      InsertOrdered(x, s[1..], less, older);
      InsertKeeps(x, s[1..], less);
      var r := [s[0]] + rest;
      forall j | 0 <= j < |rest| ensures InOrder(s[0], rest[j], less, older) {
        assert rest[j] in multiset(rest);
        if rest[j] != x {
          assert rest[j] in multiset(s[1..]) && rest[j] in s[1..];
          var k :| 0 <= k < |s[1..]| && s[1..][k] == rest[j];
          assert InOrder(s[0], s[k + 1], less, older);
        } else {
          assert s[0] in s;
        }
      }
      forall i, j | 0 <= i < j < |r| ensures InOrder(r[i], r[j], less, older) {
        if i > 0 { assert InOrder(rest[i - 1], rest[j - 1], less, older); }
      }
    }
  }

  lemma {:induction false} InsertAllOrdered<T(!new)>(xs: seq<T>, s: seq<T>, less: (T, T) -> bool, older: (T, T) -> bool)
    requires WeakOrder(less) && Ordered(s, less, older)
    requires forall i, j :: 0 <= i < j < |xs| ==> !older(xs[j], xs[i])
    requires forall x, y :: x in xs && y in s ==> !older(x, y)
    ensures Ordered(InsertAll(xs, s, less), less, older)
  {
    if xs != [] {
      var t := Insert(xs[0], s, less);
      InsertOrdered(xs[0], s, less, older);
      InsertKeeps(xs[0], s, less);
      forall x, y | x in xs[1..] && y in t ensures !older(x, y) {
        assert y in multiset(t);
        if y != xs[0] { assert y in multiset(s) && y in s; }
      }
      InsertAllOrdered(xs[1..], t, less, older);
    }
  }

  /** A stable sort: the result is in order, and elements the comparison ties keep the order they came in. */
  lemma SortOrdered<T(!new)>(xs: seq<T>, less: (T, T) -> bool, older: (T, T) -> bool)
    requires WeakOrder(less) && forall i, j :: 0 <= i < j < |xs| ==> !older(xs[j], xs[i])
    ensures Ordered(Sort(xs, less), less, older)
  {
    InsertAllOrdered(xs, [], less, older);
  }

  // ---------------------------------------------------------------- there is only one stable sort

  predicate Tied<T>(x: T, y: T, less: (T, T) -> bool) { !less(x, y) && !less(y, x) }

  /** The elements that tie with t, in their order. */
  function Ties<T>(s: seq<T>, t: T, less: (T, T) -> bool): seq<T> {
    if s == [] then [] else (if Tied(s[0], t, less) then [s[0]] else []) + Ties(s[1..], t, less)
  }

  ghost predicate Sorted<T(!new)>(s: seq<T>, less: (T, T) -> bool) {
    forall i, j :: 0 <= i < j < |s| ==> !less(s[j], s[i])
  }

  /** ys has the elements of xs, and those that tie stand in the order they have in xs. */
  ghost predicate SameTies<T(!new)>(xs: seq<T>, ys: seq<T>, less: (T, T) -> bool) {
    forall t :: Ties(ys, t, less) == Ties(xs, t, less)
  }

  lemma {:induction false} TiesAre<T>(s: seq<T>, t: T, less: (T, T) -> bool)
    ensures forall x :: x in Ties(s, t, less) <==> x in s && Tied(x, t, less)
  {
    if s != [] { TiesAre(s[1..], t, less); }
  }

  lemma TiedThrough<T(!new)>(x: T, y: T, t: T, less: (T, T) -> bool)
    requires WeakOrder(less) && less(x, y) && Tied(x, t, less)
    ensures less(t, y) && !Tied(y, t, less)
  {
    assert less(x, t) || less(t, y);
  }

  lemma {:induction false} NothingTied<T>(s: seq<T>, t: T, less: (T, T) -> bool)
    requires forall k :: 0 <= k < |s| ==> !Tied(s[k], t, less)
    ensures Ties(s, t, less) == []
  {
    if s != [] { NothingTied(s[1..], t, less); }
  }

  lemma NoTiesAbove<T(!new)>(x: T, s: seq<T>, t: T, less: (T, T) -> bool)
    requires WeakOrder(less) && Sorted(s, less) && s != [] && less(x, s[0]) && Tied(x, t, less)
    ensures Ties(s, t, less) == []
  {
    forall k | 0 <= k < |s| ensures !Tied(s[k], t, less) {
      var y := s[k];
      if k > 0 { LessThrough(x, s[0], y, less); }
      TiedThrough(x, y, t, less);
    }
    NothingTied(s, t, less);
  }

  lemma TiesCons<T>(x: T, s: seq<T>, t: T, less: (T, T) -> bool)
    ensures Ties([x] + s, t, less) == (if Tied(x, t, less) then [x] else []) + Ties(s, t, less)
  {
    assert ([x] + s)[1..] == s;
  }

  lemma {:induction false} InsertTies<T(!new)>(x: T, s: seq<T>, t: T, less: (T, T) -> bool)
    requires WeakOrder(less) && Sorted(s, less)
    ensures Ties(Insert(x, s, less), t, less) == Ties(s, t, less) + (if Tied(x, t, less) then [x] else [])
  {
    if s == [] {
    } else if less(x, s[0]) {
      TiesCons(x, s, t, less);
      if Tied(x, t, less) { NoTiesAbove(x, s, t, less); }
    } else {
      InsertTies(x, s[1..], t, less);
      TiesCons(s[0], Insert(x, s[1..], less), t, less);
    }
  }

  lemma InsertSorted<T(!new)>(x: T, s: seq<T>, less: (T, T) -> bool)
    requires WeakOrder(less) && Sorted(s, less)
    ensures Sorted(Insert(x, s, less), less)
  {
    var older := (a: T, b: T) => false;
    forall i, j | 0 <= i < j < |s| ensures InOrder(s[i], s[j], less, older) {}
    InsertOrdered(x, s, less, older);
    var r := Insert(x, s, less);
    forall i, j | 0 <= i < j < |r| ensures !less(r[j], r[i]) { assert InOrder(r[i], r[j], less, older); }
  }

  lemma {:induction false} InsertAllTies<T(!new)>(xs: seq<T>, s: seq<T>, t: T, less: (T, T) -> bool)
    requires WeakOrder(less) && Sorted(s, less)
    ensures Ties(InsertAll(xs, s, less), t, less) == Ties(s, t, less) + Ties(xs, t, less)
  {
    if xs == [] {
      assert Ties(s, t, less) + [] == Ties(s, t, less);
    } else {
      InsertSorted(xs[0], s, less);
      InsertTies(xs[0], s, t, less);
      InsertAllTies(xs[1..], Insert(xs[0], s, less), t, less);
      FirstTieMoves(xs, Ties(s, t, less), t, less);
    }
  }

  lemma FirstTieMoves<T>(xs: seq<T>, before: seq<T>, t: T, less: (T, T) -> bool)
    requires xs != []
    ensures before + (if Tied(xs[0], t, less) then [xs[0]] else []) + Ties(xs[1..], t, less)
         == before + Ties(xs, t, less)
  {
    Regroup(before, if Tied(xs[0], t, less) then [xs[0]] else [], Ties(xs[1..], t, less));
  }

  lemma {:induction false} InsertAllSorted<T(!new)>(xs: seq<T>, s: seq<T>, less: (T, T) -> bool)
    requires WeakOrder(less) && Sorted(s, less)
    ensures Sorted(InsertAll(xs, s, less), less)
  {
    if xs != [] {
      InsertSorted(xs[0], s, less);
      InsertAllSorted(xs[1..], Insert(xs[0], s, less), less);
    }
  }

  lemma FirstsTie<T(!new)>(ys: seq<T>, zs: seq<T>, less: (T, T) -> bool)
    requires WeakOrder(less) && Sorted(ys, less) && Sorted(zs, less) && SameTies(ys, zs, less)
    requires ys != [] && zs != []
    ensures ys[0] == zs[0]
  {
    var y, z := ys[0], zs[0];
    TiesAre(ys, y, less);
    TiesAre(zs, y, less);
    TiesAre(ys, z, less);
    TiesAre(zs, z, less);
    assert y in ys && z in zs && Tied(y, y, less) && Tied(z, z, less);
    assert y in zs && z in ys;
    FirstIsLeast(ys, z, less);
    FirstIsLeast(zs, y, less);
    assert Ties(ys, y, less)[0] == y && Ties(zs, y, less)[0] == z;
  }

  lemma FirstIsLeast<T(!new)>(s: seq<T>, x: T, less: (T, T) -> bool)
    requires WeakOrder(less) && Sorted(s, less) && x in s
    ensures !less(x, s[0])
  {
    var k :| 0 <= k < |s| && s[k] == x;
    if k == 0 { assert !less(x, x); }
  }

  lemma RestTies<T(!new)>(ys: seq<T>, zs: seq<T>, less: (T, T) -> bool)
    requires ys != [] && zs != [] && ys[0] == zs[0] && SameTies(ys, zs, less)
    ensures SameTies(ys[1..], zs[1..], less)
  {
    forall t ensures Ties(zs[1..], t, less) == Ties(ys[1..], t, less) {
      var first := if Tied(ys[0], t, less) then [ys[0]] else [];
      assert Ties(ys, t, less) == first + Ties(ys[1..], t, less);
      assert Ties(zs, t, less) == first + Ties(zs[1..], t, less);
      assert Ties(zs, t, less)[|first|..] == Ties(zs[1..], t, less);
      assert Ties(ys, t, less)[|first|..] == Ties(ys[1..], t, less);
    }
  }

  lemma {:induction false} SortedAlike<T(!new)>(ys: seq<T>, zs: seq<T>, less: (T, T) -> bool)
    requires WeakOrder(less) && Sorted(ys, less) && Sorted(zs, less) && SameTies(ys, zs, less)
    ensures ys == zs
  {
    if |ys| > 0 && |zs| > 0 {
      FirstsTie(ys, zs, less);
      RestTies(ys, zs, less);
      SortedAlike(ys[1..], zs[1..], less);
      assert ys == [ys[0]] + ys[1..] && zs == [zs[0]] + zs[1..];
    } else if |ys| > 0 {
      NothingTies(ys, zs, less);
    } else if |zs| > 0 {
      NothingTies(zs, ys, less);
    }
  }

  lemma NothingTies<T(!new)>(ys: seq<T>, zs: seq<T>, less: (T, T) -> bool)
    requires WeakOrder(less) && ys != []
    ensures zs == [] ==> Ties(ys, ys[0], less) != Ties(zs, ys[0], less)
  {
    assert !less(ys[0], ys[0]);
  }

  lemma SortIsStable<T(!new)>(xs: seq<T>, less: (T, T) -> bool)
    requires WeakOrder(less)
    ensures Sorted(Sort(xs, less), less) && SameTies(xs, Sort(xs, less), less)
  {
    forall t ensures Ties(Sort(xs, less), t, less) == Ties(xs, t, less) {
      InsertAllTies(xs, [], t, less);
      assert [] + Ties(xs, t, less) == Ties(xs, t, less);
    }
    InsertAllSorted(xs, [], less);
  }

  /** Whatever algorithm sorts: a list is sorted and keeps ties in their old order exactly if it is this one. */
  lemma OneStableSort<T(!new)>(xs: seq<T>, ys: seq<T>, less: (T, T) -> bool)
    requires WeakOrder(less)
    ensures Sorted(ys, less) && SameTies(xs, ys, less) <==> ys == Sort(xs, less)
  {
    SortIsStable(xs, less);
    if Sorted(ys, less) && SameTies(xs, ys, less) {
      var zs := Sort(xs, less);
      forall t ensures Ties(zs, t, less) == Ties(ys, t, less) { assert Ties(ys, t, less) == Ties(xs, t, less); }
      SortedAlike(ys, zs, less);
    }
  }

  // ---------------------------------------------------------------- the order the elements arrive in

  lemma {:induction false} InsertCommutes<T(!new)>(a: T, b: T, s: seq<T>, less: (T, T) -> bool)
    requires WeakOrder(less) && !Tied(a, b, less)
    ensures Insert(a, Insert(b, s, less), less) == Insert(b, Insert(a, s, less), less)
  {
    if s == [] {
    } else {
      assert ([a] + s)[1..] == s && ([b] + s)[1..] == s;
      assert ([s[0]] + Insert(a, s[1..], less))[1..] == Insert(a, s[1..], less);
      assert ([s[0]] + Insert(b, s[1..], less))[1..] == Insert(b, s[1..], less);
      var z := s[0];
      if less(a, z) && less(b, z) {
      } else if less(a, z) {
        LessThrough(a, z, b, less);
      } else if less(b, z) {
        LessThrough(b, z, a, less);
      } else {
        InsertCommutes(a, b, s[1..], less);
      }
    }
  }

  lemma {:induction false} InsertAllCommutes<T(!new)>(a: T, xs: seq<T>, s: seq<T>, less: (T, T) -> bool)
    requires WeakOrder(less) && forall x :: x in xs ==> !Tied(a, x, less)
    ensures InsertAll(xs, Insert(a, s, less), less) == Insert(a, InsertAll(xs, s, less), less)
  {
    if xs != [] {
      InsertCommutes(a, xs[0], s, less);
      InsertAllCommutes(a, xs[1..], Insert(xs[0], s, less), less);
    }
  }

  ghost predicate NoTies<T(!new)>(xs: seq<T>, less: (T, T) -> bool) {
    forall i, j :: 0 <= i < j < |xs| ==> !Tied(xs[i], xs[j], less)
  }

  lemma MoveToFront<T(!new)>(before: seq<T>, x: T, after: seq<T>, s: seq<T>, less: (T, T) -> bool)
    requires WeakOrder(less) && forall y :: y in before ==> !Tied(x, y, less)
    ensures InsertAll(before + [x] + after, s, less) == InsertAll(before + after, Insert(x, s, less), less)
  {
    InsertAllConcat(before, after, Insert(x, s, less), less);
    InsertAllCommutes(x, before, s, less);
    InsertAllConcat(before + [x], after, s, less);
    InsertAllConcat(before, [x], s, less);
  }

  lemma Cancel<T>(a: multiset<T>, b: multiset<T>, x: T)
    requires a + multiset{x} == b + multiset{x}
    ensures a == b
  {
    assert a == a + multiset{x} - multiset{x} == b + multiset{x} - multiset{x} == b;
  }

  lemma TakeOut<T>(ys: seq<T>, k: nat, xs: seq<T>)
    requires k < |ys| && xs != [] && ys[k] == xs[0] && multiset(xs) == multiset(ys)
    ensures ys == ys[..k] + [xs[0]] + ys[k + 1..] && multiset(xs[1..]) == multiset(ys[..k] + ys[k + 1..])
  {
    assert xs == [xs[0]] + xs[1..] && ys == ys[..k] + [xs[0]] + ys[k + 1..];
    var rest := ys[..k] + ys[k + 1..];
    assert multiset(ys[..k] + [xs[0]] + ys[k + 1..]) == multiset(ys[..k]) + multiset{xs[0]} + multiset(ys[k + 1..]);
    assert multiset(rest) == multiset(ys[..k]) + multiset(ys[k + 1..]);
    assert multiset(xs[1..]) + multiset{xs[0]} == multiset(xs);
    Cancel(multiset(xs[1..]), multiset(rest), xs[0]);
  }

  lemma NoTiesWithout<T(!new)>(ys: seq<T>, k: nat, less: (T, T) -> bool)
    requires k < |ys| && NoTies(ys, less)
    ensures NoTies(ys[..k] + ys[k + 1..], less) && forall y :: y in ys[..k] ==> !Tied(ys[k], y, less)
  {
    var rest := ys[..k] + ys[k + 1..];
    forall i, j | 0 <= i < j < |rest| ensures !Tied(rest[i], rest[j], less) {
      assert !Tied(ys[if i < k then i else i + 1], ys[if j < k then j else j + 1], less);
    }
  }

  /** Where no two elements tie, the sorted list is a function of the elements, not of their order. */
  lemma {:induction false} OrderIrrelevant<T(!new)>(xs: seq<T>, ys: seq<T>, s: seq<T>, less: (T, T) -> bool)
    requires WeakOrder(less) && NoTies(xs, less) && NoTies(ys, less) && multiset(xs) == multiset(ys)
    ensures InsertAll(xs, s, less) == InsertAll(ys, s, less)
  {
    if xs == [] {
      assert |multiset(ys)| == |ys| == 0;
    } else {
      assert xs[0] in multiset(ys);
      var k :| 0 <= k < |ys| && ys[k] == xs[0];
      TakeOut(ys, k, xs);
      NoTiesWithout(ys, k, less);
      MoveToFront(ys[..k], xs[0], ys[k + 1..], s, less);
      OrderIrrelevant(xs[1..], ys[..k] + ys[k + 1..], Insert(xs[0], s, less), less);
    }
  }

  // ---------------------------------------------------------------- elements that do not clash

  ghost predicate Apart<T(!new)>(s: seq<T>, clash: (T, T) -> bool) {
    forall i, j :: 0 <= i < j < |s| ==> !clash(s[i], s[j]) && !clash(s[j], s[i])
  }

  lemma PrependApart<T(!new)>(x: T, s: seq<T>, clash: (T, T) -> bool)
    requires Apart(s, clash) && forall y :: y in s ==> !clash(x, y) && !clash(y, x)
    ensures Apart([x] + s, clash)
  {
    var r := [x] + s;
    forall i, j | 0 <= i < j < |r| ensures !clash(r[i], r[j]) && !clash(r[j], r[i]) {
      assert r[j] == s[j - 1] && (i > 0 ==> r[i] == s[i - 1]);
    }
  }

  lemma {:induction false} InsertApart<T(!new)>(x: T, s: seq<T>, less: (T, T) -> bool, clash: (T, T) -> bool)
    requires Apart(s, clash) && forall y :: y in s ==> !clash(x, y) && !clash(y, x)
    ensures Apart(Insert(x, s, less), clash)
    ensures forall y :: y in Insert(x, s, less) ==> y == x || y in s
  {
    if s == [] || less(x, s[0]) {
      PrependApart(x, s, clash);
    } else {
      InsertApart(x, s[1..], less, clash);
      forall y | y in Insert(x, s[1..], less) ensures !clash(s[0], y) && !clash(y, s[0]) {
        if y in s[1..] {
          var k :| 0 <= k < |s[1..]| && s[1..][k] == y;
          assert s[k + 1] == y;
        }
      }
      PrependApart(s[0], Insert(x, s[1..], less), clash);
    }
  }

  lemma {:induction false} InsertAllApart<T(!new)>(xs: seq<T>, s: seq<T>, less: (T, T) -> bool, clash: (T, T) -> bool)
    requires Apart(xs, clash) && Apart(s, clash) && forall x, y :: x in xs && y in s ==> !clash(x, y) && !clash(y, x)
    ensures Apart(InsertAll(xs, s, less), clash)
  {
    if xs != [] {
      InsertApart(xs[0], s, less, clash);
      forall x, y | x in xs[1..] && y in Insert(xs[0], s, less) ensures !clash(x, y) && !clash(y, x) {
        if y == xs[0] {
          var k :| 0 <= k < |xs[1..]| && xs[1..][k] == x;
          assert xs[k + 1] == x;
        }
      }
      InsertAllApart(xs[1..], Insert(xs[0], s, less), less, clash);
    }
  }

  // ---------------------------------------------------------------- node ids

  /** The order of strings: character by character, a proper prefix first. */
  predicate StringLess(a: string, b: string) {
    if b == [] then false
    else if a == [] then true
    else a[0] < b[0] || (a[0] == b[0] && StringLess(a[1..], b[1..]))
  }

  lemma {:induction false} StringLessTotal(a: string, b: string)
    ensures StringLess(a, b) ==> !StringLess(b, a) && a != b
    ensures !StringLess(a, b) && !StringLess(b, a) ==> a == b
  {
    if a != [] && b != [] {
      StringLessTotal(a[1..], b[1..]);
      if a[0] == b[0] && a[1..] == b[1..] { assert a == [a[0]] + a[1..] == b; }
    }
  }

  lemma {:induction false} StringLessSplit(a: string, b: string, c: string)
    requires StringLess(a, c)
    ensures StringLess(a, b) || StringLess(b, c)
  {
    if a != [] && b != [] && a[0] == c[0] && b[0] == a[0] { StringLessSplit(a[1..], b[1..], c[1..]); }
  }

  /** The two strings part at place k: one ends there, or the characters differ. */
  predicate PartAt(a: string, b: string, k: nat) {
    && k <= |a| && k <= |b| && a[..k] == b[..k] && k < |b|
    && (k == |a| || a[k] < b[k])
  }

  lemma PartsLater(a: string, b: string, k: nat)
    requires a != [] && b != [] && a[0] == b[0]
    ensures PartAt(a[1..], b[1..], k) <==> PartAt(a, b, k + 1)
  {
    if k + 1 <= |a| && k + 1 <= |b| {
      assert a[..k + 1] == [a[0]] + a[1..][..k] && b[..k + 1] == [b[0]] + b[1..][..k];
      assert a[1..][..k] == a[..k + 1][1..] && b[1..][..k] == b[..k + 1][1..];
    }
  }

  lemma PartsAtFirst(a: string, b: string, k: nat)
    requires PartAt(a, b, k) && a != [] && a[0] != b[0]
    ensures a[0] < b[0]
  {
    HeadsAgree(a, b, k);
  }

  lemma HeadsAgree(a: string, b: string, k: nat)
    requires k <= |a| && k <= |b| && a[..k] == b[..k]
    ensures k > 0 ==> a[0] == b[0]
  {
    if k > 0 { assert a[..k][0] == a[0] && b[..k][0] == b[0]; }
  }

  /** One string is less than another exactly if it is a proper prefix or smaller at the first difference. */
  lemma {:induction false} StringLessMeans(a: string, b: string)
    ensures StringLess(a, b) <==> exists k :: PartAt(a, b, k)
  {
    if a == [] || b == [] {
      assert PartAt(a, b, 0) <==> a == [] && b != [];
    } else if a[0] != b[0] {
      assert PartAt(a, b, 0) <==> a[0] < b[0];
      forall k: nat | PartAt(a, b, k) ensures a[0] < b[0] { PartsAtFirst(a, b, k); }
    } else {
      StringLessMeans(a[1..], b[1..]);
      forall k: nat ensures PartAt(a[1..], b[1..], k) <==> PartAt(a, b, k + 1) { PartsLater(a, b, k); }
      if k: nat :| PartAt(a, b, k) {
        assert k > 0;
        assert PartAt(a[1..], b[1..], k - 1);
      }
      if k: nat :| PartAt(a[1..], b[1..], k) { assert PartAt(a, b, k + 1); }
    }
  }
}
