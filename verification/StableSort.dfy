/** The sort every component relies on: `Array.prototype.sort` is stable, so its result is the one
    sequence that is ordered and keeps tied elements in their original order. */
module StableSort {

  ghost predicate TotalPreorder<T(!new)>(le: (T, T) -> bool) {
    && (forall x, y :: le(x, y) || le(y, x))
    && (forall x, y, z :: le(x, y) && le(y, z) ==> le(x, z))
  }

  predicate Tied<T>(le: (T, T) -> bool, x: T, y: T) {
    le(x, y) && le(y, x)
  }

  ghost predicate Sorted<T(!new)>(le: (T, T) -> bool, s: seq<T>) {
    forall i, j :: 0 <= i < j < |s| ==> le(s[i], s[j])
  }

  /** The elements of `s` tied with `x`, in order. */
  function Ties<T>(le: (T, T) -> bool, x: T, s: seq<T>): seq<T> {
    if s == [] then []
    else
      var rest := Ties(le, x, s[..|s| - 1]);
      var last := s[|s| - 1];
      if Tied(le, x, last) then rest + [last] else rest
  }

  /** Places `x` behind every element that is not greater. */
  function Insert<T>(le: (T, T) -> bool, x: T, s: seq<T>): seq<T> {
    if s == [] then [x]
    else if le(s[|s| - 1], x) then s + [x]
    else Insert(le, x, s[..|s| - 1]) + [s[|s| - 1]]
  }

  function Sort<T>(le: (T, T) -> bool, s: seq<T>): seq<T> {
    if s == [] then [] else Insert(le, s[|s| - 1], Sort(le, s[..|s| - 1]))
  }

  lemma MembersStayBelow<T(!new)>(le: (T, T) -> bool, r: seq<T>, init: seq<T>, x: T, top: T)
    requires multiset(r) == multiset(init) + multiset{x}
    requires le(x, top) && forall i :: 0 <= i < |init| ==> le(init[i], top)
    ensures forall i :: 0 <= i < |r| ==> le(r[i], top)
  {
    forall i | 0 <= i < |r| ensures le(r[i], top) {
      assert r[i] in multiset(r);
      if r[i] != x { assert r[i] in multiset(init); }
    }
  }

  lemma LastFits<T(!new)>(le: (T, T) -> bool, s: seq<T>, x: T)
    requires TotalPreorder(le) && Sorted(le, s) && (s != [] ==> le(s[|s| - 1], x))
    ensures Sorted(le, s + [x])
  {
    forall i | 0 <= i < |s| ensures le(s[i], x) { assert le(s[i], s[|s| - 1]); }
  }

  /** The part up to the last element changed, the last element put back. */
  lemma LastGoesBack<T(!new)>(le: (T, T) -> bool, init: seq<T>, last: T, x: T, r: seq<T>)
    requires Sorted(le, init + [last]) && Sorted(le, r) && le(x, last)
    requires multiset(r) == multiset(init) + multiset{x}
    ensures Sorted(le, r + [last]) && multiset(r + [last]) == multiset(init + [last]) + multiset{x}
  {
    forall i | 0 <= i < |init| ensures le(init[i], last) { assert le((init + [last])[i], (init + [last])[|init|]); }
    MembersStayBelow(le, r, init, x, last);
  }

  lemma {:induction false} InsertKeeps<T(!new)>(le: (T, T) -> bool, x: T, s: seq<T>)
    requires TotalPreorder(le) && Sorted(le, s)
    ensures Sorted(le, Insert(le, x, s))
    ensures multiset(Insert(le, x, s)) == multiset(s) + multiset{x}
    ensures |Insert(le, x, s)| == |s| + 1
  {
    if s != [] {
      var init, last := s[..|s| - 1], s[|s| - 1];
      assert s == init + [last];
      if le(last, x) {
        LastFits(le, s, x);
      } else {
        InsertKeeps(le, x, init);
        LastGoesBack(le, init, last, x, Insert(le, x, init));
      }
    }
  }

  lemma {:induction false} InsertTies<T(!new)>(le: (T, T) -> bool, x: T, s: seq<T>, y: T)
    requires TotalPreorder(le)
    ensures Ties(le, y, Insert(le, x, s)) == Ties(le, y, s) + (if Tied(le, y, x) then [x] else [])
  {
    if s == [] {
      assert [x][..0] == [];
    } else {
      var init, last := s[..|s| - 1], s[|s| - 1];
      if le(last, x) {
        assert (s + [x])[..|s|] == s;
      } else {
        InsertTies(le, x, init, y);
        var r := Insert(le, x, init);
        assert (r + [last])[..|r|] == r;
      }
    }
  }

  /** Sorting orders, permutes, and keeps the order of ties. */
  lemma {:induction false} SortIsStable<T(!new)>(le: (T, T) -> bool, s: seq<T>)
    requires TotalPreorder(le)
    ensures Sorted(le, Sort(le, s))
    ensures multiset(Sort(le, s)) == multiset(s) && |Sort(le, s)| == |s|
    ensures forall x :: Ties(le, x, Sort(le, s)) == Ties(le, x, s)
  {
    if s != [] {
      var init, last := s[..|s| - 1], s[|s| - 1];
      assert s == init + [last];
      SortIsStable(le, init);
      InsertKeeps(le, last, Sort(le, init));
      forall x ensures Ties(le, x, Sort(le, s)) == Ties(le, x, s) {
        InsertTies(le, last, Sort(le, init), x);
      }
    }
  }

  lemma {:induction false} TiesAreMembers<T(!new)>(le: (T, T) -> bool, x: T, s: seq<T>)
    ensures forall y :: y in Ties(le, x, s) <==> y in s && Tied(le, x, y)
  {
    if s != [] {
      assert s == s[..|s| - 1] + [s[|s| - 1]];
      TiesAreMembers(le, x, s[..|s| - 1]);
    }
  }

  lemma {:induction false} LastIsMaximal<T(!new)>(le: (T, T) -> bool, r: seq<T>, t: seq<T>)
    requires TotalPreorder(le) && Sorted(le, r)
    requires r != [] && t != []
    requires forall x :: Ties(le, x, r) == Ties(le, x, t)
    ensures le(t[|t| - 1], r[|r| - 1])
  {
    var y := t[|t| - 1];
    TiesAreMembers(le, y, r);
    TiesAreMembers(le, y, t);
    assert y in Ties(le, y, t);
  }

  /** The order and the order of ties leave no freedom: there is one stable sort. */
  lemma {:induction false} StableSortIsUnique<T(!new)>(le: (T, T) -> bool, r: seq<T>, t: seq<T>)
    requires TotalPreorder(le) && Sorted(le, r) && Sorted(le, t)
    requires forall x :: Ties(le, x, r) == Ties(le, x, t)
    ensures r == t
  {
    if r == [] || t == [] {
      if r != [] { assert r[0] in r && Ties(le, r[0], t) == []; TiesAreMembers(le, r[0], r); }
      if t != [] { assert t[0] in t && Ties(le, t[0], r) == []; TiesAreMembers(le, t[0], t); }
    } else {
      LastIsMaximal(le, r, t);
      LastIsMaximal(le, t, r);
      var x, y := r[|r| - 1], t[|t| - 1];
      assert Tied(le, x, y) && Tied(le, x, x);
      assert Ties(le, x, r)[|Ties(le, x, r)| - 1] == x;
      assert Ties(le, x, t)[|Ties(le, x, t)| - 1] == y;
      var r', t' := r[..|r| - 1], t[..|t| - 1];
      forall z ensures Ties(le, z, r') == Ties(le, z, t') {
        assert Ties(le, z, r) == Ties(le, z, t);
        if Tied(le, z, x) {
          assert Ties(le, z, r)[..|Ties(le, z, r)| - 1] == Ties(le, z, r');
          assert Ties(le, z, t)[..|Ties(le, z, t)| - 1] == Ties(le, z, t');
        }
      }
      StableSortIsUnique(le, r', t');
      assert r == r' + [x] && t == t' + [y];
    }
  }

  lemma SortOfSorted<T(!new)>(le: (T, T) -> bool, s: seq<T>)
    requires TotalPreorder(le) && Sorted(le, s)
    ensures Sort(le, s) == s
  {
  }

  ghost predicate NoTies<T(!new)>(le: (T, T) -> bool, s: seq<T>) {
    forall i, j :: 0 <= i < j < |s| ==> !Tied(le, s[i], s[j])
  }

  lemma {:induction false} AtMostOneTie<T(!new)>(le: (T, T) -> bool, x: T, s: seq<T>)
    requires TotalPreorder(le) && NoTies(le, s)
    ensures |Ties(le, x, s)| <= 1
  {
    if s != [] {
      var init, last := s[..|s| - 1], s[|s| - 1];
      AtMostOneTie(le, x, init);
      if Tied(le, x, last) {
        TiesAreMembers(le, x, init);
        forall y | y in init ensures !Tied(le, x, y) {
          var i :| 0 <= i < |init| && init[i] == y;
          assert s[i] == y && !Tied(le, s[i], s[|s| - 1]);
        }
        SameSingleton([], Ties(le, x, init));
      }
    }
  }

  lemma SameSingleton<T>(a: seq<T>, b: seq<T>)
    requires |a| <= 1 && |b| <= 1 && (forall y :: y in a <==> y in b)
    ensures a == b
  {
    if a != [] { assert a[0] in b; }
    if b != [] { assert b[0] in a; }
  }

  /** Without ties the result depends on the elements alone, not on their order. */
  lemma SortIgnoresOrder<T(!new)>(le: (T, T) -> bool, s: seq<T>, t: seq<T>)
    requires TotalPreorder(le) && NoTies(le, s) && NoTies(le, t)
    requires forall x :: x in s <==> x in t
    ensures Sort(le, s) == Sort(le, t)
  {
    SortIsStable(le, s);
    SortIsStable(le, t);
    forall x ensures Ties(le, x, Sort(le, s)) == Ties(le, x, Sort(le, t)) {
      AtMostOneTie(le, x, s);
      AtMostOneTie(le, x, t);
      TiesAreMembers(le, x, s);
      TiesAreMembers(le, x, t);
      SameSingleton(Ties(le, x, s), Ties(le, x, t));
    }
    StableSortIsUnique(le, Sort(le, s), Sort(le, t));
  }
}
