/**
 Sorting by a strict order that separates all elements of the list, so that the
 sorted list is unique.
 */
module Sorting {

  ghost predicate StrictOrder<T(!new)>(before: (T, T) -> bool) {
    && (forall a :: !before(a, a))
    && (forall a, b, c :: before(a, b) && before(b, c) ==> before(a, c))
  }

  /** Any two positions of the list are ordered one way or the other. */
  ghost predicate Separates<T>(before: (T, T) -> bool, s: seq<T>) {
    forall i, j :: 0 <= i < j < |s| ==> before(s[i], s[j]) || before(s[j], s[i])
  }

  ghost predicate Ascending<T>(before: (T, T) -> bool, s: seq<T>) {
    forall i, j :: 0 <= i < j < |s| ==> before(s[i], s[j])
  }

  function Insert<T>(x: T, s: seq<T>, before: (T, T) -> bool): seq<T> {
    if s == [] then [x]
    else if before(x, s[0]) then [x] + s
    else [s[0]] + Insert(x, s[1..], before)
  }

  function Sort<T>(s: seq<T>, before: (T, T) -> bool): seq<T> {
    if s == [] then [] else Insert(s[0], Sort(s[1..], before), before)
  }

  lemma {:induction false} InsertPermutes<T>(x: T, s: seq<T>, before: (T, T) -> bool)
    ensures multiset(Insert(x, s, before)) == multiset(s) + multiset{x}
  {
    if s != [] && !before(x, s[0]) {
      InsertPermutes(x, s[1..], before);
      assert s == [s[0]] + s[1..];
    }
  }

  /** Sorting keeps every element as often as it occurs. */
  lemma {:induction false} SortPermutes<T>(s: seq<T>, before: (T, T) -> bool)
    ensures multiset(Sort(s, before)) == multiset(s)
    ensures |Sort(s, before)| == |s|
  {
    if s != [] {
      SortPermutes(s[1..], before);
      InsertPermutes(s[0], Sort(s[1..], before), before);
      assert s == [s[0]] + s[1..];
    }
    assert |multiset(Sort(s, before))| == |Sort(s, before)| && |multiset(s)| == |s|;
  }

  function Filter<T>(s: seq<T>, keep: T -> bool): seq<T> {
    if s == [] then []
    else (if keep(s[0]) then [s[0]] else []) + Filter(s[1..], keep)
  }

  lemma MemberOfBoth<T>(x: T, s: seq<T>, t: seq<T>)
    requires multiset(s) == multiset(t)
    ensures x in s <==> x in t
  {
    assert x in s <==> x in multiset(s);
    assert x in t <==> x in multiset(t);
  }

  lemma {:induction false} InsertAscends<T(!new)>(x: T, s: seq<T>, before: (T, T) -> bool)
    requires StrictOrder(before) && Ascending(before, s)
    requires forall y :: y in s ==> before(x, y) || before(y, x)
    ensures Ascending(before, Insert(x, s, before))
  {
    if s != [] {
      if before(x, s[0]) {
        assert forall i :: 0 < i < |s| ==> before(s[0], s[i]);
      } else {
        InsertAscends(x, s[1..], before);
        InsertPermutes(x, s[1..], before);
        var rest := Insert(x, s[1..], before);
        forall i | 0 <= i < |rest| ensures before(s[0], rest[i]) {
          assert rest[i] in multiset(rest);
          assert rest[i] == x || rest[i] in multiset(s[1..]);
          if rest[i] != x {
            assert rest[i] in s[1..];
          }
        }
      }
    }
  }

  lemma {:induction false} SortAscends<T(!new)>(s: seq<T>, before: (T, T) -> bool)
    requires StrictOrder(before) && Separates(before, s)
    ensures Ascending(before, Sort(s, before))
  {
    if s != [] {
      SortAscends(s[1..], before);
      SortPermutes(s[1..], before);
      var rest := Sort(s[1..], before);
      forall y | y in rest ensures before(s[0], y) || before(y, s[0]) {
        MemberOfBoth(y, rest, s[1..]);
        var i :| 0 <= i < |s[1..]| && s[1..][i] == y;
        assert s[i + 1] == y;
      }
      InsertAscends(s[0], rest, before);
    }
  }

  lemma HeadPrecedes<T>(s: seq<T>, x: T, before: (T, T) -> bool)
    requires Ascending(before, s) && x in s
    ensures x == s[0] || before(s[0], x)
  {
    var i :| 0 <= i < |s| && s[i] == x;
  }

  lemma TailMultiset<T>(s: seq<T>)
    requires s != []
    ensures multiset(s[1..]) == multiset(s) - multiset{s[0]} && s == [s[0]] + s[1..]
  {
    assert s == [s[0]] + s[1..];
  }

  /** Two ascending lists of the same elements are the same list. */
  lemma {:induction false} AscendingIsUnique<T(!new)>(s: seq<T>, t: seq<T>, before: (T, T) -> bool)
    requires StrictOrder(before) && Ascending(before, s) && Ascending(before, t)
    requires multiset(s) == multiset(t)
    ensures s == t
  {
    assert |s| == |multiset(s)| == |multiset(t)| == |t|;
    if s != [] {
      MemberOfBoth(s[0], s, t);
      MemberOfBoth(t[0], s, t);
      HeadPrecedes(s, t[0], before);
      HeadPrecedes(t, s[0], before);
      assert s[0] == t[0];
      TailMultiset(s);
      TailMultiset(t);
      AscendingIsUnique(s[1..], t[1..], before);
    }
  }

  /** Ascending lists with the same members are the same list. */
  lemma {:induction false} AscendingByMembers<T(!new)>(s: seq<T>, t: seq<T>, before: (T, T) -> bool)
    requires StrictOrder(before) && Ascending(before, s) && Ascending(before, t)
    requires forall x :: x in s <==> x in t
    ensures s == t
  {
    assert (s != [] ==> s[0] in s) && (t != [] ==> t[0] in t);
    if s != [] && t != [] {
      HeadPrecedes(s, t[0], before);
      HeadPrecedes(t, s[0], before);
      forall x ensures x in s[1..] <==> x in t[1..] {
        TailMembers(s, x, before);
        TailMembers(t, x, before);
      }
      AscendingByMembers(s[1..], t[1..], before);
      assert s == [s[0]] + s[1..] && t == [t[0]] + t[1..];
    }
  }

  lemma TailMembers<T(!new)>(s: seq<T>, x: T, before: (T, T) -> bool)
    requires StrictOrder(before) && Ascending(before, s) && s != []
    ensures x in s[1..] <==> x in s && x != s[0]
  {
    assert s == [s[0]] + s[1..];
    if x in s[1..] {
      var i :| 0 <= i < |s[1..]| && s[1..][i] == x;
      assert before(s[0], s[i + 1]);
    }
  }

  /** The order in which elements arrive does not matter to the sorted list. */
  lemma SortIgnoresArrival<T(!new)>(s: seq<T>, t: seq<T>, before: (T, T) -> bool)
    requires StrictOrder(before) && Separates(before, s) && Separates(before, t)
    requires multiset(s) == multiset(t)
    ensures Sort(s, before) == Sort(t, before)
  {
    SortAscends(s, before);
    SortAscends(t, before);
    SortPermutes(s, before);
    SortPermutes(t, before);
    AscendingIsUnique(Sort(s, before), Sort(t, before), before);
  }

  // ----- filtering

  lemma {:induction false} FilterMember<T>(s: seq<T>, keep: T -> bool, x: T)
    ensures x in Filter(s, keep) <==> x in s && keep(x)
  {
    if s != [] {
      FilterMember(s[1..], keep, x);
      assert s == [s[0]] + s[1..];
    }
  }

  lemma {:induction false} FilterAscends<T>(s: seq<T>, keep: T -> bool, before: (T, T) -> bool)
    requires Ascending(before, s)
    ensures Ascending(before, Filter(s, keep))
  {
    if s != [] {
      FilterAscends(s[1..], keep, before);
      var rest := Filter(s[1..], keep);
      forall i | 0 <= i < |rest| ensures before(s[0], rest[i]) {
        FilterMember(s[1..], keep, rest[i]);
        var j :| 0 <= j < |s[1..]| && s[1..][j] == rest[i];
        assert s[j + 1] == rest[i];
      }
    }
  }

  lemma {:induction false} FilterSeparates<T>(s: seq<T>, keep: T -> bool, before: (T, T) -> bool)
    requires Separates(before, s)
    ensures Separates(before, Filter(s, keep))
  {
    if s != [] {
      FilterSeparates(s[1..], keep, before);
      var rest := Filter(s[1..], keep);
      forall i | 0 <= i < |rest| ensures before(s[0], rest[i]) || before(rest[i], s[0]) {
        FilterMember(s[1..], keep, rest[i]);
        var j :| 0 <= j < |s[1..]| && s[1..][j] == rest[i];
        assert s[j + 1] == rest[i];
      }
    }
  }

  lemma FilterCons<T>(x: T, s: seq<T>, keep: T -> bool)
    ensures Filter([x] + s, keep) == (if keep(x) then [x] else []) + Filter(s, keep)
  {
    assert ([x] + s)[1..] == s;
  }

  /** What precedes the whole list goes to the front of what is kept of it. */
  lemma InsertAtFront<T(!new)>(x: T, s: seq<T>, keep: T -> bool, before: (T, T) -> bool)
    requires StrictOrder(before) && Ascending(before, s) && s != [] && before(x, s[0])
    ensures Insert(x, Filter(s, keep), before) == [x] + Filter(s, keep)
  {
    var kept := Filter(s, keep);
    if kept != [] {
      FilterMember(s, keep, kept[0]);
      HeadPrecedes(s, kept[0], before);
    }
  }

  lemma {:induction false} FilterInsert<T(!new)>(x: T, s: seq<T>, keep: T -> bool, before: (T, T) -> bool)
    requires StrictOrder(before) && Ascending(before, s)
    ensures Filter(Insert(x, s, before), keep) ==
            if keep(x) then Insert(x, Filter(s, keep), before) else Filter(s, keep)
  {
    if s == [] {
      FilterCons(x, [], keep);
    } else if before(x, s[0]) {
      FilterCons(x, s, keep);
      InsertAtFront(x, s, keep, before);
    } else {
      FilterInsert(x, s[1..], keep, before);
      FilterCons(s[0], Insert(x, s[1..], before), keep);
      FilterCons(s[0], s[1..], keep);
      assert s == [s[0]] + s[1..];
      var kept := Filter(s[1..], keep);
      InsertBehind(x, s[0], kept, before);
      assert [] + kept == kept && [] + Insert(x, kept, before) == Insert(x, kept, before);
    }
  }

  lemma InsertBehind<T>(x: T, head: T, s: seq<T>, before: (T, T) -> bool)
    requires !before(x, head)
    ensures Insert(x, [head] + s, before) == [head] + Insert(x, s, before)
  {
    assert ([head] + s)[1..] == s;
  }

  /** Filtering before sorting is filtering after sorting. */
  lemma {:induction false} FilterSort<T(!new)>(s: seq<T>, keep: T -> bool, before: (T, T) -> bool)
    requires StrictOrder(before) && Separates(before, s)
    ensures Sort(Filter(s, keep), before) == Filter(Sort(s, before), keep)
  {
    if s != [] {
      FilterSort(s[1..], keep, before);
      SortAscends(s[1..], before);
      FilterInsert(s[0], Sort(s[1..], before), keep, before);
      hide Insert;
      if keep(s[0]) {
        assert Filter(s, keep)[1..] == Filter(s[1..], keep);
      } else {
        assert Filter(s, keep) == Filter(s[1..], keep);
      }
    }
  }
}
