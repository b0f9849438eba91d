/** Types and sequence facts shared by the component models. */
module Common {

  datatype Option<+T> = None | Some(value: T)

  /** How many elements of `s` satisfy `p`. */
  function Count<T>(s: seq<T>, p: T -> bool): (n: nat)
    ensures n <= |s|
  {
    if s == [] then 0
    else Count(s[..|s| - 1], p) + if p(s[|s| - 1]) then 1 else 0
  }

  /** The value `f` yields on the last element where it yields one. */
  function LastSome<S, T>(s: seq<S>, f: S -> Option<T>): Option<T> {
    if s == [] then None
    else if f(s[|s| - 1]).Some? then f(s[|s| - 1])
    else LastSome(s[..|s| - 1], f)
  }

  lemma {:induction false} CountPositive<T>(s: seq<T>, p: T -> bool)
    ensures Count(s, p) > 0 <==> exists i :: 0 <= i < |s| && p(s[i])
  {
    if s != [] {
      CountPositive(s[..|s| - 1], p);
    }
  }

  lemma {:induction false} CountSnoc<T>(s: seq<T>, i: nat, p: T -> bool)
    requires i < |s|
    ensures Count(s[..i + 1], p) == Count(s[..i], p) + if p(s[i]) then 1 else 0
  {
    assert s[..i + 1][..i] == s[..i];
  }

  lemma {:induction false} CountConcat<T>(s: seq<T>, t: seq<T>, p: T -> bool)
    ensures Count(s + t, p) == Count(s, p) + Count(t, p)
  {
    if t == [] {
      assert s + t == s;
    } else {
      assert (s + t)[..|s + t| - 1] == s + t[..|t| - 1];
      CountConcat(s, t[..|t| - 1], p);
    }
  }

  lemma {:induction false} LastSomeExists<S, T>(s: seq<S>, f: S -> Option<T>)
    ensures LastSome(s, f).Some? <==> exists i :: 0 <= i < |s| && f(s[i]).Some?
    ensures LastSome(s, f).Some? ==>
              exists i :: 0 <= i < |s| && f(s[i]) == LastSome(s, f) && forall j :: i < j < |s| ==> f(s[j]).None?
  {
    if s != [] && f(s[|s| - 1]).None? {
      var front := s[..|s| - 1];
      LastSomeExists(front, f);
      if LastSome(front, f).Some? {
        var i :| 0 <= i < |front| && f(front[i]) == LastSome(front, f) && forall j :: i < j < |front| ==> f(front[j]).None?;
        assert f(s[i]) == LastSome(s, f) && forall j :: i < j < |s| ==> f(s[j]).None?;
      }
    }
  }

  /** The value `f` yields on the first element where it yields one. */
  function FirstSome<S, T>(s: seq<S>, f: S -> Option<T>): Option<T> {
    if s == [] then None
    else if FirstSome(s[..|s| - 1], f).Some? then FirstSome(s[..|s| - 1], f)
    else f(s[|s| - 1])
  }

  lemma {:induction false} FirstSomeExists<S, T>(s: seq<S>, f: S -> Option<T>)
    ensures FirstSome(s, f).Some? <==> exists i :: 0 <= i < |s| && f(s[i]).Some?
    ensures FirstSome(s, f).Some? ==> exists i :: 0 <= i < |s| && f(s[i]) == FirstSome(s, f)
  {
    if s != [] {
      var front := s[..|s| - 1];
      FirstSomeExists(front, f);
      if FirstSome(front, f).Some? {
        var i :| 0 <= i < |front| && f(front[i]) == FirstSome(front, f);
        assert f(s[i]) == FirstSome(s, f);
      }
    }
  }

  lemma {:induction false} LastSomeSnoc<S, T>(s: seq<S>, i: nat, f: S -> Option<T>)
    requires i < |s|
    ensures LastSome(s[..i + 1], f) == if f(s[i]).Some? then f(s[i]) else LastSome(s[..i], f)
  {
    assert s[..i + 1][..i] == s[..i];
  }

  lemma SizeWithout<K, V>(m: map<K, V>, k: K)
    ensures |m| == |m - {k}| + if k in m then 1 else 0
  {
    if k in m {
      assert m == (m - {k})[k := m[k]];
    } else {
      assert m == m - {k};
    }
  }

  lemma OverrideThenSet<K, V>(m: map<K, V>, d: map<K, V>, k: K, v: V)
    ensures (m + d)[k := v] == m + d[k := v]
  {
  }

  function FoldChar(c: char): char {
    if 'A' <= c <= 'Z' then c - 'A' + 'a' else c
  }

  /** The text without case, as far as it is ASCII. */
  function Folded(s: string): string {
    seq(|s|, i requires 0 <= i < |s| => FoldChar(s[i]))
  }

  /** No two positions of `s` hold the same value. */
  ghost predicate Distinct<T>(s: seq<T>) {
    forall i, j :: 0 <= i < j < |s| ==> s[i] != s[j]
  }
}
