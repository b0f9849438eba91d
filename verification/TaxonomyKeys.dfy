/**
 Taxonomy keys: a label is reduced to its words, joined by single dashes. The
 characters arrive folded; which of them are letters or digits is a parameter.
 */
module TaxonomyKeys {
  import opened Common

  /** The key so far, and whether a separator has been read since its last character. */
  datatype Scan = Scan(key: string, pending: bool)

  function Scanned(s: string, alnum: char -> bool): Scan {
    if s == "" then Scan("", false)
    else
      var before := Scanned(s[..|s| - 1], alnum);
      var c := s[|s| - 1];
      if alnum(c) then Scan(before.key + (if before.pending && before.key != "" then "-" else "") + [c], false)
      else before.(pending := true)
  }

  /** The key of a label; a label without letters and digits has none. */
  function KeyOf(s: string, alnum: char -> bool): Option<string> {
    if Scanned(s, alnum).key == "" then None else Some(Scanned(s, alnum).key)
  }

  method NormalizeTaxonomyKey(normalized: string, alnum: char -> bool) returns (r: Option<string>)
    ensures r == KeyOf(normalized, alnum)
  {
    var key, pending := "", false;
    for i := 0 to |normalized|
      invariant Scan(key, pending) == Scanned(normalized[..i], alnum)
    {
      assert normalized[..i + 1][..i] == normalized[..i];
      var c := normalized[i];
      if alnum(c) {
        if pending && key != "" {
          key := key + "-";
        }
        key := key + [c];
        pending := false;
      } else {
        pending := true;
      }
    }
    assert normalized[..|normalized|] == normalized;
    r := if key == "" then None else Some(key);
  }

  // ----- what a key is

  predicate IsWord(w: string, alnum: char -> bool) {
    w != "" && forall i :: 0 <= i < |w| ==> alnum(w[i])
  }

  predicate AreWords(ws: seq<string>, alnum: char -> bool) {
    forall i :: 0 <= i < |ws| ==> IsWord(ws[i], alnum)
  }

  /** The longest runs of letters and digits. */
  function Words(s: string, alnum: char -> bool): seq<string> {
    if s == "" then []
    else
      var front := Words(s[..|s| - 1], alnum);
      var c := s[|s| - 1];
      if !alnum(c) then front
      else if |s| > 1 && alnum(s[|s| - 2]) && front != [] then front[..|front| - 1] + [front[|front| - 1] + [c]]
      else front + [[c]]
  }

  function Join(ws: seq<string>): string {
    if ws == [] then ""
    else if |ws| == 1 then ws[0]
    else Join(ws[..|ws| - 1]) + "-" + ws[|ws| - 1]
  }

  lemma {:induction false} WordsAreWords(s: string, alnum: char -> bool)
    ensures AreWords(Words(s, alnum), alnum)
    ensures s != "" && alnum(s[|s| - 1]) ==> Words(s, alnum) != []
  {
    if s != "" {
      var front := Words(s[..|s| - 1], alnum);
      var c := s[|s| - 1];
      WordsAreWords(s[..|s| - 1], alnum);
      if alnum(c) {
        assert IsWord([c], alnum);
        if front != [] {
          assert IsWord(front[|front| - 1], alnum);
          WordGrows(front[|front| - 1], c, alnum);
        }
        hide IsWord;
      }
    }
  }

  lemma WordGrows(w: string, c: char, alnum: char -> bool)
    requires IsWord(w, alnum) && alnum(c)
    ensures IsWord(w + [c], alnum)
  {
  }

  lemma JoinOneMore(ws: seq<string>, w: string)
    ensures Join(ws + [w]) == Join(ws) + (if ws == [] then "" else "-") + w
  {
    assert (ws + [w])[..|ws|] == ws;
  }

  lemma Regroup(a: string, b: string, c: string)
    ensures a + (b + c) == a + b + c
  {
  }

  /** The last word grows by one character. */
  lemma JoinLonger(ws: seq<string>, c: char)
    requires ws != []
    ensures Join(ws[..|ws| - 1] + [ws[|ws| - 1] + [c]]) == Join(ws) + [c]
  {
    hide Join;
    var front, last := ws[..|ws| - 1], ws[|ws| - 1];
    var head := Join(front) + if front == [] then "" else "-";
    assert ws == front + [last];
    assert Join(front + [last]) == head + last by { JoinOneMore(front, last); }
    assert Join(front + [last + [c]]) == head + (last + [c]) by { JoinOneMore(front, last + [c]); }
    Regroup(head, last, [c]);
  }

  lemma {:induction false} JoinIsEmptyIff(ws: seq<string>, alnum: char -> bool)
    requires AreWords(ws, alnum)
    ensures Join(ws) == "" <==> ws == []
  {
    assert ws != [] ==> IsWord(ws[|ws| - 1], alnum);
  }

  /** The scan builds the words joined by dashes. */
  lemma {:induction false} KeyIsItsWords(s: string, alnum: char -> bool)
    ensures Scanned(s, alnum).key == Join(Words(s, alnum))
    ensures Scanned(s, alnum).pending <==> s != "" && !alnum(s[|s| - 1])
  {
    if s != "" {
      var front := s[..|s| - 1];
      var c := s[|s| - 1];
      KeyIsItsWords(front, alnum);
      WordsAreWords(front, alnum);
      JoinIsEmptyIff(Words(front, alnum), alnum);
      if alnum(c) {
        JoinOneMore(Words(front, alnum), [c]);
        if Words(front, alnum) != [] {
          JoinLonger(Words(front, alnum), c);
        }
      }
      hide Join, AreWords;
    }
  }

  lemma {:induction false} OneWord(w: string, alnum: char -> bool)
    requires IsWord(w, alnum)
    ensures Words(w, alnum) == [w]
  {
    if |w| > 1 {
      OneWord(w[..|w| - 1], alnum);
      assert w == w[..|w| - 1] + [w[|w| - 1]];
    } else {
      assert w[..0] == "" && w == [w[0]];
    }
  }

  lemma {:induction false} WordBehindDash(s: string, w: string, alnum: char -> bool)
    requires !alnum('-') && IsWord(w, alnum)
    ensures Words(s + "-" + w, alnum) == Words(s, alnum) + [w]
  {
    if |w| == 1 {
      assert w == [w[0]] && s + "-" + w == s + "-" + [w[0]];
      DashSeparates(s, alnum);
      OneMoreCharacter(s + "-", w[0], alnum);
    } else {
      var front, c := w[..|w| - 1], w[|w| - 1];
      assert w == front + [c];
      WordBehindDash(s, front, alnum);
      assert s + "-" + w == s + "-" + front + [c];
      OneMoreCharacter(s + "-" + front, c, alnum);
    }
    hide Words;
  }

  lemma DashSeparates(s: string, alnum: char -> bool)
    requires !alnum('-')
    ensures Words(s + "-", alnum) == Words(s, alnum)
  {
    assert (s + "-")[..|s|] == s;
  }

  /** What one more letter or digit does: it extends the last word, or starts a new one. */
  lemma OneMoreCharacter(s: string, c: char, alnum: char -> bool)
    requires alnum(c)
    ensures var ws := Words(s, alnum);
      Words(s + [c], alnum) ==
      if s != "" && alnum(s[|s| - 1]) && ws != [] then ws[..|ws| - 1] + [ws[|ws| - 1] + [c]] else ws + [[c]]
  {
    assert (s + [c])[..|s|] == s;
  }

  /** Joined words are read back. */
  lemma {:induction false} WordsOfJoin(ws: seq<string>, alnum: char -> bool)
    requires !alnum('-') && AreWords(ws, alnum)
    ensures Words(Join(ws), alnum) == ws
  {
    if |ws| == 1 {
      OneWord(ws[0], alnum);
      assert ws == [ws[0]];
    } else if |ws| > 1 {
      var front := ws[..|ws| - 1];
      WordsOfJoin(front, alnum);
      WordBehindDash(Join(front), ws[|ws| - 1], alnum);
      assert ws == front + [ws[|ws| - 1]];
    }
  }

  // ----- what keys are good for

  /** A key is the key of itself. */
  lemma KeysAreStable(s: string, alnum: char -> bool)
    requires !alnum('-') && KeyOf(s, alnum).Some?
    ensures KeyOf(KeyOf(s, alnum).value, alnum) == KeyOf(s, alnum)
  {
    var key := KeyOf(s, alnum).value;
    KeyIsItsWords(s, alnum);
    WordsAreWords(s, alnum);
    WordsOfJoin(Words(s, alnum), alnum);
    KeyIsItsWords(key, alnum);
  }

  /** Two labels share a key exactly when they have the same words; how the words are separated does not matter. */
  lemma SameKeyIffSameWords(s: string, t: string, alnum: char -> bool)
    requires !alnum('-')
    ensures KeyOf(s, alnum) == KeyOf(t, alnum) <==> Words(s, alnum) == Words(t, alnum)
  {
    KeyIsItsWords(s, alnum);
    KeyIsItsWords(t, alnum);
    WordsAreWords(s, alnum);
    WordsAreWords(t, alnum);
    WordsOfJoin(Words(s, alnum), alnum);
    WordsOfJoin(Words(t, alnum), alnum);
  }

  /** A label has a key exactly when it has a letter or digit. */
  lemma {:induction false} KeyExistsIff(s: string, alnum: char -> bool)
    ensures KeyOf(s, alnum).Some? <==> exists i :: 0 <= i < |s| && alnum(s[i])
  {
    if s != "" {
      var front := s[..|s| - 1];
      KeyExistsIff(front, alnum);
      assert forall i :: 0 <= i < |front| ==> front[i] == s[i];
    }
  }
}
