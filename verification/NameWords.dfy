/** What `normalizeName` keeps of a name, and what the string order is, told without either. */
module NameWords {
  import opened Wrappers
  import opened Names

  /** A lower-case letter or a digit. */
  predicate WordChar(c: char) {
    || 'a' <= c <= 'z'
    || '0' <= c <= '9'
  }

  /** The maximal runs of lower-case letters and digits, from left to right. */
  function Words(s: string): (words: seq<string>)
    ensures s != "" && WordChar(s[0]) ==> words != []
  {
    if s == "" then []
    else if !WordChar(s[0]) then Words(s[1..])
    else if |s| == 1 || !WordChar(s[1]) then [[s[0]]] + Words(s[1..])
    else
      var rest := Words(s[1..]);
      [[s[0]] + rest[0]] + rest[1..]
  }

  function Join(words: seq<string>): string {
    if words == [] then ""
    else if |words| == 1 then words[0]
    else words[0] + " " + Join(words[1..])
  }

  /** What is left of a name after decomposition and lower-casing; an absent or empty name leaves nothing. */
  function Folded(fold: Fold, input: Option<string>): string {
    if input.None? || input.value == "" then "" else fold(input.value)
  }

  lemma {:induction false} WordsOfDropRun(s: string)
    ensures Words(DropRun(s)) == Words(s)
  {
    if s != "" && !Plain(s[0]) { WordsOfDropRun(s[1..]); }
  }

  lemma {:induction false} WordsOfCollapse(s: string)
    ensures Words(Collapse(s)) == Words(s)
    ensures s != "" ==> Collapse(s) != "" && (Plain(Collapse(s)[0]) <==> Plain(s[0]))
    decreases |s|
  {
    if s != "" {
      if Plain(s[0]) {
        WordsOfCollapse(s[1..]);
        assert ([s[0]] + Collapse(s[1..]))[1..] == Collapse(s[1..]);
      } else {
        WordsOfCollapse(DropRun(s[1..]));
        WordsOfDropRun(s[1..]);
        assert (" " + Collapse(DropRun(s[1..])))[1..] == Collapse(DropRun(s[1..]));
      }
    }
  }

  lemma {:induction false} WordsBeforeSpace(s: string)
    ensures Words(s + " ") == Words(s)
  {
    if s == "" {
      assert "" + " " == " " && Words(" "[1..]) == [];
    } else {
      WordsBeforeSpace(s[1..]);
      assert (s + " ")[1..] == s[1..] + " ";
    }
  }

  lemma WordsOfTrim(s: string)
    ensures Words(Trim(s)) == Words(s)
  {
    var t := if s != "" && s[0] == ' ' then s[1..] else s;
    assert Words(t) == Words(s);
    if t != "" && t[|t| - 1] == ' ' {
      WordsBeforeSpace(t[..|t| - 1]);
      assert t == t[..|t| - 1] + " ";
    }
  }

  lemma JoinLetter(c: char, rest: seq<string>)
    requires rest != []
    ensures Join([[c] + rest[0]] + rest[1..]) == [c] + Join(rest)
  {
    var words := [[c] + rest[0]] + rest[1..];
    assert words[1..] == rest[1..];
    if |rest| > 1 { assert [c] + rest[0] + " " + Join(rest[1..]) == [c] + (rest[0] + " " + Join(rest[1..])); }
  }

  lemma JoinWord(c: char, rest: seq<string>)
    requires rest != []
    ensures Join([[c]] + rest) == [c] + " " + Join(rest)
  {
    assert ([[c]] + rest)[1..] == rest;
  }

  lemma {:induction false} JoinsWords(s: string)
    requires Normal(s)
    ensures Join(Words(s)) == s
    decreases |s|
  {
    if |s| > 1 {
      if Plain(s[1]) {
        JoinsWords(s[1..]);
        JoinLetter(s[0], Words(s[1..]));
        hide Join;
        assert s == [s[0]] + s[1..];
      } else {
        assert |s| > 2 && s[1] == ' ' && Plain(s[2]);
        JoinsWords(s[2..]);
        JoinWord(s[0], Words(s[2..]));
        hide Join;
        assert s[1..][1..] == s[2..];
        assert s == [s[0]] + " " + s[2..];
      }
    } else if |s| == 1 {
      assert Words(s) == [[s[0]]] + Words(s[1..]);
      assert s == [s[0]];
    }
  }

  /** A normalized name is the folded name's words joined by single spaces, whatever stood between them. */
  lemma NormalizeKeepsWords(fold: Fold, input: Option<string>)
    ensures NormalizeName(fold, input) == Join(Words(Folded(fold, input)))
    ensures Words(NormalizeName(fold, input)) == Words(Folded(fold, input))
  {
    NormalizeIsNormal(fold, input);
    JoinsWords(NormalizeName(fold, input));
    if input.Some? && input.value != "" {
      WordsOfCollapse(fold(input.value));
      WordsOfTrim(Collapse(fold(input.value)));
    }
  }

  /** Two names normalize alike exactly when they have the same words; one normalizes to nothing exactly when it has none. */
  lemma SameNameExactly(fold: Fold, a: Option<string>, b: Option<string>)
    ensures NormalizeName(fold, a) == NormalizeName(fold, b) <==> Words(Folded(fold, a)) == Words(Folded(fold, b))
    ensures NormalizeName(fold, a) == "" <==> Words(Folded(fold, a)) == []
  {
    NormalizeKeepsWords(fold, a);
    NormalizeKeepsWords(fold, b);
    assert Words("") == [] && Join([]) == "";
  }

  // ----- Order -----

  /** `a` is a proper prefix of `b`, or smaller in the first place where they differ. */
  predicate Precedes(a: string, b: string) {
    exists k :: 0 <= k <= |a| && k < |b| && a[..k] == b[..k] && (k == |a| || a[k] < b[k])
  }

  /** A common first character makes no difference. */
  lemma PrecedesTail(a: string, b: string)
    requires a != "" && b != "" && a[0] == b[0]
    ensures Precedes(a, b) <==> Precedes(a[1..], b[1..])
  {
    var s, t := a[1..], b[1..];
    if Precedes(s, t) {
      var k :| 0 <= k <= |s| && k < |t| && s[..k] == t[..k] && (k == |s| || s[k] < t[k]);
      assert a[..k + 1] == [a[0]] + s[..k] && b[..k + 1] == [b[0]] + t[..k];
    }
    if Precedes(a, b) {
      var k :| 0 <= k <= |a| && k < |b| && a[..k] == b[..k] && (k == |a| || a[k] < b[k]);
      assert k > 0;
      assert s[..k - 1] == a[..k][1..] && t[..k - 1] == b[..k][1..];
    }
  }

  lemma SameStart(a: string, b: string, k: nat)
    requires k <= |a| && k <= |b| && a[..k] == b[..k]
    ensures k > 0 ==> a[0] == b[0]
  {
    if k > 0 { assert a[..k][0] == b[..k][0]; }
  }

  lemma PrecedesByFirst(a: string, b: string)
    requires a != "" && b != "" && a[0] != b[0]
    ensures Precedes(a, b) <==> a[0] < b[0]
  {
    assert a[..0] == b[..0];
    if Precedes(a, b) {
      var k :| 0 <= k <= |a| && k < |b| && a[..k] == b[..k] && (k == |a| || a[k] < b[k]);
      SameStart(a, b, k);
    }
  }

  /** `compareStr` orders strings lexicographically by their code units. */
  lemma {:induction false} LessIsLexicographic(a: string, b: string)
    ensures Less(a, b) <==> Precedes(a, b)
  {
    if a == "" || b == "" {
      assert a[..0] == b[..0];
    } else if a[0] == b[0] {
      LessIsLexicographic(a[1..], b[1..]);
      PrecedesTail(a, b);
      hide Precedes;
    } else {
      PrecedesByFirst(a, b);
      hide Precedes;
    }
  }
}
