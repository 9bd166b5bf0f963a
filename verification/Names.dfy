/** `normalizeName`, and the code-unit string order the matcher sorts by. */
module Names {
  import opened Wrappers

  /**
   * Unicode decomposition, removal of combining marks and lower-casing, as one given function.
   */
  type Fold = string -> string

  predicate Plain(c: char) {
    'a' <= c <= 'z' || '0' <= c <= '9'
  }

  /** The string without its leading run of other characters. */
  function DropRun(s: string): (r: string)
    ensures |r| <= |s|
    ensures r != "" ==> Plain(r[0])
  {
    if s == "" || Plain(s[0]) then s else DropRun(s[1..])
  }

  /** `replace(/[^a-z0-9]+/g, ' ')`. */
  function Collapse(s: string): string
    decreases |s|
  {
    if s == "" then ""
    else if Plain(s[0]) then [s[0]] + Collapse(s[1..])
    else " " + Collapse(DropRun(s[1..]))
  }

  /** `trim()`, for a string whose only white space is single spaces. */
  function Trim(s: string): string {
    var t := if s != "" && s[0] == ' ' then s[1..] else s;
    if t != "" && t[|t| - 1] == ' ' then t[..|t| - 1] else t
  }

  function NormalizeName(fold: Fold, input: Option<string>): string {
    if input.None? || input.value == "" then "" else Trim(Collapse(fold(input.value)))
  }

  /** Lower-case alphanumeric words joined by single spaces. */
  ghost predicate Normal(s: string) {
    && (forall i :: 0 <= i < |s| ==> Plain(s[i]) || s[i] == ' ')
    && (s != "" ==> s[0] != ' ' && s[|s| - 1] != ' ')
    && (forall i :: 0 <= i < |s| - 1 ==> !(s[i] == ' ' && s[i + 1] == ' '))
  }

  /** Words joined by single spaces, with at most one space at either end. */
  ghost predicate Spaced(s: string) {
    && (forall i :: 0 <= i < |s| ==> Plain(s[i]) || s[i] == ' ')
    && (forall i :: 0 <= i < |s| - 1 ==> !(s[i] == ' ' && s[i + 1] == ' '))
  }

  lemma {:induction false} CollapseIsSpaced(s: string)
    ensures Spaced(Collapse(s))
    ensures s != "" && Plain(s[0]) ==> Collapse(s) != "" && Collapse(s)[0] != ' '
    ensures s == "" ==> Collapse(s) == ""
    decreases |s|
  {
    if s != "" {
      if Plain(s[0]) {
        CollapseIsSpaced(s[1..]);
      } else {
        CollapseIsSpaced(DropRun(s[1..]));
      }
    }
  }

  lemma TrimIsNormal(s: string)
    requires Spaced(s)
    ensures Normal(Trim(s))
  {
  }

  /** The result is always lower-case alphanumeric words joined by single spaces. */
  lemma NormalizeIsNormal(fold: Fold, input: Option<string>)
    ensures Normal(NormalizeName(fold, input))
  {
    if input.Some? && input.value != "" {
      CollapseIsSpaced(fold(input.value));
      TrimIsNormal(Collapse(fold(input.value)));
    }
  }

  lemma {:induction false} CollapseFixes(s: string)
    requires Spaced(s) && (s != "" ==> s[|s| - 1] != ' ')
    ensures Collapse(s) == s
  {
    if s != "" {
      CollapseFixes(s[1..]);
      if !Plain(s[0]) {
        assert s[0] == ' ' && |s| > 1;
        assert Plain(s[1]);
        assert DropRun(s[1..]) == s[1..];
        assert s == " " + s[1..];
      }
    }
  }

  /** Folding leaves names that are already normal alone, as decomposition and lower-casing do. */
  ghost predicate FixesNormal(fold: Fold) {
    forall s: string :: Normal(s) ==> fold(s) == s
  }

  /** Normalizing twice is normalizing once. */
  lemma NormalizeIsIdempotent(fold: Fold, input: Option<string>)
    requires FixesNormal(fold)
    ensures NormalizeName(fold, Some(NormalizeName(fold, input))) == NormalizeName(fold, input)
  {
    NormalizeIsNormal(fold, input);
    var s := NormalizeName(fold, input);
    if s != "" {
      assert fold(s) == s;
      CollapseFixes(s);
    }
  }

  // ----- Order -----

  /** `a < b` on strings. */
  predicate Less(a: string, b: string) {
    if b == "" then false
    else if a == "" then true
    else a[0] < b[0] || (a[0] == b[0] && Less(a[1..], b[1..]))
  }

  /** `compareStr`. */
  function CompareStr(a: string, b: string): int {
    if Less(a, b) then -1 else if Less(b, a) then 1 else 0
  }

  lemma {:induction false} LessTransitive(a: string, b: string, c: string)
    requires Less(a, b) && Less(b, c)
    ensures Less(a, c)
  {
    if a != "" && a[0] == b[0] == c[0] { LessTransitive(a[1..], b[1..], c[1..]); }
  }

  lemma {:induction false} LessIrreflexive(a: string)
    ensures !Less(a, a)
  {
    if a != "" { LessIrreflexive(a[1..]); }
  }

  lemma LessAsymmetric(a: string, b: string)
    ensures !(Less(a, b) && Less(b, a))
  {
    if Less(a, b) && Less(b, a) {
      LessTransitive(a, b, a);
      LessIrreflexive(a);
    }
  }

  lemma {:induction false} LessTotal(a: string, b: string)
    ensures Less(a, b) || Less(b, a) || a == b
  {
    if a != "" && b != "" && a[0] == b[0] {
      LessTotal(a[1..], b[1..]);
      assert a == [a[0]] + a[1..] && b == [b[0]] + b[1..];
    }
  }
}
